/** The feed engine as a function of its state: what `add_to_feed`,
    `remove_from_feed`, `trim` and `clean_feed` do to the three keys of a feed,
    and what every run of them keeps. `Timeline` proves the commands the source
    issues compute these functions. */
module Feed {
  import opened Basics
  import opened SortedSets

  /** `FeedManager::MAX_ITEMS`. */
  const FEED_MAX_ITEMS: nat := 800
  /** `FeedManager::REBLOG_FALLOFF`. */
  const REBLOG_FALLOFF: nat := 80

  /** The score Redis keeps for an id: the id as a 64-bit float, which is an
      integer. Only its monotonicity is used, or, where said, its exactness. */
  type Scoring = Id -> int

  ghost predicate Monotone(score: Scoring) {
    && (forall x :: 0 <= score(x))
    && (forall x, y :: x <= y ==> score(x) <= score(y))
  }

  ghost predicate Exact(score: Scoring) {
    && Monotone(score)
    && (forall x, y :: x < y ==> score(x) < score(y))
  }

  /** A feed's keys: the sorted set of statuses, the boosted posts with a boost
      in it scored by that boost, and for a boosted post the boosts held back.
      As in Redis, a held-back set that empties is no key at all. */
  datatype Keys = Keys(z: set<Id>, reblogs: map<Id, int>, held: map<Id, set<Id>>) {
    function Held(post: Id): set<Id> {
      if post in held then held[post] else {}
    }
  }

  const EMPTY := Keys({}, map[], map[])

  datatype Answer = Answer(feed: Keys, yes: bool)

  /** `reblog_of_id.filter(|_| aggregate)`. */
  function Aggregated(boosted: Option<Id>, aggregate: bool): Option<Id> {
    if aggregate then boosted else None
  }

  function Put(held: map<Id, set<Id>>, post: Id, boosts: set<Id>): map<Id, set<Id>> {
    if boosts == {} then held - {post} else held[post := boosts]
  }

  predicate RankedNew(z: set<Id>, x: Id) {
    x in z && Rank(z, x) < REBLOG_FALLOFF
  }

  /** `add_to_feed`. */
  function Add(score: Scoring, f: Keys, id: Id, boosted: Option<Id>, aggregate: bool): Answer {
    match Aggregated(boosted, aggregate)
    case Some(post) =>
      if RankedNew(f.z, post) then
        Answer(f, false)
      else if post !in f.reblogs then
        Answer(f.(z := f.z + {id}, reblogs := f.reblogs[post := score(id)]), true)
      else
        Answer(f.(held := f.held[post := f.Held(post) + {id}]), false)
    case None =>
      if id in f.reblogs then Answer(f, false)
      else Answer(f.(z := f.z + {id}), true)
  }

  /** `remove_from_feed`. */
  function Remove(score: Scoring, f: Keys, id: Id, boosted: Option<Id>, aggregate: bool): Answer {
    match Aggregated(boosted, aggregate)
    case Some(post) =>
      if id !in f.z then
        Answer(f, false)
      else
        var others := f.Held(post) - {id};
        var held := Put(f.held, post, others);
        if others == {} then
          Answer(Keys(f.z - {id}, f.reblogs - {post}, held), true)
        else
          var other := Oldest(others);
          Answer(Keys(f.z + {other} - {id}, f.reblogs[post := score(other)], held), true)
    case None =>
      Answer(Keys(f.z - {id}, f.reblogs - {id}, f.held - {id}), id in f.z)
  }

  /** The boosted posts `trim` stops tracking in a feed already cut. */
  function Stale(score: Scoring, z: set<Id>, reblogs: map<Id, int>): set<Id> {
    if |z| <= REBLOG_FALLOFF then {}
    else set p | p in reblogs && 0 <= reblogs[p] <= score(EntryAtRank(z, REBLOG_FALLOFF))
  }

  /** `trim`. */
  function Trim(score: Scoring, f: Keys): (trimmed: Keys)
    ensures |trimmed.z| <= FEED_MAX_ITEMS
  {
    NewestSize(f.z, FEED_MAX_ITEMS);
    var z := Newest(f.z, FEED_MAX_ITEMS);
    var stale := Stale(score, z, f.reblogs);
    Keys(z, f.reblogs - stale, f.held - stale)
  }

  /** `clean_feed`: the held-back sets it deletes are those it finds through
      the tracked posts. */
  function Clean(f: Keys): Keys {
    Keys({}, map[], f.held - f.reblogs.Keys)
  }

  // ── Runs ────────────────────────────────────────────────────────────────

  /** Which post each boost boosts; a plain post has no entry. */
  type Origins = map<Id, Id>

  function Boosted(origins: Origins, id: Id): Option<Id> {
    if id in origins then Some(origins[id]) else None
  }

  datatype Command =
    | Adding(id: Id, aggregate: bool)
    | Removing(id: Id, aggregate: bool)
    | Trimming

  function Step(score: Scoring, origins: Origins, f: Keys, c: Command): Keys {
    match c
    case Adding(id, aggregate) => Add(score, f, id, Boosted(origins, id), aggregate).feed
    case Removing(id, aggregate) => Remove(score, f, id, Boosted(origins, id), aggregate).feed
    case Trimming => Trim(score, f)
  }

  function Run(score: Scoring, origins: Origins, f: Keys, commands: seq<Command>): Keys
    decreases |commands|
  {
    if commands == [] then f
    else Run(score, origins, Step(score, origins, f, commands[0]), commands[1..])
  }

  lemma {:induction false} RunAppend(
    score: Scoring, origins: Origins, f: Keys, a: seq<Command>, b: seq<Command>)
    ensures Run(score, origins, f, a + b)
         == Run(score, origins, Run(score, origins, f, a), b)
    decreases |a|
  {
    if a == [] {
      assert a + b == b;
    } else {
      assert (a + b)[1..] == a[1..] + b;
      RunAppend(score, origins, Step(score, origins, f, a[0]), a[1..], b);
    }
  }

  lemma RunOne(score: Scoring, origins: Origins, f: Keys, c: Command)
    ensures Run(score, origins, f, [c]) == Step(score, origins, f, c)
  {
    assert [c][1..] == [];
  }

  /** `push`, an addition and a trim when it went in, is a run of these. */
  lemma PushIsARun(score: Scoring, origins: Origins, f: Keys, id: Id, aggregate: bool)
    ensures var a := Add(score, f, id, Boosted(origins, id), aggregate);
            var push := if a.yes then [Adding(id, aggregate), Trimming] else [Adding(id, aggregate)];
            Run(score, origins, f, push) == if a.yes then Trim(score, a.feed) else a.feed
  {
    var a := Add(score, f, id, Boosted(origins, id), aggregate);
    RunOne(score, origins, f, Adding(id, aggregate));
    RunOne(score, origins, a.feed, Trimming);
    assert [Adding(id, aggregate), Trimming][1..] == [Trimming];
  }

  // ── What one command leaves alone ───────────────────────────────────────

  predicate SameFor(f: Keys, g: Keys, post: Id) {
    && (post in g.reblogs <==> post in f.reblogs)
    && (post in f.reblogs ==> g.reblogs[post] == f.reblogs[post])
    && g.Held(post) == f.Held(post)
  }

  /** A status that is no boost, or is not aggregated as one, goes in exactly
      when no boost of it is tracked, and no post's boosts are touched. */
  lemma PostGoesInUnlessTracked(score: Scoring, f: Keys, id: Id, boosted: Option<Id>, aggregate: bool)
    requires boosted.None? || !aggregate
    ensures var a := Add(score, f, id, boosted, aggregate);
            && (a.yes <==> id !in f.reblogs)
            && a.feed == f.(z := if id in f.reblogs then f.z else f.z + {id})
  {
  }

  /** Removing such a status takes it out, with its tracking and the boosts held
      back for it, and touches no other. */
  lemma RemovingAPostForgetsItsBoosts(
    score: Scoring, f: Keys, id: Id, boosted: Option<Id>, aggregate: bool)
    requires boosted.None? || !aggregate
    ensures var a := Remove(score, f, id, boosted, aggregate);
            && (a.yes <==> id in f.z)
            && (forall x :: x in a.feed.z <==> x in f.z && x != id)
            && id !in a.feed.reblogs && id !in a.feed.held
            && (forall p :: p != id ==> SameFor(f, a.feed, p))
  {
  }

  /** Removing a boost the feed does not hold changes nothing, not even if it is
      held back; removing one it holds touches only its own post. */
  lemma RemovingABoostTouchesOnlyItsPost(score: Scoring, f: Keys, id: Id, post: Id)
    ensures var a := Remove(score, f, id, Some(post), true);
            && (a.yes <==> id in f.z)
            && (!a.yes ==> a.feed == f)
            && (forall p :: p != post ==> SameFor(f, a.feed, p))
            && (forall x :: x in f.z && x != id ==> x in a.feed.z)
            && (forall x :: x in a.feed.z && x !in f.z ==> x in f.Held(post))
  {
  }

  function Removed(commands: seq<Command>): set<Id> {
    set c | c in commands && c.Removing? :: c.id
  }

  /** With nothing held back for a post, removing its boosts, in any order, puts
      nothing in its feed. */
  lemma {:induction false} NothingHeldNothingPromoted(
    score: Scoring, origins: Origins, f: Keys, post: Id, commands: seq<Command>)
    requires post !in f.held
    requires forall c :: c in commands ==> c.Removing? && Boosted(origins, c.id) == Some(post)
    ensures Run(score, origins, f, commands).z == f.z - Removed(commands)
    decreases |commands|
  {
    if commands != [] {
      var c, rest := commands[0], commands[1..];
      var next := Step(score, origins, f, c);
      assert c in commands && forall d :: d in commands <==> d == c || d in rest;
      assert f.Held(post) - {c.id} == {};
      assert next.z == f.z - {c.id} && next.held.Keys <= f.held.Keys;
      NothingHeldNothingPromoted(score, origins, next, post, rest);
      assert Removed(commands) == {c.id} + Removed(rest);
    }
  }

  /** Once a post is removed, removing its boosts, however many and in whatever
      order, brings none of those held back for it into the feed. */
  lemma RemovedPostStaysOut(
    score: Scoring, origins: Origins, f: Keys, post: Id, aggregate: bool, commands: seq<Command>)
    requires Boosted(origins, post).None?
    requires forall c :: c in commands ==> c.Removing? && Boosted(origins, c.id) == Some(post)
    ensures Run(score, origins, f, [Removing(post, aggregate)] + commands).z == f.z - {post} - Removed(commands)
  {
    var first := [Removing(post, aggregate)];
    RunAppend(score, origins, f, first, commands);
    RunOne(score, origins, f, first[0]);
    NothingHeldNothingPromoted(score, origins, Step(score, origins, f, first[0]), post, commands);
  }

  /** A trim leaves the newest 800, and of the posts tracked just those whose
      boost outscores the entry with 80 newer ones, if there is one; what it
      keeps is as it was, and what it drops leaves nothing held back. */
  lemma TrimDropsJustTheStale(score: Scoring, f: Keys, post: Id)
    requires Monotone(score)
    ensures Trim(score, f).z == Newest(f.z, 800)
    ensures post in f.reblogs && 0 <= f.reblogs[post] ==>
              (post !in Trim(score, f).reblogs <==>
                exists x :: x in Trim(score, f).z && Rank(Trim(score, f).z, x) == 80 && f.reblogs[post] <= score(x))
    ensures post in f.reblogs && post !in Trim(score, f).reblogs ==> post !in Trim(score, f).held
    ensures post !in f.reblogs || post in Trim(score, f).reblogs ==> SameFor(f, Trim(score, f), post)
  {
    var z := Newest(f.z, FEED_MAX_ITEMS);
    NewestSize(f.z, FEED_MAX_ITEMS);
    forall x | x in z && Rank(z, x) == 80 ensures 80 < |z| && x == EntryAtRank(z, 80) {
      RankBelowSize(z, x);
      RankInjective(z, x, EntryAtRank(z, 80));
    }
  }

  // ── No key left behind ──────────────────────────────────────────────────

  /** A post with boosts held back is tracked. */
  ghost predicate HeldAreTracked(f: Keys) {
    forall p :: p in f.held ==> p in f.reblogs && f.held[p] != {}
  }

  lemma StepKeepsHeldTracked(score: Scoring, origins: Origins, f: Keys, c: Command)
    requires HeldAreTracked(f)
    ensures HeldAreTracked(Step(score, origins, f, c))
  {
    var after := Step(score, origins, f, c);
    forall p | p in after.held ensures p in after.reblogs && after.held[p] != {} {
      assert p in f.held ==> p in f.reblogs;
    }
  }

  lemma {:induction false} HeldAlwaysTracked(
    score: Scoring, origins: Origins, f: Keys, commands: seq<Command>)
    requires HeldAreTracked(f)
    ensures HeldAreTracked(Run(score, origins, f, commands))
    decreases |commands|
  {
    if commands != [] {
      StepKeepsHeldTracked(score, origins, f, commands[0]);
      HeldAlwaysTracked(score, origins, Step(score, origins, f, commands[0]), commands[1..]);
    }
  }

  /** Whatever happened to a feed, in whatever order and however the user
      toggled aggregation, cleaning it leaves no key. */
  lemma CleaningLeavesNoKey(score: Scoring, origins: Origins, commands: seq<Command>)
    ensures Clean(Run(score, origins, EMPTY, commands)) == EMPTY
  {
    HeldAlwaysTracked(score, origins, EMPTY, commands);
    var f := Run(score, origins, EMPTY, commands);
    assert f.held.Keys <= f.reblogs.Keys;
    assert f.held - f.reblogs.Keys == map[];
  }

  // ── Every tracked boost is in the feed ──────────────────────────────────

  ghost predicate IsLead(score: Scoring, origins: Origins, f: Keys, post: Id, boost: Id) {
    && post in f.reblogs
    && boost in f.z
    && Boosted(origins, boost) == Some(post)
    && f.reblogs[post] == score(boost)
  }

  /** Each tracked post is tracked by a boost of it the feed holds, and the
      boosts held back for it are boosts of it. */
  ghost predicate LeadsPresent(score: Scoring, origins: Origins, f: Keys) {
    && (forall p :: p in f.reblogs ==> exists b :: IsLead(score, origins, f, p, b))
    && (forall p, b :: p in f.held && b in f.held[p] ==> Boosted(origins, b) == Some(p))
  }

  predicate Aggregates(c: Command) {
    c.Trimming? || c.aggregate
  }

  lemma AddKeepsLeads(score: Scoring, origins: Origins, f: Keys, id: Id)
    requires LeadsPresent(score, origins, f)
    ensures LeadsPresent(score, origins, Add(score, f, id, Boosted(origins, id), true).feed)
  {
    var after := Add(score, f, id, Boosted(origins, id), true).feed;
    forall p | p in after.reblogs ensures exists b :: IsLead(score, origins, after, p, b) {
      if p in f.reblogs {
        var b :| IsLead(score, origins, f, p, b);
        assert IsLead(score, origins, after, p, b);
      } else {
        assert IsLead(score, origins, after, p, id);
      }
    }
  }

  lemma RemoveKeepsLeads(score: Scoring, origins: Origins, f: Keys, id: Id)
    requires LeadsPresent(score, origins, f)
    ensures LeadsPresent(score, origins, Remove(score, f, id, Boosted(origins, id), true).feed)
  {
    var boosted := Boosted(origins, id);
    var after := Remove(score, f, id, boosted, true).feed;
    forall p | p in after.reblogs ensures exists b :: IsLead(score, origins, after, p, b) {
      if boosted == Some(p) && id in f.z {
        var other := Oldest(f.Held(p) - {id});
        assert other in f.held[p];
        assert IsLead(score, origins, after, p, other);
      } else {
        var b :| IsLead(score, origins, f, p, b);
        assert IsLead(score, origins, after, p, b);
      }
    }
  }

  /** A lead that outscores the entry at the fall-off is not cut. */
  lemma OutscoringIsKept(score: Scoring, z: set<Id>, n: nat, b: Id, kept: Id)
    requires Monotone(score)
    requires kept in Newest(z, n) && b in z && score(kept) < score(b)
    ensures b in Newest(z, n) && Rank(z, b) < Rank(z, kept)
  {
    assert kept < b;
    RankStrict(z, kept, b);
  }

  lemma TrimKeepsLeads(score: Scoring, origins: Origins, f: Keys)
    requires Monotone(score) && LeadsPresent(score, origins, f)
    ensures LeadsPresent(score, origins, Trim(score, f))
  {
    var z, after := Newest(f.z, FEED_MAX_ITEMS), Trim(score, f);
    NewestSize(f.z, FEED_MAX_ITEMS);
    forall p | p in after.reblogs ensures exists b :: IsLead(score, origins, after, p, b) {
      var b :| IsLead(score, origins, f, p, b);
      if |z| > REBLOG_FALLOFF {
        OutscoringIsKept(score, f.z, FEED_MAX_ITEMS, b, EntryAtRank(z, REBLOG_FALLOFF));
      }
      assert IsLead(score, origins, after, p, b);
    }
  }

  /** While the user keeps aggregating, every post a run tracks is tracked by
      a boost of it that is in the feed. */
  lemma {:induction false} LeadsAlwaysPresent(
    score: Scoring, origins: Origins, f: Keys, commands: seq<Command>)
    requires Monotone(score) && LeadsPresent(score, origins, f)
    requires forall c :: c in commands ==> Aggregates(c)
    ensures LeadsPresent(score, origins, Run(score, origins, f, commands))
    decreases |commands|
  {
    if commands != [] {
      assert Aggregates(commands[0]);
      match commands[0] {
        case Adding(id, _) => AddKeepsLeads(score, origins, f, id);
        case Removing(id, _) => RemoveKeepsLeads(score, origins, f, id);
        case Trimming => TrimKeepsLeads(score, origins, f);
      }
      LeadsAlwaysPresent(score, origins, Step(score, origins, f, commands[0]), commands[1..]);
    }
  }

  // ── One entry per post among the newest ─────────────────────────────────

  /** The entries that score at least as high as `b`: with exact scores, `b`
      and the newer ones; with rounded ones, those rounded with it too. */
  function NoLower(score: Scoring, z: set<Id>, b: Id): set<Id> {
    set y | y in z && score(b) <= score(y)
  }

  /** Among the newest 80 even if every tie of scores goes against it. */
  predicate Fresh(score: Scoring, z: set<Id>, b: Id) {
    b in z && |NoLower(score, z, b)| <= REBLOG_FALLOFF
  }

  /** What no run of additions and trims breaks. A boost that ranks fresh is
      the tracked lead of its post, the only fresh boost of it, and the post
      itself is not among the newest. */
  ghost predicate Deduplicated(score: Scoring, origins: Origins, f: Keys) {
    && (forall b :: b in origins && Fresh(score, f.z, b) ==>
          && origins[b] in f.reblogs
          && f.reblogs[origins[b]] == score(b)
          && !RankedNew(f.z, origins[b]))
    && (forall b, c | b in origins && c in origins && Fresh(score, f.z, b) && Fresh(score, f.z, c) ::
          origins[b] == origins[c] ==> b == c)
  }

  /** A boost never boosts a boost. */
  ghost predicate BoostsOfPosts(origins: Origins) {
    forall b :: b in origins ==> origins[b] !in origins
  }

  lemma FreshBefore(score: Scoring, a: set<Id>, z: set<Id>, b: Id)
    requires a <= z && b in a && Fresh(score, z, b)
    ensures Fresh(score, a, b)
  {
    SubsetSize(NoLower(score, a, b), NoLower(score, z, b));
  }

  lemma RankedNewBefore(a: set<Id>, z: set<Id>, p: Id)
    requires a <= z && p in a && RankedNew(z, p)
    ensures RankedNew(a, p)
  {
    RankMonotone(a, z, p);
  }

  lemma AddKeepsDeduplicated(score: Scoring, origins: Origins, f: Keys, id: Id)
    requires BoostsOfPosts(origins) && Deduplicated(score, origins, f)
    ensures Deduplicated(score, origins, Add(score, f, id, Boosted(origins, id), true).feed)
  {
    var after := Add(score, f, id, Boosted(origins, id), true).feed;
    forall b | b in f.z && Fresh(score, after.z, b) ensures Fresh(score, f.z, b) {
      FreshBefore(score, f.z, after.z, b);
    }
    forall p | p in f.z && RankedNew(after.z, p) ensures RankedNew(f.z, p) {
      RankedNewBefore(f.z, after.z, p);
    }
  }

  /** A fresh boost outscores the entry at the fall-off. */
  lemma FreshOutscores(score: Scoring, z: set<Id>, b: Id)
    requires Monotone(score) && Fresh(score, z, b) && REBLOG_FALLOFF < |z|
    ensures score(EntryAtRank(z, REBLOG_FALLOFF)) < score(b)
  {
    var falloff := EntryAtRank(z, REBLOG_FALLOFF);
    if score(b) <= score(falloff) {
      SubsetSize(Above(z, falloff) + {falloff}, NoLower(score, z, b));
    }
  }

  lemma TrimKeepsDeduplicated(score: Scoring, origins: Origins, f: Keys)
    requires Monotone(score) && Deduplicated(score, origins, f)
    ensures Deduplicated(score, origins, Trim(score, f))
  {
    var z, after := Newest(f.z, FEED_MAX_ITEMS), Trim(score, f);
    forall b | Fresh(score, z, b)
      ensures Fresh(score, f.z, b)
      ensures b in origins && origins[b] in f.reblogs && f.reblogs[origins[b]] == score(b)
          ==> origins[b] in after.reblogs
    {
      FreshIgnoresCut(score, f.z, b);
      if |z| > REBLOG_FALLOFF {
        FreshOutscores(score, z, b);
      }
    }
    forall p | RankedNew(z, p) ensures RankedNew(f.z, p) {
      RankInNewest(f.z, FEED_MAX_ITEMS, p);
    }
  }

  /** Cutting the feed at 800 makes no entry fresh that was not. */
  lemma FreshIgnoresCut(score: Scoring, z: set<Id>, b: Id)
    requires Monotone(score) && Fresh(score, Newest(z, FEED_MAX_ITEMS), b)
    ensures Fresh(score, z, b)
  {
    var cut := Newest(z, FEED_MAX_ITEMS);
    if y :| y in z && y !in cut && score(b) <= score(y) {
      // Everything kept is newer than `y`, so nothing kept scores below `b`.
      NewestSize(z, FEED_MAX_ITEMS);
      RankBelowSize(z, y);
      forall x | x in cut ensures score(b) <= score(x) {
        if x < y {
          RankStrict(z, x, y);
        }
      }
      SubsetSize(cut, NoLower(score, cut, b));
    } else {
      assert NoLower(score, z, b) == NoLower(score, cut, b);
    }
  }

  predicate AddsOrTrims(c: Command) {
    c.Trimming? || (c.Adding? && c.aggregate)
  }

  lemma {:induction false} AlwaysDeduplicated(
    score: Scoring, origins: Origins, f: Keys, commands: seq<Command>)
    requires Monotone(score) && BoostsOfPosts(origins) && Deduplicated(score, origins, f)
    requires forall c :: c in commands ==> AddsOrTrims(c)
    ensures Deduplicated(score, origins, Run(score, origins, f, commands))
    decreases |commands|
  {
    if commands != [] {
      assert AddsOrTrims(commands[0]);
      match commands[0] {
        case Adding(id, _) => AddKeepsDeduplicated(score, origins, f, id);
        case Trimming => TrimKeepsDeduplicated(score, origins, f);
      }
      AlwaysDeduplicated(score, origins, Step(score, origins, f, commands[0]), commands[1..]);
    }
  }

  /** The post an entry shows. */
  function Underlying(origins: Origins, id: Id): Id {
    if id in origins then origins[id] else id
  }

  lemma NewIsFresh(score: Scoring, z: set<Id>, b: Id)
    requires Exact(score) && b in Newest(z, REBLOG_FALLOFF)
    ensures Fresh(score, z, b)
  {
    forall y: Id | y in NoLower(score, z, b) ensures b <= y {
      assert !(y < b) || score(y) < score(b);
    }
    SubsetSize(NoLower(score, z, b), Above(z, b) + {b});
  }

  /** With exact scores, after any additions and trims, in any order and in
      any batches, no two of the newest 80 entries show the same post. */
  lemma NewestEightyShowDistinctPosts(
    score: Scoring, origins: Origins, commands: seq<Command>, x: Id, y: Id)
    requires Exact(score) && BoostsOfPosts(origins)
    requires forall c :: c in commands ==> AddsOrTrims(c)
    requires x in Newest(Run(score, origins, EMPTY, commands).z, 80)
    requires y in Newest(Run(score, origins, EMPTY, commands).z, 80)
    requires x != y
    ensures Underlying(origins, x) != Underlying(origins, y)
    ensures x in origins ==>
              var f := Run(score, origins, EMPTY, commands);
              origins[x] in f.reblogs && f.reblogs[origins[x]] == score(x)
  {
    AlwaysDeduplicated(score, origins, EMPTY, commands);
    var z := Run(score, origins, EMPTY, commands).z;
    NewIsFresh(score, z, x);
    NewIsFresh(score, z, y);
  }

  // ── Trimming as it goes is trimming at the end ──────────────────────────

  predicate AddsPlainOrTrims(origins: Origins, c: Command) {
    c.Trimming? || (c.Adding? && Aggregated(Boosted(origins, c.id), c.aggregate).None?)
  }

  function Added(commands: seq<Command>): set<Id> {
    set c | c in commands && c.Adding? :: c.id
  }

  lemma AddedCons(commands: seq<Command>)
    requires commands != []
    ensures Added(commands)
         == (if commands[0].Adding? then {commands[0].id} else {}) + Added(commands[1..])
  {
    assert forall c :: c in commands <==> c == commands[0] || c in commands[1..];
  }

  lemma PlainStep(score: Scoring, origins: Origins, f: Keys, c: Command)
    requires f.reblogs == map[] && AddsPlainOrTrims(origins, c)
    ensures Step(score, origins, f, c).reblogs == map[]
    ensures Step(score, origins, f, c).z
         == if c.Adding? then f.z + {c.id} else Newest(f.z, FEED_MAX_ITEMS)
  {
  }

  lemma {:induction false} NewestOfEverAdded(
    score: Scoring, origins: Origins, f: Keys, commands: seq<Command>, n: nat)
    requires n <= FEED_MAX_ITEMS && f.reblogs == map[]
    requires forall c :: c in commands ==> AddsPlainOrTrims(origins, c)
    ensures var after := Run(score, origins, f, commands);
            after.reblogs == map[] && Newest(after.z, n) == Newest(f.z + Added(commands), n)
    decreases |commands|
  {
    if commands == [] {
      assert f.z + Added(commands) == f.z;
    } else {
      var next, rest := Step(score, origins, f, commands[0]), commands[1..];
      PlainStep(score, origins, f, commands[0]);
      AddedCons(commands);
      NewestOfEverAdded(score, origins, next, rest, n);
      if commands[0].Trimming? {
        assert Added(commands) == Added(rest);
        NewestOfUnion(f.z, Added(rest), FEED_MAX_ITEMS, n);
      } else {
        assert next.z + Added(rest) == f.z + Added(commands);
      }
    }
  }

  /** After plain posts pushed in any order and trimmed as often as one likes,
      but at the end, the feed is the newest 800 of all ever pushed. */
  lemma TrimmedRunIsNewestOfAll(
    score: Scoring, origins: Origins, f: Keys, commands: seq<Command>)
    requires f.reblogs == map[]
    requires forall c :: c in commands ==> AddsPlainOrTrims(origins, c)
    ensures Run(score, origins, f, commands + [Trimming]).z
         == Newest(f.z + Added(commands), 800)
  {
    NewestOfEverAdded(score, origins, f, commands, FEED_MAX_ITEMS);
    RunAppend(score, origins, f, commands, [Trimming]);
    RunOne(score, origins, Run(score, origins, f, commands), Trimming);
  }

  // ── Exactly when a boost goes in ────────────────────────────────────────

  /** A lead that outscores the fall-off is fresh. */
  lemma LeadIsFresh(score: Scoring, z: set<Id>, b: Id)
    requires Monotone(score) && b in z
    requires REBLOG_FALLOFF < |z| ==> score(EntryAtRank(z, REBLOG_FALLOFF)) < score(b)
    ensures Fresh(score, z, b)
  {
    if REBLOG_FALLOFF < |z| {
      var falloff := EntryAtRank(z, REBLOG_FALLOFF);
      forall y | y in NoLower(score, z, b) ensures falloff < y {
        assert y <= falloff ==> score(y) <= score(falloff);
      }
      SubsetSize(NoLower(score, z, b), Above(z, falloff));
    } else {
      SubsetSize(NoLower(score, z, b), z);
    }
  }

  lemma TrackedIsFresh(score: Scoring, origins: Origins, before: Keys, post: Id)
    requires Monotone(score) && LeadsPresent(score, origins, before)
    requires post in Trim(score, before).reblogs
    ensures exists b :: Fresh(score, Trim(score, before).z, b) && Boosted(origins, b) == Some(post)
  {
    var f := Trim(score, before);
    TrimKeepsLeads(score, origins, before);
    var b :| IsLead(score, origins, f, post, b);
    LeadIsFresh(score, f.z, b);
  }

  lemma FreshIsNew(score: Scoring, z: set<Id>, b: Id)
    requires Monotone(score) && Fresh(score, z, b)
    ensures b in Newest(z, REBLOG_FALLOFF)
  {
    SubsetSize(Above(z, b) + {b}, NoLower(score, z, b));
  }

  /** A trimmed feed tracks exactly the posts with a fresh boost: with exact
      scores, one among the newest 80. */
  lemma TrackedExactlyWhenNew(
    score: Scoring, origins: Origins, commands: seq<Command>, post: Id)
    requires Monotone(score) && BoostsOfPosts(origins)
    requires forall c :: c in commands ==> AddsOrTrims(c)
    ensures var f := Trim(score, Run(score, origins, EMPTY, commands));
            post in f.reblogs <==> exists b :: Fresh(score, f.z, b) && Boosted(origins, b) == Some(post)
    ensures var f := Trim(score, Run(score, origins, EMPTY, commands));
            Exact(score) ==>
              (post in f.reblogs <==>
                exists b :: b in Newest(f.z, REBLOG_FALLOFF) && Boosted(origins, b) == Some(post))
  {
    var before := Run(score, origins, EMPTY, commands);
    var f := Trim(score, before);
    LeadsAlwaysPresent(score, origins, EMPTY, commands);
    AlwaysDeduplicated(score, origins, EMPTY, commands);
    TrimKeepsDeduplicated(score, origins, before);
    if post in f.reblogs {
      TrackedIsFresh(score, origins, before, post);
      var b :| Fresh(score, f.z, b) && Boosted(origins, b) == Some(post);
      FreshIsNew(score, f.z, b);
    }
    if Exact(score) {
      if b :| b in Newest(f.z, REBLOG_FALLOFF) && Boosted(origins, b) == Some(post) {
        NewIsFresh(score, f.z, b);
      }
    }
  }

  /** What `add_to_feed` promises of a boost: it goes in exactly when its post
      is not among the newest 80 and no boost of it is fresh: with exact scores,
      when none of the newest 80 entries shows its post. */
  lemma BoostGoesInExactlyWhenNotShown(
    score: Scoring, origins: Origins, commands: seq<Command>, id: Id)
    requires Monotone(score) && BoostsOfPosts(origins) && id in origins
    requires forall c :: c in commands ==> AddsOrTrims(c)
    ensures var f := Trim(score, Run(score, origins, EMPTY, commands));
            Add(score, f, id, Boosted(origins, id), true).yes <==>
              && origins[id] !in Newest(f.z, 80)
              && !exists b :: Fresh(score, f.z, b) && Boosted(origins, b) == Some(origins[id])
    ensures var f := Trim(score, Run(score, origins, EMPTY, commands));
            Exact(score) ==>
              (Add(score, f, id, Boosted(origins, id), true).yes <==>
                forall x :: x in Newest(f.z, 80) ==> Underlying(origins, x) != origins[id])
  {
    var f := Trim(score, Run(score, origins, EMPTY, commands));
    var post := origins[id];
    TrackedExactlyWhenNew(score, origins, commands, post);
    assert RankedNew(f.z, post) <==> post in Newest(f.z, REBLOG_FALLOFF);
    if Exact(score) {
      ShownByPostOrBoost(origins, f.z, post);
    }
  }

  /** A post is shown by itself or by a boost of it. */
  lemma ShownByPostOrBoost(origins: Origins, z: set<Id>, post: Id)
    requires post !in origins
    ensures (exists x :: x in Newest(z, REBLOG_FALLOFF) && Underlying(origins, x) == post)
       <==> post in Newest(z, REBLOG_FALLOFF)
            || exists b :: b in Newest(z, REBLOG_FALLOFF) && Boosted(origins, b) == Some(post)
  {
    if post in Newest(z, REBLOG_FALLOFF) {
      assert Underlying(origins, post) == post;
    }
    if b :| b in Newest(z, REBLOG_FALLOFF) && Boosted(origins, b) == Some(post) {
      assert Underlying(origins, b) == post;
    }
  }

  // ── Draining the boosts of a post ───────────────────────────────────────

  /** A removal answers what `home_holds` would have, and one that answers yes
      leaves the status in none of the keys; with exact scores, no post is
      tracked by it either. */
  lemma RemovalForgets(score: Scoring, origins: Origins, f: Keys, id: Id)
    requires LeadsPresent(score, origins, f)
    ensures var a := Remove(score, f, id, Boosted(origins, id), true);
            && LeadsPresent(score, origins, a.feed)
            && (a.yes <==> id in f.z)
            && id !in a.feed.z
            && (a.yes ==> forall p :: id !in a.feed.Held(p))
            && (a.yes && Exact(score) ==>
                  forall p :: p in a.feed.reblogs ==> a.feed.reblogs[p] != score(id))
  {
    var a := Remove(score, f, id, Boosted(origins, id), true);
    RemoveKeepsLeads(score, origins, f, id);
    if a.yes {
      forall p ensures id !in a.feed.Held(p) {
        assert p in f.held && id in f.held[p] ==> Boosted(origins, id) == Some(p);
      }
    }
    if a.yes && Exact(score) {
      forall p | p in a.feed.reblogs ensures a.feed.reblogs[p] != score(id) {
        var b: Id :| IsLead(score, origins, a.feed, p, b);
        assert b < id || id < b;
      }
    }
  }

  function Removals(order: seq<Id>): seq<Command> {
    if order == [] then []
    else Removals(order[..|order| - 1]) + [Removing(order[|order| - 1], true)]
  }

  /** `order` is a lead, then the boosts held back behind it, oldest first. */
  ghost predicate DrainOrder(origins: Origins, f: Keys, post: Id, order: seq<Id>) {
    && order != [] && order[0] in f.z
    && (forall x :: x in order ==> Boosted(origins, x) == Some(post))
    && Elements(order[1..]) == f.Held(post) - {order[0]}
    && forall i, j :: 1 <= i < j < |order| ==> order[i] < order[j]
  }

  /** The feed once the first `k` of `order` are gone: the next is in the feed
      and stands for the post, the ones after it are held back, and nothing
      else has moved. As in the source, the promoted boost stays in the
      held-back set until it is removed itself. */
  function Drained(score: Scoring, f: Keys, post: Id, order: seq<Id>, k: nat): Keys
    requires 1 <= k <= |order|
  {
    Keys(f.z - Elements(order[..k]) + (if k < |order| then {order[k]} else {}),
         if k < |order| then f.reblogs[post := score(order[k])] else f.reblogs - {post},
         Put(f.held, post, Elements(order[k..])))
  }

  ghost predicate IsOldest(x: Id, z: set<Id>) {
    z != {} && Oldest(z) == x
  }

  lemma OldestIsFirst(s: seq<Id>)
    requires s != [] && forall i, j :: 0 <= i < j < |s| ==> s[i] < s[j]
    ensures IsOldest(s[0], Elements(s))
  {
    assert s[0] in Elements(s);
    assert Oldest(Elements(s)) in s;
  }

  lemma DrainTail(origins: Origins, f: Keys, post: Id, order: seq<Id>, k: nat)
    requires DrainOrder(origins, f, post, order) && 1 <= k < |order|
    ensures Elements(order[k..]) - {order[k]} == Elements(order[k + 1..])
    ensures k + 1 < |order| ==> IsOldest(order[k + 1], Elements(order[k + 1..]))
    ensures order[k] != order[0]
  {
    assert order[k..] == [order[k]] + order[k + 1..];
    assert order[k] in order[1..];
    if k + 1 < |order| {
      OldestIsFirst(order[k + 1..]);
    }
  }

  lemma PutTwice(held: map<Id, set<Id>>, post: Id, a: set<Id>, b: set<Id>)
    ensures Put(Put(held, post, a), post, b) == Put(held, post, b)
  {
  }

  lemma DrainedEntries(
    score: Scoring, origins: Origins, f: Keys, post: Id, order: seq<Id>, k: nat)
    requires DrainOrder(origins, f, post, order) && 1 <= k < |order|
    ensures Drained(score, f, post, order, k + 1).z
         == Drained(score, f, post, order, k).z
            + (if k + 1 < |order| then {order[k + 1]} else {}) - {order[k]}
  {
    assert order[..k + 1] == order[..k] + [order[k]];
    if k + 1 < |order| {
      assert order[k] < order[k + 1];
    }
  }

  lemma RemovesTo(score: Scoring, f: Keys, id: Id, post: Id, rest: set<Id>, next: Keys)
    requires id in f.z && f.Held(post) - {id} == rest && next.held == Put(f.held, post, rest)
    requires rest == {} ==> next.z == f.z - {id} && next.reblogs == f.reblogs - {post}
    requires rest != {} ==>
      next.z == f.z + {Oldest(rest)} - {id} && next.reblogs == f.reblogs[post := score(Oldest(rest))]
    ensures Remove(score, f, id, Some(post), true).feed == next
  {
  }

  lemma DrainStep(
    score: Scoring, origins: Origins, f: Keys, post: Id, order: seq<Id>, k: nat)
    requires DrainOrder(origins, f, post, order) && 1 <= k < |order|
    ensures Step(score, origins, Drained(score, f, post, order, k), Removing(order[k], true))
         == Drained(score, f, post, order, k + 1)
  {
    var now := Drained(score, f, post, order, k);
    var waiting, rest := Elements(order[k..]), Elements(order[k + 1..]);
    DrainTail(origins, f, post, order, k);
    DrainedEntries(score, origins, f, post, order, k);
    assert order[k] in order[k..];
    assert now.Held(post) - {order[k]} == rest;
    assert Boosted(origins, order[k]) == Some(post) && order[k] in now.z;
    PutTwice(f.held, post, waiting, rest);
    if k + 1 < |order| {
      assert order[k + 1] in order[k + 1..];
    } else {
      assert rest == {};
      assert now.reblogs - {post} == f.reblogs - {post};
    }
    RemovesTo(score, now, order[k], post, rest, Drained(score, f, post, order, k + 1));
  }

  lemma DrainStart(score: Scoring, origins: Origins, f: Keys, post: Id, order: seq<Id>)
    requires DrainOrder(origins, f, post, order)
    ensures Step(score, origins, f, Removing(order[0], true)) == Drained(score, f, post, order, 1)
  {
    var after, next := Step(score, origins, f, Removing(order[0], true)), Drained(score, f, post, order, 1);
    assert order[..1] == [order[0]];
    assert Boosted(origins, order[0]) == Some(post);
    if 1 < |order| {
      OldestIsFirst(order[1..]);
    }
    assert after.z == next.z;
  }

  lemma RemovalsStep(score: Scoring, origins: Origins, f: Keys, order: seq<Id>)
    requires order != []
    ensures var n := |order| - 1;
            Run(score, origins, f, Removals(order))
              == Step(score, origins, Run(score, origins, f, Removals(order[..n])), Removing(order[n], true))
  {
    var n := |order| - 1;
    RunAppend(score, origins, f, Removals(order[..n]), [Removing(order[n], true)]);
    RunOne(score, origins, Run(score, origins, f, Removals(order[..n])), Removing(order[n], true));
  }

  /** Removing the boost a post is shown by, then each boost promoted in its
      place, brings up the held-back boosts oldest first, each once. */
  lemma {:induction false} DrainingPromotesInOrder(
    score: Scoring, origins: Origins, f: Keys, post: Id, order: seq<Id>, k: nat)
    requires DrainOrder(origins, f, post, order) && 1 <= k <= |order|
    ensures Run(score, origins, f, Removals(order[..k])) == Drained(score, f, post, order, k)
    ensures order[k - 1] in Run(score, origins, f, Removals(order[..k - 1])).z
    decreases k
  {
    RemovalsStep(score, origins, f, order[..k]);
    assert order[..k][..k - 1] == order[..k - 1];
    if k == 1 {
      DrainStart(score, origins, f, post, order);
    } else {
      DrainingPromotesInOrder(score, origins, f, post, order, k - 1);
      DrainStep(score, origins, f, post, order, k - 1);
    }
  }

  /** Every tracked post can be drained so. */
  lemma TrackedPostsDrain(score: Scoring, origins: Origins, f: Keys, post: Id)
    requires LeadsPresent(score, origins, f) && post in f.reblogs
    ensures exists order :: DrainOrder(origins, f, post, order) && IsLead(score, origins, f, post, order[0])
  {
    var lead :| IsLead(score, origins, f, post, lead);
    var rest := Listing(f.Held(post) - {lead}, false);
    var order := [lead] + rest;
    forall x | x in order ensures Boosted(origins, x) == Some(post) {
      assert x == lead || x in Elements(rest);
    }
    assert order[1..] == rest;
    assert DrainOrder(origins, f, post, order);
  }

  /** And once they are all gone the post is untracked, nothing is held back
      for it, and the rest of the feed is as it was. */
  lemma DrainingLeavesNothing(
    score: Scoring, origins: Origins, f: Keys, post: Id, order: seq<Id>)
    requires DrainOrder(origins, f, post, order)
    ensures Run(score, origins, f, Removals(order))
         == Keys(f.z - Elements(order), f.reblogs - {post}, f.held - {post})
  {
    DrainingPromotesInOrder(score, origins, f, post, order, |order|);
    assert order[..|order|] == order && order[|order|..] == [];
  }
}
