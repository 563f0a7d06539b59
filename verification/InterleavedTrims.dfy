/** Trims among the commands of workers adding boosts of one post: when the
    held-back boosts of a post can be left where clearing the feed does not
    find them. */
module InterleavedTrims {
  import opened Basics
  import opened SortedSets
  import opened Feed
  import opened Interleaving

  /** How far one call of `trim` has got: about to send `ZREMRANGEBYRANK`,
      `ZREVRANGEBYSCORE`, `ZRANGEBYSCORE` up to a score, then for each stale post
      `ZREM` and `DEL`. */
  datatype Trimmer =
    | Cutting
    | Finding
    | Scanning(falloff: int)
    | Dropping(stale: set<Id>)
    | Deleting(post: Id, stale: set<Id>)
    | Rested

  datatype Mixed = Mixed(race: Interleaving.State, trims: map<Id, Trimmer>) {
    function Feed(): Keys {
      race.feed
    }
  }

  /** The next command of one trim; which stale post it takes next is `choice`. */
  function Trims(score: Scoring, f: Keys, trimmer: Trimmer, choice: Id): (Keys, Trimmer) {
    match trimmer
    case Cutting => (f.(z := Newest(f.z, FEED_MAX_ITEMS)), Finding)
    case Finding =>
      if |f.z| <= REBLOG_FALLOFF then (f, Rested)
      else (f, Scanning(score(EntryAtRank(f.z, REBLOG_FALLOFF))))
    case Scanning(falloff) =>
      (f, Dropping(set p | p in f.reblogs && 0 <= f.reblogs[p] <= falloff))
    case Dropping(stale) =>
      if stale == {} then (f, Rested)
      else if choice !in stale then (f, trimmer)
      else (f.(reblogs := f.reblogs - {choice}), Deleting(choice, stale - {choice}))
    case Deleting(post, stale) => (f.(held := f.held - {post}), Dropping(stale))
    case Rested => (f, Rested)
  }

  datatype Command =
    | OfCall(id: Id)
    | OfTrim(worker: Id, choice: Id)

  function Next(score: Scoring, post: Id, s: Mixed, c: Command): Mixed {
    match c
    case OfCall(id) => s.(race := Advance(score, post, s.race, id))
    case OfTrim(worker, choice) =>
      if worker !in s.trims then s
      else
        var (f, trimmer) := Trims(score, s.Feed(), s.trims[worker], choice);
        Mixed(s.race.(feed := f), s.trims[worker := trimmer])
  }

  /** The commands in the order Redis runs them. */
  function Mix(score: Scoring, post: Id, s: Mixed, schedule: seq<Command>): Mixed
    decreases |schedule|
  {
    if schedule == [] then s
    else Mix(score, post, Next(score, post, s, schedule[0]), schedule[1..])
  }

  function Start(f: Keys, boosts: set<Id>, workers: set<Id>): Mixed {
    Mixed(Begin(f, boosts), map w | w in workers :: Cutting)
  }

  predicate Finished(s: Mixed) {
    Quiescent(s.race) && forall w :: w in s.trims ==> s.trims[w].Rested?
  }

  // ── A trim left to itself ───────────────────────────────────────────────

  /** Where a trim that began on `f` may have got to. */
  ghost predicate Underway(score: Scoring, f: Keys, now: Keys, trimmer: Trimmer) {
    var z := Newest(f.z, FEED_MAX_ITEMS);
    var stale := Stale(score, z, f.reblogs);
    match trimmer
    case Cutting => now == f
    case Finding => now == f.(z := z)
    case Scanning(falloff) =>
      now == f.(z := z) && REBLOG_FALLOFF < |z| && falloff == score(EntryAtRank(z, REBLOG_FALLOFF))
    case Dropping(left) =>
      left <= stale && now == Keys(z, f.reblogs - (stale - left), f.held - (stale - left))
    case Deleting(post, left) =>
      && left <= stale && post in stale - left
      && now == Keys(z, f.reblogs - (stale - left), f.held - (stale - left - {post}))
    case Rested => now == Trim(score, f)
  }

  lemma TrimsToTrim(score: Scoring, f: Keys, now: Keys, trimmer: Trimmer, choice: Id)
    requires Underway(score, f, now, trimmer)
    ensures var (next, trimmer') := Trims(score, now, trimmer, choice);
            Underway(score, f, next, trimmer')
  {
    var stale := Stale(score, Newest(f.z, FEED_MAX_ITEMS), f.reblogs);
    match trimmer
    case Dropping(left) =>
      assert choice in left ==> stale - (left - {choice}) == (stale - left) + {choice};
      assert choice in left ==> stale - (left - {choice}) - {choice} == stale - left;
    case Deleting(post, left) =>
      assert stale - left == (stale - left - {post}) + {post};
    case _ =>
  }

  function TrimsAlone(score: Scoring, f: Keys, trimmer: Trimmer, choices: seq<Id>): (Keys, Trimmer)
    decreases |choices|
  {
    if choices == [] then (f, trimmer)
    else
      var (next, trimmer') := Trims(score, f, trimmer, choices[0]);
      TrimsAlone(score, next, trimmer', choices[1..])
  }

  lemma {:induction false} TrimsStayUnderway(
    score: Scoring, f: Keys, now: Keys, trimmer: Trimmer, choices: seq<Id>)
    requires Underway(score, f, now, trimmer)
    ensures var (next, trimmer') := TrimsAlone(score, now, trimmer, choices);
            Underway(score, f, next, trimmer')
    decreases |choices|
  {
    if choices != [] {
      TrimsToTrim(score, f, now, trimmer, choices[0]);
      var (next, trimmer') := Trims(score, now, trimmer, choices[0]);
      TrimsStayUnderway(score, f, next, trimmer', choices[1..]);
    }
  }

  /** Left to itself, a trim that ends has come to `Trim`, whichever order its
      loop took. */
  lemma TrimAloneIsTrim(score: Scoring, f: Keys, choices: seq<Id>)
    requires TrimsAlone(score, f, Cutting, choices).1.Rested?
    ensures TrimsAlone(score, f, Cutting, choices).0 == Trim(score, f)
  {
    TrimsStayUnderway(score, f, f, Cutting, choices);
  }

  // ── When nothing is left behind ─────────────────────────────────────────

  predicate Drops(trimmer: Trimmer, post: Id) {
    trimmer.Deleting? && trimmer.post == post
  }

  /** Every held-back set is of a tracked post, or about to be deleted. */
  ghost predicate HeldAreFound(s: Mixed) {
    forall p :: p in s.Feed().held ==>
      && s.Feed().held[p] != {}
      && (p in s.Feed().reblogs || exists w :: w in s.trims && Drops(s.trims[w], p))
  }

  /** A call that found the post tracked, and is yet to hold its boost back,
      still has it tracked. */
  ghost predicate BeatenAreTracked(post: Id, s: Mixed) {
    forall b :: b in s.race.calls && s.race.calls[b].Beaten? ==> post in s.Feed().reblogs
  }

  /** A trim untracks the post between a call's `ZADD NX` and its `SADD`. */
  ghost predicate Undercuts(post: Id, s: Mixed, c: Command) {
    && c.OfTrim? && c.worker in s.trims && c.choice == post
    && s.trims[c.worker].Dropping? && post in s.trims[c.worker].stale
    && exists b :: b in s.race.calls && s.race.calls[b].Beaten?
  }

  ghost predicate NoneUndercuts(score: Scoring, post: Id, s: Mixed, schedule: seq<Command>)
    decreases |schedule|
  {
    schedule != [] ==>
      && !Undercuts(post, s, schedule[0])
      && NoneUndercuts(score, post, Next(score, post, s, schedule[0]), schedule[1..])
  }

  lemma CallKeepsFound(score: Scoring, post: Id, s: Mixed, id: Id)
    requires HeldAreFound(s) && BeatenAreTracked(post, s)
    ensures HeldAreFound(Next(score, post, s, OfCall(id)))
    ensures BeatenAreTracked(post, Next(score, post, s, OfCall(id)))
  {
    var t := Next(score, post, s, OfCall(id));
    assert t.trims == s.trims;
    forall p | p in t.Feed().held
      ensures t.Feed().held[p] != {}
      ensures p in t.Feed().reblogs || exists w :: w in t.trims && Drops(t.trims[w], p)
    {
      assert p in s.Feed().held || p == post;
      if p in s.Feed().held && p !in s.Feed().reblogs {
        var w :| w in s.trims && Drops(s.trims[w], p);
        assert w in t.trims && Drops(t.trims[w], p);
      }
    }
  }

  lemma TrimKeepsFound(score: Scoring, post: Id, s: Mixed, worker: Id, choice: Id)
    requires HeldAreFound(s) && BeatenAreTracked(post, s)
    requires !Undercuts(post, s, OfTrim(worker, choice))
    ensures HeldAreFound(Next(score, post, s, OfTrim(worker, choice)))
    ensures BeatenAreTracked(post, Next(score, post, s, OfTrim(worker, choice)))
  {
    var t := Next(score, post, s, OfTrim(worker, choice));
    forall p | p in t.Feed().held
      ensures t.Feed().held[p] != {}
      ensures p in t.Feed().reblogs || exists w :: w in t.trims && Drops(t.trims[w], p)
    {
      assert p in s.Feed().held && t.Feed().held[p] == s.Feed().held[p];
      if p !in t.Feed().reblogs {
        if p in s.Feed().reblogs {
          assert worker in t.trims && Drops(t.trims[worker], p);
        } else {
          var w :| w in s.trims && Drops(s.trims[w], p);
          assert w in t.trims && Drops(t.trims[w], p);
        }
      }
    }
  }

  lemma {:induction false} MixKeepsFound(score: Scoring, post: Id, s: Mixed, schedule: seq<Command>)
    requires HeldAreFound(s) && BeatenAreTracked(post, s) && NoneUndercuts(score, post, s, schedule)
    ensures HeldAreFound(Mix(score, post, s, schedule))
    decreases |schedule|
  {
    if schedule != [] {
      match schedule[0] {
        case OfCall(id) => CallKeepsFound(score, post, s, id);
        case OfTrim(worker, choice) => TrimKeepsFound(score, post, s, worker, choice);
      }
      MixKeepsFound(score, post, Next(score, post, s, schedule[0]), schedule[1..]);
    }
  }

  /** Any number of additions and trims, their commands in any order in which no
      trim untracks the post between a call's `ZADD NX` and its `SADD`: once all
      are done, clearing the feed leaves no key. */
  lemma NoneUndercutNoneLeft(
    score: Scoring, post: Id, f: Keys, boosts: set<Id>, workers: set<Id>, schedule: seq<Command>)
    requires HeldAreTracked(f)
    requires NoneUndercuts(score, post, Start(f, boosts, workers), schedule)
    requires Finished(Mix(score, post, Start(f, boosts, workers), schedule))
    ensures HeldAreTracked(Mix(score, post, Start(f, boosts, workers), schedule).Feed())
    ensures Clean(Mix(score, post, Start(f, boosts, workers), schedule).Feed()) == EMPTY
  {
    MixKeepsFound(score, post, Start(f, boosts, workers), schedule);
    var g := Mix(score, post, Start(f, boosts, workers), schedule).Feed();
    assert g.held.Keys <= g.reblogs.Keys;
    assert g.held - g.reblogs.Keys == map[];
  }

  // ── When something is ───────────────────────────────────────────────────

  /** Boosts held back for a post that nothing tracks, which clearing the feed
      does not delete. */
  predicate Left(post: Id, f: Keys) {
    post in f.held && post !in f.reblogs && post in Clean(f).held
  }

  /** Wherever a trim does so, the trim's `DEL` and then the call's `SADD` leave
      the boost behind. */
  lemma UndercutIsLeft(score: Scoring, post: Id, s: Mixed, worker: Id, id: Id)
    requires Undercuts(post, s, OfTrim(worker, post))
    requires id in s.race.calls && s.race.calls[id].Beaten?
    ensures Left(post, Mix(score, post, s, [OfTrim(worker, post), OfTrim(worker, post), OfCall(id)]).Feed())
  {
    var trim, call := OfTrim(worker, post), OfCall(id);
    var s1 := Next(score, post, s, trim);
    var s2 := Next(score, post, s1, trim);
    MixOfThree(score, post, s, trim, trim, call);
    assert s1.race.calls == s.race.calls && Drops(s1.trims[worker], post);
    assert s2.race.calls == s.race.calls && post !in s2.Feed().reblogs;
    assert Next(score, post, s2, call).Feed().held[post] == s2.Feed().Held(post) + {id};
  }

  /** And it comes about in any feed of more than 80 whose tracked post is stale
      and not among the newest: one more boost of it, added as the feed is
      trimmed. */
  lemma StaleCanBeLeft(score: Scoring, post: Id, f: Keys, id: Id, worker: Id)
    requires !RankedNew(f.z, post) && post in Stale(score, Newest(f.z, FEED_MAX_ITEMS), f.reblogs)
    ensures var cut, call := OfTrim(worker, post), OfCall(id);
            Left(post, Mix(score, post, Start(f, {id}, {worker}),
                           [call, call] + [cut, cut, cut] + [cut, cut, call]).Feed())
  {
    var cut, call := OfTrim(worker, post), OfCall(id);
    var s0 := Start(f, {id}, {worker});
    var s2 := Next(score, post, Next(score, post, s0, call), call);
    var s5 := Next(score, post, Next(score, post, Next(score, post, s2, cut), cut), cut);
    MixOfTwo(score, post, s0, call, call);
    MixOfThree(score, post, s2, cut, cut, cut);
    MixAppend(score, post, s0, [call, call], [cut, cut, cut]);
    MixAppend(score, post, s0, [call, call] + [cut, cut, cut], [cut, cut, call]);
    assert s2.race.calls[id] == Beaten && s2.Feed() == f;
    assert s5.race.calls == s2.race.calls && s5.trims[worker].Dropping? && post in s5.trims[worker].stale;
    UndercutIsLeft(score, post, s5, worker, id);
  }

  lemma MixOfTwo(score: Scoring, post: Id, s: Mixed, a: Command, b: Command)
    ensures Mix(score, post, s, [a, b]) == Next(score, post, Next(score, post, s, a), b)
  {
    MixCons(score, post, s, a, [b]);
    MixCons(score, post, Next(score, post, s, a), b, []);
    assert [a, b] == [a] + [b] && [b] == [b] + [];
  }

  lemma MixOfThree(score: Scoring, post: Id, s: Mixed, a: Command, b: Command, c: Command)
    ensures Mix(score, post, s, [a, b, c])
         == Next(score, post, Next(score, post, Next(score, post, s, a), b), c)
  {
    MixCons(score, post, s, a, [b, c]);
    MixOfTwo(score, post, Next(score, post, s, a), b, c);
    assert [a, b, c] == [a] + [b, c];
  }

  lemma MixCons(score: Scoring, post: Id, s: Mixed, c: Command, rest: seq<Command>)
    ensures Mix(score, post, s, [c] + rest) == Mix(score, post, Next(score, post, s, c), rest)
  {
    assert ([c] + rest)[1..] == rest;
  }

  lemma {:induction false} MixAppend(score: Scoring, post: Id, s: Mixed, a: seq<Command>, b: seq<Command>)
    ensures Mix(score, post, s, a + b) == Mix(score, post, Mix(score, post, s, a), b)
    decreases |a|
  {
    if a == [] {
      assert a + b == b;
    } else {
      assert (a + b)[1..] == a[1..] + b;
      MixAppend(score, post, Next(score, post, s, a[0]), a[1..], b);
    }
  }
}
