/** Filling a feed from the accounts it follows, as `populate_from` does it:
    once 400 entries are in, accounts with nothing recent are skipped and the
    rest are read only from the feed's oldest entry up. What that loses, against
    reading every account in full, is stated exactly. */
module Population {
  import opened Basics
  import opened SortedSets
  import opened Feed

  /** `FEED_MAX_ITEMS / 2`: how much of an account is read. */
  const POPULATE_LIMIT: nat := FEED_MAX_ITEMS / 2

  // ── Snowflake ids ───────────────────────────────────────────────────────

  /** `next_id`: milliseconds above sixteen random bits. */
  function NextId(milliseconds: nat, random: nat): Id
    requires random < 0x1_0000
  {
    milliseconds * 0x1_0000 + random
  }

  /** `id_at` of a time in seconds, which a remote server may put before 1970; a
      missing time is nought. */
  function IdAt(second: Option<int>): (r: int)
    ensures second.Some? && 0 <= second.value ==> 0 <= r
  {
    match second
    case None => 0
    case Some(s) => s * 1000 * 0x1_0000
  }

  /** The second an id was made in. */
  function SecondOf(id: Id): nat {
    id / 0x1_0000 / 1000
  }

  /** The ids made in a second are those from its `id_at` up to the next's. */
  lemma IdsOfASecond(id: Id, second: nat)
    ensures SecondOf(id) == second <==> IdAt(Some(second)) <= id < IdAt(Some(second + 1))
  {
  }

  lemma NextIdIsDated(milliseconds: nat, random: nat)
    requires random < 0x1_0000
    ensures SecondOf(NextId(milliseconds, random)) == milliseconds / 1000
  {
    assert NextId(milliseconds, random) / 0x1_0000 == milliseconds;
  }

  // ── The loop ────────────────────────────────────────────────────────────

  /** A followed account: what `eligible_statuses` may read of it, and the
      second of its `last_status_at`. */
  datatype Target = Target(statuses: set<Id>, lastStatus: Option<int>)

  function Past(statuses: set<Id>, after: Option<int>): set<Id> {
    set x | x in statuses && (after.None? || after.value < x)
  }

  /** `eligible_statuses`: the newest `limit` with an id past `after`. */
  function Eligible(statuses: set<Id>, after: Option<int>, limit: nat): set<Id> {
    Newest(Past(statuses, after), limit)
  }

  function Letting(lets: Id -> bool, statuses: set<Id>): set<Id> {
    set x | x in statuses && lets(x)
  }

  function Adds(ids: seq<Id>, aggregate: bool): seq<Command> {
    seq(|ids|, i requires 0 <= i < |ids| => Adding(ids[i], aggregate))
  }

  /** `add_all`. */
  function AddAll(score: Scoring, origins: Origins, f: Keys, ids: seq<Id>, aggregate: bool): Keys {
    Trim(score, Run(score, origins, f, Adds(ids, aggregate)))
  }

  lemma AddAllIsARun(score: Scoring, origins: Origins, f: Keys, ids: seq<Id>, aggregate: bool)
    ensures AddAll(score, origins, f, ids, aggregate)
         == Run(score, origins, f, Adds(ids, aggregate) + [Trimming])
  {
    var adds := Adds(ids, aggregate);
    RunAppend(score, origins, f, adds, [Trimming]);
    RunOne(score, origins, Run(score, origins, f, adds), Trimming);
  }

  /** What a pass needs that it never changes: the receiver's filter, the
      `reblog_of_id` column, and whether the receiver aggregates boosts. */
  datatype Receiver = Receiver(origins: Origins, lets: Id -> bool, aggregate: bool) {
    /** `unfiltered`, newest first. */
    function Unfiltered(statuses: set<Id>): seq<Id> {
      Listing(Letting(lets, statuses), true)
    }
  }

  datatype Progress = Progress(feed: Keys, overLimit: bool)

  predicate OverLimit(p: Progress) {
    p.overLimit || POPULATE_LIMIT <= |p.feed.z|
  }

  /** What `populate_from` reads of one account: nothing, if it is skipped. */
  function ReadOf(score: Scoring, p: Progress, t: Target): set<Id> {
    if OverLimit(p) && p.feed.z != {} then
      var oldest := score(Oldest(p.feed.z));
      if IdAt(t.lastStatus) < oldest then {}
      else Eligible(t.statuses, Some(oldest - 1), POPULATE_LIMIT)
    else
      Eligible(t.statuses, None, POPULATE_LIMIT)
  }

  /** One account of `populate_from`. */
  function PopulateOne(score: Scoring, r: Receiver, p: Progress, t: Target): Progress {
    Progress(AddRead(score, r, p.feed, ReadOf(score, p, t)), OverLimit(p))
  }

  function AddRead(score: Scoring, r: Receiver, f: Keys, read: set<Id>): Keys {
    if read == {} then f
    else AddAll(score, r.origins, f, r.Unfiltered(read), r.aggregate)
  }

  /** `populate_from`. */
  function Populate(score: Scoring, r: Receiver, p: Progress, targets: seq<Target>): Progress
    decreases |targets|
  {
    if targets == [] then p
    else Populate(score, r, PopulateOne(score, r, p, targets[0]), targets[1..])
  }

  predicate AddsFor(r: Receiver, commands: seq<Command>) {
    forall c :: c in commands ==> c.Trimming? || (c.Adding? && c.aggregate == r.aggregate)
  }

  /** Populating is a run of additions and trims, so what every run keeps, it
      keeps. */
  lemma {:induction false} PopulatingIsARun(score: Scoring, r: Receiver, p: Progress, targets: seq<Target>)
    ensures exists commands :: AddsFor(r, commands)
              && Populate(score, r, p, targets).feed == Run(score, r.origins, p.feed, commands)
    decreases |targets|
  {
    if targets == [] {
      assert Run(score, r.origins, p.feed, []) == p.feed;
    } else {
      var next := PopulateOne(score, r, p, targets[0]);
      PopulatingIsARun(score, r, next, targets[1..]);
      var rest :| AddsFor(r, rest)
        && Populate(score, r, next, targets[1..]).feed == Run(score, r.origins, next.feed, rest);
      var first := OneIsARun(score, r, p, targets[0]);
      RunAppend(score, r.origins, p.feed, first, rest);
      assert AddsFor(r, first + rest);
      assert Populate(score, r, p, targets).feed == Run(score, r.origins, p.feed, first + rest);
    }
  }

  lemma OneIsARun(score: Scoring, r: Receiver, p: Progress, t: Target) returns (commands: seq<Command>)
    ensures AddsFor(r, commands)
    ensures PopulateOne(score, r, p, t).feed == Run(score, r.origins, p.feed, commands)
  {
    var read := ReadOf(score, p, t);
    var ids := r.Unfiltered(read);
    if read == {} {
      commands := [];
    } else {
      commands := Adds(ids, r.aggregate) + [Trimming];
      AddAllIsARun(score, r.origins, p.feed, ids, r.aggregate);
    }
  }

  // ── Newest first ────────────────────────────────────────────────────────

  lemma AddsAppend(a: seq<Id>, b: seq<Id>, aggregate: bool)
    ensures Adds(a + b, aggregate) == Adds(a, aggregate) + Adds(b, aggregate)
  {
  }

  lemma AddsFirst(ids: seq<Id>, aggregate: bool)
    requires ids != []
    ensures Adds(ids, aggregate)[0] == Adding(ids[0], aggregate)
    ensures Adds(ids, aggregate)[1..] == Adds(ids[1..], aggregate)
  {
  }

  /** Adding what is neither a post nor a boost of it does not show or track it. */
  lemma {:induction false} OthersDoNotShow(
    score: Scoring, origins: Origins, f: Keys, ids: seq<Id>, aggregate: bool, post: Id)
    requires post !in f.z && post !in f.reblogs
    requires forall x :: x in ids ==> x != post && Boosted(origins, x) != Some(post)
    ensures var g := Run(score, origins, f, Adds(ids, aggregate));
            post !in g.z && post !in g.reblogs
    decreases |ids|
  {
    if ids != [] {
      AddsFirst(ids, aggregate);
      assert ids[0] in ids && forall x :: x in ids[1..] ==> x in ids;
      OthersDoNotShow(score, origins, Step(score, origins, f, Adding(ids[0], aggregate)), ids[1..], aggregate, post);
    }
  }

  /** While a post is tracked additions keep it so, and the post out. */
  lemma {:induction false} TrackedStaysOut(
    score: Scoring, origins: Origins, f: Keys, ids: seq<Id>, aggregate: bool, post: Id)
    requires post !in f.z && post in f.reblogs && Boosted(origins, post).None?
    ensures var g := Run(score, origins, f, Adds(ids, aggregate));
            && post !in g.z && post in g.reblogs && g.reblogs[post] == f.reblogs[post] && f.z <= g.z
    decreases |ids|
  {
    if ids != [] {
      AddsFirst(ids, aggregate);
      TrackedStaysOut(score, origins, Step(score, origins, f, Adding(ids[0], aggregate)), ids[1..], aggregate, post);
    }
  }

  /** The boosts of a post before the post itself, since the newest go first: of
      an account that offers both, the newest boost goes in, is the post's lead,
      and keeps the post out, whatever the trim then cuts. */
  lemma BoostsGoBeforeTheirPost(score: Scoring, r: Receiver, f: Keys, read: set<Id>, post: Id, boost: Id)
    requires r.aggregate && Boosted(r.origins, post).None? && Boosted(r.origins, boost) == Some(post)
    requires post !in f.z && post !in f.reblogs && post < boost
    requires boost in Letting(r.lets, read)
    requires forall x :: x in Letting(r.lets, read) && Boosted(r.origins, x) == Some(post) ==> x <= boost
    ensures var g := Run(score, r.origins, f, Adds(r.Unfiltered(read), r.aggregate));
            && boost in g.z && post !in g.z && post in g.reblogs && g.reblogs[post] == score(boost)
    ensures post !in AddRead(score, r, f, read).z
  {
    var ids := r.Unfiltered(read);
    assert boost in Elements(ids);
    var k :| 0 <= k < |ids| && ids[k] == boost;
    var before, after := ids[..k], ids[k + 1..];
    assert ids == before + ([boost] + after);
    forall x | x in before ensures x != post && Boosted(r.origins, x) != Some(post) {
      var i :| 0 <= i < k && ids[i] == x;
      assert boost < x && x in Elements(ids);
    }
    BoostGoesInFirst(score, r.origins, f, before, boost, after, post);
  }

  lemma BoostGoesInFirst(
    score: Scoring, origins: Origins, f: Keys, before: seq<Id>, boost: Id, after: seq<Id>, post: Id)
    requires Boosted(origins, post).None? && Boosted(origins, boost) == Some(post)
    requires post !in f.z && post !in f.reblogs
    requires forall x :: x in before ==> x != post && Boosted(origins, x) != Some(post)
    ensures var g := Run(score, origins, f, Adds(before + ([boost] + after), true));
            && boost in g.z && post !in g.z && post in g.reblogs && g.reblogs[post] == score(boost)
  {
    AddsAppend(before, [boost] + after, true);
    RunAppend(score, origins, f, Adds(before, true), Adds([boost] + after, true));
    OthersDoNotShow(score, origins, f, before, true, post);
    var mid := Run(score, origins, f, Adds(before, true));
    AddsFirst([boost] + after, true);
    assert ([boost] + after)[1..] == after;
    TrackedStaysOut(score, origins, Step(score, origins, mid, Adding(boost, true)), after, true, post);
  }

  // ── Against reading everything ──────────────────────────────────────────

  /** The same, reading the newest 400 of every account. */
  function PopulateNaively(score: Scoring, r: Receiver, f: Keys, targets: seq<Target>): Keys
    decreases |targets|
  {
    if targets == [] then f
    else
      var read := Eligible(targets[0].statuses, None, POPULATE_LIMIT);
      PopulateNaively(score, r, AddRead(score, r, f, read), targets[1..])
  }

  /** What reading an account in full would offer the feed. */
  function Offered(r: Receiver, t: Target): set<Id> {
    Letting(r.lets, Newest(t.statuses, POPULATE_LIMIT))
  }

  /** What the shortcut goes by to pass a status over: its account is skipped,
      or its id is below the score read from. */
  predicate PassedOver(score: Scoring, t: Target, oldest: Id, x: Id) {
    IdAt(t.lastStatus) < score(oldest) || x < score(oldest)
  }

  /** What one account's shortcut loses: statuses newer than the feed's oldest
      entry that it passes over. */
  function LostOne(score: Scoring, r: Receiver, p: Progress, t: Target): set<Id> {
    if OverLimit(p) && p.feed.z != {} then
      set x | x in Offered(r, t) - p.feed.z && Oldest(p.feed.z) < x && PassedOver(score, t, Oldest(p.feed.z), x)
    else {}
  }

  function Lost(score: Scoring, r: Receiver, p: Progress, targets: seq<Target>): set<Id>
    decreases |targets|
  {
    if targets == [] then {}
    else
      var next := PopulateOne(score, r, p, targets[0]);
      LostOne(score, r, p, targets[0]) + Lost(score, r, next, targets[1..])
  }

  /** Posts only: none of the statuses is a boost the receiver aggregates. */
  ghost predicate PlainOnly(r: Receiver, targets: seq<Target>) {
    forall t, x :: t in targets && x in t.statuses ==>
      Aggregated(Boosted(r.origins, x), r.aggregate).None?
  }

  /** Of the newest `m`, a batch of posts added and trimmed leaves those of the
      feed and the batch together; a feed of 400 stays one. */
  lemma AddAllPlain(score: Scoring, r: Receiver, f: Keys, read: set<Id>, m: nat)
    requires f.reblogs == map[] && m <= FEED_MAX_ITEMS
    requires forall x :: x in read ==> Aggregated(Boosted(r.origins, x), r.aggregate).None?
    ensures var g := AddAll(score, r.origins, f, r.Unfiltered(read), r.aggregate);
            && g.reblogs == map[]
            && Newest(g.z, m) == Newest(f.z + Letting(r.lets, read), m)
            && (POPULATE_LIMIT <= |f.z| ==> POPULATE_LIMIT <= |g.z|)
  {
    var lets, ids := Letting(r.lets, read), r.Unfiltered(read);
    var commands := Adds(ids, r.aggregate);
    AddsAdd(ids, r.aggregate);
    forall c | c in commands ensures AddsPlainOrTrims(r.origins, c) {
      assert c.id in Elements(ids);
    }
    NewestOfEverAdded(score, r.origins, f, commands, FEED_MAX_ITEMS);
    NewestOfUnion(f.z + lets, {}, FEED_MAX_ITEMS, m);
    assert Newest(f.z + lets, FEED_MAX_ITEMS) + {} == Newest(f.z + lets, FEED_MAX_ITEMS);
    assert f.z + lets + {} == f.z + lets;
    NewestSize(f.z + lets, FEED_MAX_ITEMS);
    SubsetSize(f.z, f.z + lets);
  }

  lemma AddReadPlain(score: Scoring, r: Receiver, f: Keys, read: set<Id>, m: nat)
    requires f.reblogs == map[] && m <= FEED_MAX_ITEMS
    requires forall x :: x in read ==> Aggregated(Boosted(r.origins, x), r.aggregate).None?
    ensures var g := AddRead(score, r, f, read);
            && g.reblogs == map[]
            && Newest(g.z, m) == Newest(f.z + Letting(r.lets, read), m)
            && (POPULATE_LIMIT <= |f.z| ==> POPULATE_LIMIT <= |g.z|)
  {
    if read == {} {
      assert f.z + Letting(r.lets, read) == f.z;
    } else {
      AddAllPlain(score, r, f, read, m);
    }
  }

  lemma AddsAdd(ids: seq<Id>, aggregate: bool)
    ensures Added(Adds(ids, aggregate)) == Elements(ids)
  {
    var commands := Adds(ids, aggregate);
    forall i | 0 <= i < |ids| ensures ids[i] in Added(commands) {
      assert commands[i] in commands;
    }
  }

  /** The shortcut reads what is offered, less what is lost and what is older
      than anything in the feed. */
  lemma ShortcutReads(score: Scoring, r: Receiver, p: Progress, t: Target)
    requires Monotone(score) && p.feed.z != {}
    ensures var oldest := Oldest(p.feed.z);
            var read := Eligible(t.statuses, Some(score(oldest) - 1), POPULATE_LIMIT);
            Letting(r.lets, read) == set x | x in Offered(r, t) && score(oldest) <= x
  {
    var from: nat := score(Oldest(p.feed.z));
    NewestFrom(t.statuses, POPULATE_LIMIT, from);
    assert Past(t.statuses, Some(from - 1)) == From(t.statuses, from);
    assert Eligible(t.statuses, Some(from - 1), POPULATE_LIMIT) == From(Newest(t.statuses, POPULATE_LIMIT), from);
  }

  lemma AllRead(statuses: set<Id>)
    ensures Eligible(statuses, None, POPULATE_LIMIT) == Newest(statuses, POPULATE_LIMIT)
  {
    assert Past(statuses, None) == statuses;
  }

  /** What is older than everything in a feed of 400 does not enter it. */
  lemma OlderCannotEnter(z: set<Id>, offered: set<Id>, recent: set<Id>)
    requires POPULATE_LIMIT <= |z| && recent <= offered
    requires forall x :: x in offered - recent - z ==> x < Oldest(z)
    ensures Newest(z + recent, POPULATE_LIMIT) == Newest(z + offered, POPULATE_LIMIT)
  {
    OlderThanFull(z, offered - recent - z, recent, POPULATE_LIMIT);
    assert z + recent + (offered - recent - z) == z + offered;
  }

  lemma ShortcutSplits(score: Scoring, r: Receiver, p: Progress, t: Target, kept: set<Id>)
    requires POPULATE_LIMIT <= |p.feed.z| && score(Oldest(p.feed.z)) <= IdAt(t.lastStatus)
    requires kept == set x | x in Offered(r, t) && score(Oldest(p.feed.z)) <= x
    ensures var read := kept + LostOne(score, r, p, t);
            read <= Offered(r, t) && forall x :: x in Offered(r, t) - read - p.feed.z ==> x < Oldest(p.feed.z)
  {
  }

  lemma ReadingOn(
    score: Scoring, r: Receiver, f: Keys, t: Target, read: set<Id>, lost: set<Id>)
    requires f.reblogs == map[] && POPULATE_LIMIT <= |f.z| && PlainOnly(r, [t])
    requires read <= t.statuses
    requires Letting(r.lets, read) + lost <= Offered(r, t)
    requires forall x :: x in Offered(r, t) - (Letting(r.lets, read) + lost) - f.z ==> x < Oldest(f.z)
    ensures var next := AddRead(score, r, f, read);
            && next.reblogs == map[] && POPULATE_LIMIT <= |next.z|
            && Newest(next.z + lost, POPULATE_LIMIT) == Newest(f.z + Offered(r, t), POPULATE_LIMIT)
  {
    var kept := Letting(r.lets, read);
    assert t in [t];
    AddReadPlain(score, r, f, read, POPULATE_LIMIT);
    CutThenAdd(AddRead(score, r, f, read).z, f.z + kept, lost);
    OlderCannotEnter(f.z, Offered(r, t), kept + lost);
    assert f.z + kept + lost == f.z + (kept + lost);
  }

  lemma ShortcutReadsOn(score: Scoring, r: Receiver, p: Progress, t: Target)
    requires Monotone(score) && p.feed.reblogs == map[] && PlainOnly(r, [t])
    requires POPULATE_LIMIT <= |p.feed.z| && score(Oldest(p.feed.z)) <= IdAt(t.lastStatus)
    ensures var next := PopulateOne(score, r, p, t).feed;
            && next.reblogs == map[] && POPULATE_LIMIT <= |next.z|
            && Newest(next.z + LostOne(score, r, p, t), POPULATE_LIMIT)
               == Newest(p.feed.z + Offered(r, t), POPULATE_LIMIT)
  {
    var read := ReadOf(score, p, t);
    ShortcutReads(score, r, p, t);
    ShortcutSplits(score, r, p, t, Letting(r.lets, read));
    ReadingOn(score, r, p.feed, t, read, LostOne(score, r, p, t));
  }

  /** One account of the shortcut: with what it loses put back, the newest 400
      are those of the feed and everything the account offered. */
  lemma ShortcutStep(score: Scoring, r: Receiver, p: Progress, t: Target)
    requires Monotone(score) && p.feed.reblogs == map[] && PlainOnly(r, [t])
    requires p.overLimit ==> POPULATE_LIMIT <= |p.feed.z|
    ensures var next := PopulateOne(score, r, p, t);
            && next.feed.reblogs == map[]
            && (next.overLimit ==> POPULATE_LIMIT <= |next.feed.z|)
            && Newest(next.feed.z + LostOne(score, r, p, t), POPULATE_LIMIT)
               == Newest(p.feed.z + Offered(r, t), POPULATE_LIMIT)
  {
    if |p.feed.z| < POPULATE_LIMIT {
      FullStep(score, r, p, t);
    } else if IdAt(t.lastStatus) < score(Oldest(p.feed.z)) {
      SkippedStep(score, r, p, t);
    } else {
      ShortcutReadsOn(score, r, p, t);
    }
  }

  lemma FullStep(score: Scoring, r: Receiver, p: Progress, t: Target)
    requires p.feed.reblogs == map[] && PlainOnly(r, [t])
    requires |p.feed.z| < POPULATE_LIMIT && !p.overLimit
    ensures var next := PopulateOne(score, r, p, t);
            && next.feed.reblogs == map[] && !next.overLimit
            && Newest(next.feed.z + LostOne(score, r, p, t), POPULATE_LIMIT)
               == Newest(p.feed.z + Offered(r, t), POPULATE_LIMIT)
  {
    var read := Newest(t.statuses, POPULATE_LIMIT);
    AllRead(t.statuses);
    assert t in [t];
    AddReadPlain(score, r, p.feed, read, POPULATE_LIMIT);
    var next := AddRead(score, r, p.feed, read).z;
    assert LostOne(score, r, p, t) == {} && next + {} == next;
  }

  lemma SkippedStep(score: Scoring, r: Receiver, p: Progress, t: Target)
    requires POPULATE_LIMIT <= |p.feed.z| && IdAt(t.lastStatus) < score(Oldest(p.feed.z))
    ensures PopulateOne(score, r, p, t).feed == p.feed
    ensures Newest(p.feed.z + LostOne(score, r, p, t), POPULATE_LIMIT)
         == Newest(p.feed.z + Offered(r, t), POPULATE_LIMIT)
  {
    OlderCannotEnter(p.feed.z, Offered(r, t), LostOne(score, r, p, t));
  }

  /** Feeds with the same newest 400 keep them the same whatever is added. */
  lemma CutThenAdd(a: set<Id>, b: set<Id>, more: set<Id>)
    requires Newest(a, POPULATE_LIMIT) == Newest(b, POPULATE_LIMIT)
    ensures Newest(a + more, POPULATE_LIMIT) == Newest(b + more, POPULATE_LIMIT)
  {
    NewestOfUnion(a, more, POPULATE_LIMIT, POPULATE_LIMIT);
    NewestOfUnion(b, more, POPULATE_LIMIT, POPULATE_LIMIT);
  }

  lemma CarryOver(
    naive: set<Id>, fast: set<Id>, next: set<Id>, before: set<Id>, offered: set<Id>, lost: set<Id>)
    requires Newest(naive, POPULATE_LIMIT) == Newest(fast + before, POPULATE_LIMIT)
    requires Newest(next + lost, POPULATE_LIMIT) == Newest(fast + offered, POPULATE_LIMIT)
    ensures Newest(naive + offered, POPULATE_LIMIT)
         == Newest(next + (before + lost), POPULATE_LIMIT)
  {
    CutThenAdd(naive, fast + before, offered);
    CutThenAdd(fast + offered, next + lost, before);
    assert fast + before + offered == fast + offered + before;
    assert next + lost + before == next + (before + lost);
  }

  /** Over a whole population of posts, the naive feed's newest 400 are those
      of the shortcut's feed with what it lost put back. */
  lemma {:induction false} PopulationAgrees(
    score: Scoring, r: Receiver, p: Progress, naive: Keys, before: set<Id>, targets: seq<Target>)
    requires Monotone(score) && p.feed.reblogs == map[] && naive.reblogs == map[]
    requires PlainOnly(r, targets)
    requires p.overLimit ==> POPULATE_LIMIT <= |p.feed.z|
    requires Newest(naive.z, POPULATE_LIMIT) == Newest(p.feed.z + before, POPULATE_LIMIT)
    ensures Newest(PopulateNaively(score, r, naive, targets).z, POPULATE_LIMIT)
         == Newest(Populate(score, r, p, targets).feed.z + before + Lost(score, r, p, targets),
                   POPULATE_LIMIT)
    decreases |targets|
  {
    if targets == [] {
      assert p.feed.z + before + {} == p.feed.z + before;
    } else {
      var t, next, rest := targets[0], PopulateOne(score, r, p, targets[0]), targets[1..];
      var read, lost := Newest(t.statuses, POPULATE_LIMIT), LostOne(score, r, p, t);
      AllRead(t.statuses);
      assert PlainOnly(r, [t]) && PlainOnly(r, rest);
      var naively := AddRead(score, r, naive, read);
      OneNaively(score, r, naive, t, read);
      ShortcutStep(score, r, p, t);
      CarryOver(naive.z, p.feed.z, next.feed.z, before, Offered(r, t), lost);
      PopulationAgrees(score, r, next, naively, before + lost, rest);
      assert PopulateNaively(score, r, naive, targets) == PopulateNaively(score, r, naively, rest);
      Regroup(Populate(score, r, next, rest).feed.z, before, lost, Lost(score, r, next, rest));
    }
  }

  lemma OneNaively(score: Scoring, r: Receiver, naive: Keys, t: Target, read: set<Id>)
    requires naive.reblogs == map[] && PlainOnly(r, [t]) && read == Newest(t.statuses, POPULATE_LIMIT)
    ensures AddRead(score, r, naive, read).reblogs == map[]
    ensures Newest(AddRead(score, r, naive, read).z, POPULATE_LIMIT)
         == Newest(naive.z + Offered(r, t), POPULATE_LIMIT)
  {
    assert t in [t];
    AddReadPlain(score, r, naive, read, POPULATE_LIMIT);
  }

  lemma Regroup(a: set<Id>, b: set<Id>, c: set<Id>, d: set<Id>)
    ensures a + (b + c) + d == a + b + (c + d)
  {
  }

  // ── Exactly when they agree ─────────────────────────────────────────────

  /** The newest of what is missing ranks in the union as it would alone. */
  lemma NewestLost(z: set<Id>, more: set<Id>, n: nat, x: Id)
    requires x in more - z && Rank(z, x) < n
    ensures exists y :: y in more - z && y in Newest(z + more, n)
  {
    var extra := Listing(more - z, true);
    assert x in Elements(extra);
    var y := extra[0];
    assert y in Elements(extra);
    forall w | w in more - z ensures w <= y {
      assert w in Elements(extra);
    }
    forall w | w in z + more && y < w ensures w in z {
      assert w !in more - z;
    }
    assert Above(z + more, y) == Above(z, y);
    RankAntitone(z, x, y);
  }

  /** What is added changes the newest few exactly when some of it is new and
      among them. */
  lemma NewestUnchanged(z: set<Id>, more: set<Id>, n: nat)
    ensures Newest(z + more, n) == Newest(z, n)
       <==> forall x :: x in more - z ==> x !in Newest(z + more, n)
  {
    if forall x :: x in more - z ==> x !in Newest(z + more, n) {
      forall x | x in z + more && Rank(z + more, x) < n ensures x in Newest(z, n) {
        assert x in Newest(z + more, n);
        RankMonotone(z, z + more, x);
      }
      forall x | x in Newest(z, n) ensures Rank(z + more, x) < n {
        if y :| y in Above(z + more, x) && y !in z {
          RankAntitone(z, x, y);
          NewestLost(z, more, n, y);
        } else {
          assert Above(z + more, x) == Above(z, x);
        }
      }
    }
  }

  /** A run puts in nothing but what it adds. */
  lemma {:induction false} RunEntries(score: Scoring, origins: Origins, f: Keys, commands: seq<Command>)
    requires forall c :: c in commands ==> !c.Removing?
    ensures Run(score, origins, f, commands).z <= f.z + Added(commands)
    decreases |commands|
  {
    if commands != [] {
      AddedCons(commands);
      assert !commands[0].Removing?;
      RunEntries(score, origins, Step(score, origins, f, commands[0]), commands[1..]);
    }
  }

  lemma AddReadEntries(score: Scoring, r: Receiver, f: Keys, read: set<Id>)
    ensures AddRead(score, r, f, read).z <= f.z + Letting(r.lets, read)
  {
    var ids := r.Unfiltered(read);
    RunEntries(score, r.origins, f, Adds(ids, r.aggregate));
    AddsAdd(ids, r.aggregate);
  }

  /** One account takes in only what it offers, and none of what it loses. */
  lemma OneEntries(score: Scoring, r: Receiver, p: Progress, t: Target)
    requires Monotone(score)
    ensures PopulateOne(score, r, p, t).feed.z <= p.feed.z + Offered(r, t)
    ensures PopulateOne(score, r, p, t).feed.z !! LostOne(score, r, p, t)
  {
    var read := ReadOf(score, p, t);
    AddReadEntries(score, r, p.feed, read);
    ReadIsOffered(score, r, p, t);
  }

  lemma ReadIsOffered(score: Scoring, r: Receiver, p: Progress, t: Target)
    requires Monotone(score)
    ensures Letting(r.lets, ReadOf(score, p, t)) <= Offered(r, t)
    ensures Letting(r.lets, ReadOf(score, p, t)) !! LostOne(score, r, p, t)
  {
    if OverLimit(p) && p.feed.z != {} {
      ShortcutReads(score, r, p, t);
    } else {
      AllRead(t.statuses);
    }
  }

  /** For one account, the shortcut's newest 400 are those of reading it in full
      exactly when none of them is newer than the feed's oldest entry and yet
      passed over. */
  lemma OneAccountExact(score: Scoring, r: Receiver, p: Progress, t: Target)
    requires Monotone(score) && p.feed.reblogs == map[] && PlainOnly(r, [t])
    requires p.overLimit ==> POPULATE_LIMIT <= |p.feed.z|
    ensures var z, all := p.feed.z, p.feed.z + Offered(r, t);
            Newest(PopulateOne(score, r, p, t).feed.z, POPULATE_LIMIT) == Newest(all, POPULATE_LIMIT)
            <==> (POPULATE_LIMIT <= |z| ==>
                    forall x :: x in Offered(r, t) - z && Oldest(z) < x && PassedOver(score, t, Oldest(z), x) ==>
                      x !in Newest(all, POPULATE_LIMIT))
  {
    var next, lost := PopulateOne(score, r, p, t).feed.z, LostOne(score, r, p, t);
    ShortcutStep(score, r, p, t);
    OneEntries(score, r, p, t);
    NewestUnchanged(next, lost, POPULATE_LIMIT);
    assert lost - next == lost;
    assert POPULATE_LIMIT <= |p.feed.z| ==> p.feed.z != {};
  }

  function AllOffered(r: Receiver, targets: seq<Target>): set<Id> {
    set t, x | t in targets && x in Offered(r, t) :: x
  }

  lemma AllOfferedCons(r: Receiver, targets: seq<Target>)
    requires targets != []
    ensures AllOffered(r, targets) == Offered(r, targets[0]) + AllOffered(r, targets[1..])
  {
    assert forall t :: t in targets <==> t == targets[0] || t in targets[1..];
  }

  /** Reading every account in full keeps the newest 400 of the feed and all
      that they offer. */
  lemma {:induction false} NaivelyNewestOfAll(score: Scoring, r: Receiver, f: Keys, targets: seq<Target>)
    requires f.reblogs == map[] && PlainOnly(r, targets)
    ensures Newest(PopulateNaively(score, r, f, targets).z, POPULATE_LIMIT)
         == Newest(f.z + AllOffered(r, targets), POPULATE_LIMIT)
    decreases |targets|
  {
    if targets == [] {
      assert f.z + AllOffered(r, targets) == f.z;
    } else {
      var t, rest := targets[0], targets[1..];
      var read := Newest(t.statuses, POPULATE_LIMIT);
      var next := AddRead(score, r, f, read);
      AllRead(t.statuses);
      assert PlainOnly(r, [t]) && PlainOnly(r, rest);
      OneNaively(score, r, f, t, read);
      NaivelyNewestOfAll(score, r, next, rest);
      CutThenAdd(next.z, f.z + Offered(r, t), AllOffered(r, rest));
      AllOfferedCons(r, targets);
      assert f.z + Offered(r, t) + AllOffered(r, rest) == f.z + AllOffered(r, targets);
    }
  }

  /** Over a whole run: exactly when none of the newest 400 of all is lost on
      the way and not otherwise got. */
  lemma PopulationExact(score: Scoring, r: Receiver, f: Keys, targets: seq<Target>)
    requires Monotone(score) && f.reblogs == map[] && PlainOnly(r, targets)
    ensures var fast := Populate(score, r, Progress(f, false), targets).feed.z;
            Newest(PopulateNaively(score, r, f, targets).z, POPULATE_LIMIT)
              == Newest(fast, POPULATE_LIMIT)
            <==> forall x :: x in Lost(score, r, Progress(f, false), targets) - fast ==>
                   x !in Newest(f.z + AllOffered(r, targets), POPULATE_LIMIT)
  {
    var p := Progress(f, false);
    var fast, lost := Populate(score, r, p, targets).feed.z, Lost(score, r, p, targets);
    assert f.z + {} == f.z;
    PopulationAgrees(score, r, p, f, {}, targets);
    assert fast + {} + lost == fast + lost;
    NaivelyNewestOfAll(score, r, f, targets);
    NewestUnchanged(fast, lost, POPULATE_LIMIT);
  }

  // ── What can be lost ────────────────────────────────────────────────────

  /** `t` offers `x`, which is passed over for an older entry of `held`. */
  ghost predicate LosesTo(
    score: Scoring, r: Receiver, held: set<Id>, targets: seq<Target>, x: Id, t: Target, e: Id)
  {
    t in targets && x in Offered(r, t) && e in held && e < x && PassedOver(score, t, e, x)
  }

  lemma {:induction false} AllLostArePassedOver(
    score: Scoring, r: Receiver, p: Progress, targets: seq<Target>, held: set<Id>, x: Id)
    requires Monotone(score) && p.feed.z + AllOffered(r, targets) <= held
    requires x in Lost(score, r, p, targets)
    ensures exists t, e :: LosesTo(score, r, held, targets, x, t, e)
    decreases |targets|
  {
    var t, next := targets[0], PopulateOne(score, r, p, targets[0]);
    if x in LostOne(score, r, p, t) {
      assert LosesTo(score, r, held, targets, x, t, Oldest(p.feed.z));
    } else {
      OneEntries(score, r, p, t);
      AllOfferedCons(r, targets);
      AllLostArePassedOver(score, r, next, targets[1..], held, x);
      var t', e :| LosesTo(score, r, held, targets[1..], x, t', e);
      assert LosesTo(score, r, held, targets, x, t', e);
    }
  }

  /** If nothing offered can be passed over for an older entry, of the feed or
      offered too, the shortcut loses nothing of the newest 400. */
  lemma NonePassedOverNoneLost(score: Scoring, r: Receiver, f: Keys, targets: seq<Target>)
    requires Monotone(score) && f.reblogs == map[] && PlainOnly(r, targets)
    requires forall x, t, e :: !LosesTo(score, r, f.z + AllOffered(r, targets), targets, x, t, e)
    ensures Newest(PopulateNaively(score, r, f, targets).z, POPULATE_LIMIT)
         == Newest(Populate(score, r, Progress(f, false), targets).feed.z, POPULATE_LIMIT)
  {
    var p, held := Progress(f, false), f.z + AllOffered(r, targets);
    assert Lost(score, r, p, targets) == {} by {
      if x :| x in Lost(score, r, p, targets) {
        AllLostArePassedOver(score, r, p, targets, held, x);
      }
    }
    PopulationExact(score, r, f, targets);
  }

  /** The first id of a second has a score of its own: it is a multiple of
      65,536,000, which a 64-bit float holds. */
  ghost predicate ExactAtSeconds(score: Scoring) {
    Monotone(score) && forall s: nat :: score(IdAt(Some(s))) == IdAt(Some(s))
  }

  /** When a status can be passed over for an older entry: its account has no
      `last_status_at`, or one no later than the entry's second, however late
      the status itself was stored; or the two were made in one second, and
      rounding has lifted the entry's score above it. */
  predicate MayPassOver(score: Scoring, t: Target, e: Id, x: Id) {
    || t.lastStatus.None?
    || t.lastStatus.value <= SecondOf(e)
    || (SecondOf(e) == SecondOf(x) && x < score(e))
  }

  lemma PassedOverWhen(score: Scoring, t: Target, e: Id, x: Id)
    requires ExactAtSeconds(score) && e < x && PassedOver(score, t, e, x)
    ensures MayPassOver(score, t, e, x)
  {
    var second := SecondOf(e);
    IdsOfASecond(e, second);
    IdsOfASecond(x, SecondOf(x));
    var next := IdAt(Some(second + 1));
    assert score(e) <= score(next) == next;
    assert second < SecondOf(x) ==> next <= IdAt(Some(SecondOf(x)));
    assert t.lastStatus.Some? && second < t.lastStatus.value ==> next <= IdAt(t.lastStatus);
  }

  /** Over a whole population, every status lost is lost so. */
  lemma AllLostWhen(
    score: Scoring, r: Receiver, f: Keys, targets: seq<Target>, x: Id)
    requires ExactAtSeconds(score) && x in Lost(score, r, Progress(f, false), targets)
    ensures exists t, e ::
              && t in targets && x in Offered(r, t) && e in f.z + AllOffered(r, targets)
              && e < x && MayPassOver(score, t, e, x)
  {
    var held := f.z + AllOffered(r, targets);
    AllLostArePassedOver(score, r, Progress(f, false), targets, held, x);
    var t, e :| LosesTo(score, r, held, targets, x, t, e);
    PassedOverWhen(score, t, e, x);
  }

  /** So when each account's `last_status_at` is in a later second than any
      entry older than what it offers, of the feed or offered too, and none of
      these shares a second with it, the shortcut loses nothing. */
  lemma PopulationLosesNothing(score: Scoring, r: Receiver, f: Keys, targets: seq<Target>)
    requires ExactAtSeconds(score) && f.reblogs == map[] && PlainOnly(r, targets)
    requires forall t, x, e ::
               t in targets && x in Offered(r, t) && e in f.z + AllOffered(r, targets) && e < x ==>
                 SecondOf(e) != SecondOf(x) && t.lastStatus.Some? && SecondOf(e) < t.lastStatus.value
    ensures Newest(PopulateNaively(score, r, f, targets).z, POPULATE_LIMIT)
         == Newest(Populate(score, r, Progress(f, false), targets).feed.z, POPULATE_LIMIT)
  {
    forall x: Id, t: Target, e: Id
      ensures !LosesTo(score, r, f.z + AllOffered(r, targets), targets, x, t, e)
    {
      if t in targets && x in Offered(r, t) && e in f.z + AllOffered(r, targets) && e < x {
        assert x in Offered(r, t) && SecondOf(e) != SecondOf(x);
        if PassedOver(score, t, e, x) {
          PassedOverWhen(score, t, e, x);
        }
      }
    }
    NonePassedOverNoneLost(score, r, f, targets);
  }

  // ── Merging ─────────────────────────────────────────────────────────────

  /** `FEED_MAX_ITEMS / 4`. */
  const MERGE_LIMIT: nat := FEED_MAX_ITEMS / 4

  /** `merge`: the newest 200 of an account, past the oldest entry of a feed
      that already holds as many. */
  function MergeInto(score: Scoring, r: Receiver, f: Keys, statuses: set<Id>): Keys {
    var after := if MERGE_LIMIT <= |f.z| then Some(score(Oldest(f.z))) else None;
    AddAll(score, r.origins, f, r.Unfiltered(Eligible(statuses, after, MERGE_LIMIT)), r.aggregate)
  }

  /** The newest 200 after a merge are those of the feed and the account's
      newest 200 together exactly when none of these is newer than the feed's
      oldest entry and yet not above its rounded score. */
  lemma MergingExact(score: Scoring, r: Receiver, f: Keys, t: Target)
    requires Monotone(score) && f.reblogs == map[] && PlainOnly(r, [t])
    ensures var offered := Letting(r.lets, Newest(t.statuses, MERGE_LIMIT));
            Newest(MergeInto(score, r, f, t.statuses).z, MERGE_LIMIT) == Newest(f.z + offered, MERGE_LIMIT)
            <==> (MERGE_LIMIT <= |f.z| ==>
                    forall x :: x in offered - f.z && Oldest(f.z) < x <= score(Oldest(f.z)) ==>
                      x !in Newest(f.z + offered, MERGE_LIMIT))
  {
    var offered := Letting(r.lets, Newest(t.statuses, MERGE_LIMIT));
    var after := if MERGE_LIMIT <= |f.z| then Some(score(Oldest(f.z))) else None;
    var read := Eligible(t.statuses, after, MERGE_LIMIT);
    assert t in [t];
    AddAllPlain(score, r, f, read, MERGE_LIMIT);
    if MERGE_LIMIT <= |f.z| {
      MergeReads(score, r, f.z, t.statuses, Letting(r.lets, read));
    } else {
      assert Past(t.statuses, None) == t.statuses;
    }
  }

  lemma MergeReads(score: Scoring, r: Receiver, z: set<Id>, statuses: set<Id>, kept: set<Id>)
    requires Monotone(score) && MERGE_LIMIT <= |z|
    requires kept == Letting(r.lets, Eligible(statuses, Some(score(Oldest(z))), MERGE_LIMIT))
    ensures var offered := Letting(r.lets, Newest(statuses, MERGE_LIMIT));
            Newest(z + kept, MERGE_LIMIT) == Newest(z + offered, MERGE_LIMIT)
            <==> forall x :: x in offered - z && Oldest(z) < x <= score(Oldest(z)) ==>
                   x !in Newest(z + offered, MERGE_LIMIT)
  {
    var from: nat := score(Oldest(z)) + 1;
    var offered := Letting(r.lets, Newest(statuses, MERGE_LIMIT));
    NewestFrom(statuses, MERGE_LIMIT, from);
    assert Past(statuses, Some(from - 1)) == From(statuses, from);
    MergeSplits(z, offered, kept, Oldest(z), from - 1);
  }

  lemma MergeSplits(z: set<Id>, offered: set<Id>, kept: set<Id>, oldest: Id, read: int)
    requires MERGE_LIMIT <= |z| && oldest == Oldest(z)
    requires kept == set x | x in offered && read < x
    ensures Newest(z + kept, MERGE_LIMIT) == Newest(z + offered, MERGE_LIMIT)
       <==> forall x :: x in offered - z && oldest < x <= read ==> x !in Newest(z + offered, MERGE_LIMIT)
  {
    var lost := set x | x in offered - z && oldest < x <= read;
    var older := offered - kept - lost - z;
    OlderThanFull(z, older, kept + lost, MERGE_LIMIT);
    assert z + (kept + lost) + older == z + offered;
    assert z + (kept + lost) == z + kept + lost;
    NewestUnchanged(z + kept, lost, MERGE_LIMIT);
    assert lost - (z + kept) == lost;
  }

  /** How much of an account is read: 400 to populate a feed, 200 to merge. */
  lemma HowMuchIsRead(statuses: set<Id>)
    ensures |Eligible(statuses, None, POPULATE_LIMIT)| == Min(400, |statuses|)
    ensures |Eligible(statuses, None, MERGE_LIMIT)| == Min(200, |statuses|)
  {
    assert Past(statuses, None) == statuses;
    NewestSize(statuses, 400);
    NewestSize(statuses, 200);
  }

  // ── A status lost ───────────────────────────────────────────────────────

  function Interval(from: Id, n: nat): (z: set<Id>)
    ensures |z| == n && forall x :: x in z <==> from <= x < from + n
    decreases n
  {
    if n == 0 then {} else Interval(from, n - 1) + {from + n - 1}
  }

  /** No status of the account's was stored in a later second than its
      `last_status_at`. */
  predicate Dated(t: Target) {
    forall x :: x in t.statuses ==> t.lastStatus.Some? && SecondOf(x) <= t.lastStatus.value
  }

  /** The shortcut can lose the newest status there is: a feed of 400 posts
      made early in a second, and an account that posted later in it. The
      account's `last_status_at`, cut to the second, looks older than the
      feed's oldest entry, and the account is skipped. */
  lemma SkippingLosesTheSameSecond()
    ensures exists f: Keys, t: Target ::
              var r := Receiver(map[], x => true, true);
              var score: Scoring := x => x;
              && f.reblogs == map[] && Dated(t) && PlainOnly(r, [t])
              && Newest(Populate(score, r, Progress(f, false), [t]).feed.z, POPULATE_LIMIT)
                 != Newest(PopulateNaively(score, r, f, [t]).z, POPULATE_LIMIT)
  {
    var start, late: Id := IdAt(Some(1)) + 1, IdAt(Some(1)) + 1000;
    var f := Keys(Interval(start, POPULATE_LIMIT), map[], map[]);
    var t := Target({late}, Some(1));
    assert start in f.z && Oldest(f.z) == start;
    assert Above(f.z, late) == {};
    assert Rank(f.z, late) == 0;
    SkippedAndNew(Receiver(map[], x => true, true), x => x, f, t, late);
    IdsOfASecond(late, 1);
  }

  /** Nor need it be of the same second, or of the same hour: a remote status
      has an id from when it arrived, and a `last_status_at` from when it was
      published. Of any three seconds, one published in the first and arrived in
      the third is lost to a feed of posts made in the second. */
  lemma LateArrivalIsLost(score: Scoring, published: nat, made: nat, arrived: nat)
    returns (r: Receiver, f: Keys, t: Target, late: Id)
    requires ExactAtSeconds(score) && published < made < arrived
    ensures f.reblogs == map[] && PlainOnly(r, [t]) && forall e :: e in f.z ==> SecondOf(e) == made
    ensures t.statuses == {late} && SecondOf(late) == arrived && t.lastStatus == Some(published)
    ensures Newest(Populate(score, r, Progress(f, false), [t]).feed.z, POPULATE_LIMIT)
         != Newest(PopulateNaively(score, r, f, [t]).z, POPULATE_LIMIT)
  {
    var start: nat := IdAt(Some(made));
    late := IdAt(Some(arrived));
    f := Keys(Interval(start, POPULATE_LIMIT), map[], map[]);
    r, t := Receiver(map[], x => true, true), Target({late}, Some(published));
    forall e | e in f.z ensures SecondOf(e) == made {
      IdsOfASecond(e, made);
    }
    IdsOfASecond(late, arrived);
    assert start in f.z && Oldest(f.z) == start;
    assert Above(f.z, late) == {};
    assert score(start) == start;
    SkippedAndNew(r, score, f, t, late);
  }

  lemma SkippedAndNew(r: Receiver, score: Scoring, f: Keys, t: Target, late: Id)
    requires Monotone(score) && f.reblogs == map[] && PlainOnly(r, [t])
    requires |f.z| == POPULATE_LIMIT && IdAt(t.lastStatus) < score(Oldest(f.z))
    requires t.statuses == {late} && r.lets(late)
    requires late !in f.z && Oldest(f.z) < late && Rank(f.z, late) < POPULATE_LIMIT
    ensures Newest(Populate(score, r, Progress(f, false), [t]).feed.z, POPULATE_LIMIT)
         != Newest(PopulateNaively(score, r, f, [t]).z, POPULATE_LIMIT)
  {
    var p := Progress(f, false);
    OneTarget(score, r, f, t);
    OneOffers(r, t, late, POPULATE_LIMIT);
    assert Above(f.z + {late}, late) == Above(f.z, late);
    assert late in Newest(f.z + Offered(r, t), POPULATE_LIMIT);
    OneAccountExact(score, r, p, t);
  }

  lemma OneTarget(score: Scoring, r: Receiver, f: Keys, t: Target)
    requires f.reblogs == map[] && PlainOnly(r, [t])
    ensures Populate(score, r, Progress(f, false), [t]) == PopulateOne(score, r, Progress(f, false), t)
    ensures Newest(PopulateNaively(score, r, f, [t]).z, POPULATE_LIMIT) == Newest(f.z + Offered(r, t), POPULATE_LIMIT)
  {
    NaivelyNewestOfAll(score, r, f, [t]);
    AllOfferedCons(r, [t]);
    assert AllOffered(r, []) == {};
    assert AllOffered(r, [t]) == Offered(r, t);
  }

  lemma OneOffers(r: Receiver, t: Target, late: Id, n: nat)
    requires t.statuses == {late} && r.lets(late) && 0 < n
    ensures Letting(r.lets, Newest(t.statuses, n)) == {late}
  {
    assert Above({late}, late) == {};
  }

  /** How a 64-bit float rounds ids between 2^56 and 2^57, as those made from
      2004 to 2039 are: to the nearest multiple of sixteen, and half way to an even one. */
  function Rounded(x: Id): int {
    var below, over := x / 16, x % 16;
    if over < 8 || (over == 8 && below % 2 == 0) then 16 * below else 16 * below + 16
  }

  lemma RoundedMonotone()
    ensures Monotone(Rounded)
  {
    forall x: Id, y: Id | x <= y ensures Rounded(x) <= Rounded(y) {
      assert x / 16 <= y / 16;
      if x / 16 < y / 16 {
        assert Rounded(x) <= 16 * (x / 16) + 16 <= 16 * (y / 16) <= Rounded(y);
      }
    }
  }

  ghost predicate MergeLoses(score: Scoring, r: Receiver, f: Keys, t: Target) {
    && f.reblogs == map[] && PlainOnly(r, [t])
    && Newest(MergeInto(score, r, f, t.statuses).z, MERGE_LIMIT)
       != Newest(f.z + Letting(r.lets, Newest(t.statuses, MERGE_LIMIT)), MERGE_LIMIT)
  }

  predicate MadeSince2004(z: set<Id>) {
    forall x :: x in z ==> 0x100_0000_0000_0000 <= x < 0x200_0000_0000_0000
  }

  /** With scores so rounded a merge can lose a status newer than the feed's
      oldest entry: one made in the ids its score is rounded over. */
  lemma MergingLosesTheRoundedOver() returns (r: Receiver, f: Keys, t: Target)
    ensures MadeSince2004(f.z + t.statuses) && MergeLoses(Rounded, r, f, t)
  {
    RoundedMonotone();
    RoundedUp(0x10_0000_0000_0000);
    r, f, t := MergingLosesBetween(Rounded, 0x100_0000_0000_0009, 0x100_0000_0000_000c, MERGE_LIMIT - 1);
  }

  lemma MergingLosesBetween(score: Scoring, start: Id, late: Id, n: nat)
    returns (r: Receiver, f: Keys, t: Target)
    requires Monotone(score) && start < late < start + 1000 && late <= score(start) && n + 1 == MERGE_LIMIT
    requires 0x100_0000_0000_0000 <= start && start + 1000 + n <= 0x200_0000_0000_0000
    ensures MadeSince2004(f.z + t.statuses) && MergeLoses(score, r, f, t)
  {
    var z := Interval(start + 1000, n) + {start};
    OneOldTheRestNewer(start, late, n);
    r, f, t := MergedInto(score, z, late);
    Since2004(z + {late});
  }

  lemma Since2004(z: set<Id>)
    requires forall x :: x in z ==> 0x100_0000_0000_0000 <= x < 0x200_0000_0000_0000
    ensures MadeSince2004(z)
  {
  }

  lemma MergedInto(score: Scoring, z: set<Id>, late: Id) returns (r: Receiver, f: Keys, t: Target)
    requires Monotone(score) && |z| == MERGE_LIMIT && late !in z
    requires Oldest(z) < late <= score(Oldest(z)) && Rank(z, late) < MERGE_LIMIT
    ensures f.z == z && t.statuses == {late} && MergeLoses(score, r, f, t)
  {
    f := Keys(z, map[], map[]);
    r, t := Receiver(map[], x => true, true), Target({late}, None);
    MergedOver(r, score, f, t, late);
  }

  lemma OneOldTheRestNewer(start: Id, late: Id, n: nat)
    requires start < late < start + 1000
    ensures var z := Interval(start + 1000, n) + {start};
            && |z| == n + 1 && Oldest(z) == start && Rank(z, late) == n && late !in z
            && forall x :: x in z ==> start <= x < start + 1000 + n
  {
    var z := Interval(start + 1000, n) + {start};
    assert start in z;
    assert Above(z, late) == Interval(start + 1000, n);
  }

  lemma RoundedExactAtSeconds()
    ensures ExactAtSeconds(Rounded)
  {
    RoundedMonotone();
    forall s: nat ensures Rounded(IdAt(Some(s))) == IdAt(Some(s)) {
      assert IdAt(Some(s)) == 16 * (s * 4_096_000);
      SixteensAreExact(s * 4_096_000);
    }
  }

  lemma SixteensAreExact(n: nat)
    ensures Rounded(16 * n) == 16 * n
  {
  }

  lemma RoundedUp(below: nat)
    ensures Rounded(16 * below + 9) == 16 * below + 16
  {
  }

  lemma MergedOver(r: Receiver, score: Scoring, f: Keys, t: Target, late: Id)
    requires Monotone(score) && f.reblogs == map[] && PlainOnly(r, [t])
    requires |f.z| == MERGE_LIMIT && t.statuses == {late} && r.lets(late)
    requires late !in f.z && Oldest(f.z) < late <= score(Oldest(f.z)) && Rank(f.z, late) < MERGE_LIMIT
    ensures MergeLoses(score, r, f, t)
  {
    OneOffers(r, t, late, MERGE_LIMIT);
    assert Above(f.z + {late}, late) == Above(f.z, late);
    assert late in Newest(f.z + {late}, MERGE_LIMIT);
    MergingExact(score, r, f, t);
  }
}
