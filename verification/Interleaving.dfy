/** Several workers adding boosts of one post to one feed at once, their Redis
    commands interleaved in any way. */
module Interleaving {
  import opened Basics
  import opened SortedSets
  import opened Feed
  import opened Population

  /** How far one call of `add_to_feed` has got: about to send `ZREVRANK`, then
      `ZADD NX`, then `ZADD` or `SADD` as that answered. */
  datatype Stage = Ranking | Tracking | Won | Beaten | Done(added: bool)

  datatype State = State(feed: Keys, calls: map<Id, Stage>)

  /** The next command of one call, which aggregates a boost of `post`. */
  function Advance(score: Scoring, post: Id, s: State, id: Id): State {
    if id !in s.calls then s
    else
      match s.calls[id]
      case Ranking =>
        s.(calls := s.calls[id := if RankedNew(s.feed.z, post) then Done(false) else Tracking])
      case Tracking =>
        if post in s.feed.reblogs then s.(calls := s.calls[id := Beaten])
        else State(s.feed.(reblogs := s.feed.reblogs[post := score(id)]), s.calls[id := Won])
      case Won =>
        State(s.feed.(z := s.feed.z + {id}), s.calls[id := Done(true)])
      case Beaten =>
        State(s.feed.(held := s.feed.held[post := s.feed.Held(post) + {id}]), s.calls[id := Done(false)])
      case Done(_) => s
  }

  /** The commands in the order Redis runs them, by the call each is of. */
  function Interleave(score: Scoring, post: Id, s: State, schedule: seq<Id>): State
    decreases |schedule|
  {
    if schedule == [] then s
    else Interleave(score, post, Advance(score, post, s, schedule[0]), schedule[1..])
  }

  function Begin(f: Keys, boosts: set<Id>): State {
    State(f, map b | b in boosts :: Ranking)
  }

  predicate Quiescent(s: State) {
    forall b :: b in s.calls ==> s.calls[b].Done?
  }

  function Answered(s: State, added: bool): set<Id> {
    set b | b in s.calls && s.calls[b] == Done(added)
  }

  function HoldAll(f: Keys, post: Id, boosts: set<Id>): map<Id, set<Id>> {
    if boosts == {} then f.held else f.held[post := f.Held(post) + boosts]
  }

  /** The calls refused on sight, as the post is among the newest 80. */
  ghost predicate Refusing(post: Id, f: Keys, s: State) {
    && s.feed == f
    && forall b :: b in s.calls ==> s.calls[b].Ranking? || s.calls[b] == Done(false)
  }

  /** The calls racing: `winner`, once there is one, is the only one to go in,
      and there is one, or the post was tracked before, once any is beaten. */
  ghost predicate Racing(score: Scoring, post: Id, f: Keys, s: State, winner: Option<Id>) {
    && (winner.Some? ==>
          && post !in f.reblogs && winner.value in s.calls
          && (s.calls[winner.value].Won? || s.calls[winner.value] == Done(true)))
    && (forall b :: b in s.calls ==>
          && (s.calls[b].Won? || s.calls[b] == Done(true) ==> winner == Some(b))
          && (s.calls[b].Beaten? || s.calls[b] == Done(false) ==> post in s.feed.reblogs))
    && s.feed.z == f.z + Answered(s, true)
    && s.feed.reblogs == (if winner.Some? then f.reblogs[post := score(winner.value)] else f.reblogs)
    && s.feed.held == HoldAll(f, post, Answered(s, false))
  }

  lemma StillNotNew(z: set<Id>, more: set<Id>, post: Id)
    requires !RankedNew(z, post) && post !in more
    ensures !RankedNew(z + more, post)
  {
    if post in z {
      RankMonotone(z, z + more, post);
    }
  }

  lemma AnsweredAfter(s: State, id: Id, stage: Stage, added: bool)
    requires id in s.calls && !s.calls[id].Done?
    ensures Answered(State(s.feed, s.calls[id := stage]), added)
         == Answered(s, added) + if stage == Done(added) then {id} else {}
  {
  }

  lemma HoldMore(f: Keys, g: Keys, post: Id, a: set<Id>, b: set<Id>)
    requires g.held == HoldAll(f, post, a)
    ensures HoldAll(g, post, b) == HoldAll(f, post, a + b)
  {
    assert a != {} ==> g.Held(post) + b == f.Held(post) + (a + b);
    assert a == {} ==> a + b == b;
    assert b == {} ==> a + b == a;
  }

  lemma RaceStep(score: Scoring, post: Id, f: Keys, s: State, winner: Option<Id>, id: Id)
    returns (winner': Option<Id>)
    requires post !in s.calls && !RankedNew(f.z, post) && Racing(score, post, f, s, winner)
    ensures Racing(score, post, f, Advance(score, post, s, id), winner')
  {
    winner' := winner;
    if id in s.calls && !s.calls[id].Done? {
      var next := Advance(score, post, s, id);
      StillNotNew(f.z, Answered(s, true), post);
      AnsweredAfter(s, id, next.calls[id], true);
      AnsweredAfter(s, id, next.calls[id], false);
      assert next.calls == s.calls[id := next.calls[id]];
      if next.calls[id].Won? {
        winner' := Some(id);
      }
      assert !s.calls[id].Beaten? ==> Answered(next, false) == Answered(s, false);
      assert Answered(next, true) == Answered(State(s.feed, next.calls), true);
      assert Answered(next, false) == Answered(State(s.feed, next.calls), false);
      if s.calls[id].Beaten? {
        HoldMore(f, s.feed, post, Answered(s, false), {id});
        assert next.feed.held == HoldAll(s.feed, post, {id});
      }
    }
  }

  lemma {:induction false} RaceRun(
    score: Scoring, post: Id, f: Keys, s: State, winner: Option<Id>, schedule: seq<Id>)
    returns (winner': Option<Id>)
    requires post !in s.calls && !RankedNew(f.z, post) && Racing(score, post, f, s, winner)
    ensures Racing(score, post, f, Interleave(score, post, s, schedule), winner')
    ensures Interleave(score, post, s, schedule).calls.Keys == s.calls.Keys
    decreases |schedule|
  {
    if schedule == [] {
      winner' := winner;
    } else {
      winner' := RaceStep(score, post, f, s, winner, schedule[0]);
      winner' := RaceRun(score, post, f, Advance(score, post, s, schedule[0]), winner', schedule[1..]);
    }
  }

  lemma {:induction false} RefusalRun(score: Scoring, post: Id, f: Keys, s: State, schedule: seq<Id>)
    requires RankedNew(f.z, post) && Refusing(post, f, s)
    ensures Refusing(post, f, Interleave(score, post, s, schedule))
    ensures Interleave(score, post, s, schedule).calls.Keys == s.calls.Keys
    decreases |schedule|
  {
    if schedule != [] {
      RefusalRun(score, post, f, Advance(score, post, s, schedule[0]), schedule[1..]);
    }
  }

  // ── The outcome ─────────────────────────────────────────────────────────

  /** Once every call has answered: all were refused as the post was among the
      newest 80; or all are held back as it was tracked already; or exactly one
      went in, tracked as the post's lead, and every other is held back. */
  ghost predicate Outcome(score: Scoring, post: Id, f: Keys, boosts: set<Id>, s: State) {
    if RankedNew(f.z, post) then
      s.feed == f && Answered(s, false) == boosts
    else if post in f.reblogs then
      s.feed == f.(held := HoldAll(f, post, boosts)) && Answered(s, false) == boosts
    else
      exists w :: WonBy(score, post, f, boosts, s, w)
  }

  ghost predicate WonBy(score: Scoring, post: Id, f: Keys, boosts: set<Id>, s: State, w: Id) {
    && w in boosts
    && Answered(s, true) == {w} && Answered(s, false) == boosts - {w}
    && s.feed == Keys(f.z + {w}, f.reblogs[post := score(w)], HoldAll(f, post, boosts - {w}))
  }

  lemma EveryInterleavingHasTheOutcome(
    score: Scoring, post: Id, f: Keys, boosts: set<Id>, schedule: seq<Id>)
    requires post !in boosts && boosts != {}
    requires Quiescent(Interleave(score, post, Begin(f, boosts), schedule))
    ensures Outcome(score, post, f, boosts, Interleave(score, post, Begin(f, boosts), schedule))
  {
    var s0 := Begin(f, boosts);
    var s := Interleave(score, post, s0, schedule);
    if RankedNew(f.z, post) {
      RefusalRun(score, post, f, s0, schedule);
      assert Answered(s, false) == boosts;
    } else {
      assert Answered(s0, true) == {} && Answered(s0, false) == {};
      var winner := RaceRun(score, post, f, s0, None, schedule);
      if winner.Some? {
        assert Answered(s, true) == {winner.value};
        assert Answered(s, false) == boosts - {winner.value};
        assert WonBy(score, post, f, boosts, s, winner.value);
      } else {
        assert Answered(s, true) == {} && Answered(s, false) == boosts;
        var b :| b in boosts;
        assert s.calls[b] == Done(false);
      }
    }
  }

  // ── One at a time ───────────────────────────────────────────────────────

  /** Boosts added one after another once the post is tracked and not new are
      all held back. */
  lemma {:induction false} AddsHold(
    score: Scoring, origins: Origins, post: Id, f: Keys, order: seq<Id>)
    requires forall b :: b in order ==> Boosted(origins, b) == Some(post)
    requires post in f.reblogs && !RankedNew(f.z, post)
    ensures Run(score, origins, f, Adds(order, true)) == f.(held := HoldAll(f, post, Elements(order)))
    decreases |order|
  {
    var commands := Adds(order, true);
    if order == [] {
      assert Elements(order) == {};
    } else {
      assert commands[1..] == Adds(order[1..], true);
      var next := Step(score, origins, f, commands[0]);
      AddsHold(score, origins, post, next, order[1..]);
      assert order == [order[0]] + order[1..];
      assert Elements(order) == {order[0]} + Elements(order[1..]);
      assert next.held == HoldAll(f, post, {order[0]});
      HoldMore(f, next, post, {order[0]}, Elements(order[1..]));
    }
  }

  lemma {:induction false} AddsRefused(
    score: Scoring, origins: Origins, post: Id, f: Keys, order: seq<Id>)
    requires forall b :: b in order ==> Boosted(origins, b) == Some(post)
    requires RankedNew(f.z, post)
    ensures Run(score, origins, f, Adds(order, true)) == f
    decreases |order|
  {
    if order != [] {
      assert Adds(order, true)[1..] == Adds(order[1..], true);
      AddsRefused(score, origins, post, f, order[1..]);
    }
  }

  /** However the commands of the calls interleave, they leave the feed as the
      same calls would have done one at a time, in some order. */
  lemma EveryInterleavingIsSequential(
    score: Scoring, origins: Origins, post: Id, f: Keys, boosts: set<Id>, schedule: seq<Id>)
    requires post !in boosts && boosts != {}
    requires forall b :: b in boosts ==> Boosted(origins, b) == Some(post)
    requires Quiescent(Interleave(score, post, Begin(f, boosts), schedule))
    ensures exists order :: Elements(order) == boosts && |order| == |boosts|
              && Interleave(score, post, Begin(f, boosts), schedule).feed
                 == Run(score, origins, f, Adds(order, true))
  {
    var s := Interleave(score, post, Begin(f, boosts), schedule);
    EveryInterleavingHasTheOutcome(score, post, f, boosts, schedule);
    if RankedNew(f.z, post) || post in f.reblogs {
      var order := Listing(boosts, true);
      forall b | b in order ensures b in boosts { assert b in Elements(order); }
      if RankedNew(f.z, post) {
        AddsRefused(score, origins, post, f, order);
      } else {
        AddsHold(score, origins, post, f, order);
      }
      ListingSize(boosts, true);
      assert s.feed == Run(score, origins, f, Adds(order, true));
    } else {
      var w :| WonBy(score, post, f, boosts, s, w);
      WinnerFirst(score, origins, post, f, boosts, w);
    }
  }

  lemma WinnerFirst(score: Scoring, origins: Origins, post: Id, f: Keys, boosts: set<Id>, w: Id)
    requires post !in boosts && w in boosts && post !in f.reblogs && !RankedNew(f.z, post)
    requires forall b :: b in boosts ==> Boosted(origins, b) == Some(post)
    ensures var order := [w] + Listing(boosts - {w}, true);
            && Elements(order) == boosts && |order| == |boosts|
            && Run(score, origins, f, Adds(order, true))
               == Keys(f.z + {w}, f.reblogs[post := score(w)], HoldAll(f, post, boosts - {w}))
  {
    var rest := Listing(boosts - {w}, true);
    var order := [w] + rest;
    forall b | b in rest ensures b in boosts - {w} { assert b in Elements(rest); }
    forall x ensures x in Elements(order) <==> x in boosts {
      assert x in order <==> x == w || x in Elements(rest);
    }
    assert Adds(order, true)[0] == Adding(w, true) && Adds(order, true)[1..] == Adds(rest, true);
    ListingSize(boosts - {w}, true);
    StillNotNew(f.z, {w}, post);
    AddsHold(score, origins, post, Step(score, origins, f, Adding(w, true)), rest);
  }
}
