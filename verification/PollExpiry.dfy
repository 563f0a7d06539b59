/** The poll expiry notifier: a mark that says how far it has got through the
    polls in the order they end, moved on by passes of at most a hundred. */
module PollExpiry {
  import opened Basics

  /** A poll that ends, by when it does and its id. */
  datatype Poll = Poll(endsAt: int, id: Id)

  /** `PollExpiryMark`. */
  datatype Mark = Mark(endsAt: int, id: Id)

  const POLL_EXPIRY_BATCH: nat := 100
  const MAX_ID: nat := 0x7FFF_FFFF_FFFF_FFFF
  const TWO_MINUTES := 120

  /** `(expires_at, id) > (mark.expires_at, mark.id)`. */
  predicate Past(p: Poll, mark: Mark) {
    p.endsAt > mark.endsAt || (p.endsAt == mark.endsAt && p.id > mark.id)
  }

  predicate EndsBefore(p: Poll, q: Poll) {
    p.endsAt < q.endsAt || (p.endsAt == q.endsAt && p.id < q.id)
  }

  predicate Due(p: Poll, mark: Mark, now: int) {
    Past(p, mark) && p.endsAt <= now
  }

  ghost predicate InOrder(s: seq<Poll>) {
    forall i, j :: 0 <= i < j < |s| ==> EndsBefore(s[i], s[j])
  }

  /** `WHERE … ORDER BY expires_at, id LIMIT 100`: due polls in order, and if
      any due is missing, a full batch of those that end before it. */
  ghost predicate IsBatch(polls: set<Poll>, mark: Mark, now: int, batch: seq<Poll>) {
    && InOrder(batch) && |batch| <= POLL_EXPIRY_BATCH
    && (forall p :: p in batch ==> p in polls && Due(p, mark, now))
    && (forall p :: p in polls && Due(p, mark, now) && p !in batch ==>
          |batch| == POLL_EXPIRY_BATCH && EndsBefore(batch[|batch| - 1], p))
  }

  function Start(mark: Option<Mark>, now: int): Mark {
    if mark.Some? then mark.value else Mark(now - TWO_MINUTES, MAX_ID)
  }

  function Reached(batch: seq<Poll>, now: int): Mark {
    if |batch| == POLL_EXPIRY_BATCH then Mark(batch[|batch| - 1].endsAt, batch[|batch| - 1].id)
    else Mark(now, MAX_ID)
  }

  // ── Runs ────────────────────────────────────────────────────────────────

  /** The database's clock and polls, and the notifier's mark and everything it
      has handled, in order. */
  datatype State = State(now: int, polls: set<Poll>, mark: Option<Mark>, handled: seq<Poll>)

  /** The clock moves on, or stands. */
  predicate Ticks(s: State, t: State) {
    s.now <= t.now && t == s.(now := t.now)
  }

  /** A poll is created, to end in the future. */
  ghost predicate Creates(s: State, t: State) {
    exists p :: p !in s.polls && p.endsAt > s.now && p.id <= MAX_ID && t == s.(polls := s.polls + {p})
  }

  ghost predicate Passes(s: State, t: State) {
    exists batch :: IsBatch(s.polls, Start(s.mark, s.now), s.now, batch)
      && t == s.(mark := Some(Reached(batch, s.now)), handled := s.handled + batch)
  }

  /** A pass that fails part of the way: some polls handled, the mark kept. */
  ghost predicate Fails(s: State, t: State) {
    exists batch, k :: IsBatch(s.polls, Start(s.mark, s.now), s.now, batch) && 0 <= k <= |batch|
      && t == s.(handled := s.handled + batch[..k])
  }

  ghost predicate Succeeds(s: State, t: State) {
    Ticks(s, t) || Creates(s, t) || Passes(s, t)
  }

  ghost predicate Steps(s: State, t: State) {
    Succeeds(s, t) || Fails(s, t)
  }

  predicate NotBefore(mark: Mark, from: Mark) {
    from.endsAt < mark.endsAt || (from.endsAt == mark.endsAt && from.id <= mark.id)
  }

  /** Ids fit 64 bits, and the mark has moved from where it began, no further
      than the clock. */
  ghost predicate Sane(from: Mark, s: State) {
    && (forall p :: p in s.polls ==> p.id <= MAX_ID)
    && s.mark.Some? && NotBefore(s.mark.value, from)
    && s.mark.value.endsAt <= s.now && s.mark.value.id <= MAX_ID
  }

  /** Everything that ended after `from` and up to the mark is handled, once,
      in order, and nothing else is. */
  ghost predicate HandledOnce(from: Mark, s: State) {
    && Sane(from, s)
    && InOrder(s.handled)
    && (forall p :: p in s.handled <==> p in s.polls && Past(p, from) && !Past(p, s.mark.value))
  }

  /** The weaker form failures leave: handled at least once. */
  ghost predicate NoneMissed(from: Mark, s: State) {
    && Sane(from, s)
    && (forall p :: p in s.polls && Past(p, from) && !Past(p, s.mark.value) ==> p in s.handled)
    && (forall p :: p in s.handled ==> p in s.polls)
  }

  /** What a pass moves its mark over is exactly its batch. */
  lemma BatchIsWhatTheMarkPasses(polls: set<Poll>, mark: Mark, now: int, batch: seq<Poll>, p: Poll)
    requires IsBatch(polls, mark, now, batch) && p in polls && p.id <= MAX_ID
    ensures p in batch <==> Past(p, mark) && !Past(p, Reached(batch, now))
  {
    assert |batch| == POLL_EXPIRY_BATCH ==> batch[|batch| - 1] in batch;
    if p in batch && |batch| == POLL_EXPIRY_BATCH {
      var i :| 0 <= i < |batch| && batch[i] == p;
      assert i == |batch| - 1 || EndsBefore(batch[i], batch[|batch| - 1]);
    }
  }

  /** A full batch moves the mark strictly on; any other moves it to now. */
  lemma MarkMovesOn(s: State, from: Mark, batch: seq<Poll>)
    requires Sane(from, s) && IsBatch(s.polls, s.mark.value, s.now, batch)
    ensures Sane(from, s.(mark := Some(Reached(batch, s.now)), handled := s.handled + batch))
    ensures NotBefore(Reached(batch, s.now), s.mark.value)
    ensures |batch| == POLL_EXPIRY_BATCH ==> Reached(batch, s.now) != s.mark.value
  {
    if |batch| == POLL_EXPIRY_BATCH {
      assert batch[|batch| - 1] in batch;
    }
  }

  lemma JoinInOrder(a: seq<Poll>, b: seq<Poll>)
    requires InOrder(a) && InOrder(b)
    requires forall p, q :: p in a && q in b ==> EndsBefore(p, q)
    ensures InOrder(a + b)
  {
    var s := a + b;
    forall i, j | 0 <= i < j < |s| ensures EndsBefore(s[i], s[j]) {
      if i < |a| <= j {
        assert s[i] in a && s[j] in b;
      }
    }
  }

  lemma PassKeepsOnce(from: Mark, s: State, batch: seq<Poll>)
    requires HandledOnce(from, s) && IsBatch(s.polls, s.mark.value, s.now, batch)
    ensures HandledOnce(from, s.(mark := Some(Reached(batch, s.now)), handled := s.handled + batch))
  {
    var mark := s.mark.value;
    MarkMovesOn(s, from, batch);
    forall p | p in s.polls
      ensures p in batch <==> Past(p, mark) && !Past(p, Reached(batch, s.now))
    {
      BatchIsWhatTheMarkPasses(s.polls, mark, s.now, batch, p);
    }
    JoinInOrder(s.handled, batch);
  }

  lemma SucceedingKeepsOnce(from: Mark, s: State, t: State)
    requires HandledOnce(from, s) && Succeeds(s, t)
    ensures HandledOnce(from, t)
  {
    if Passes(s, t) {
      var batch :| IsBatch(s.polls, Start(s.mark, s.now), s.now, batch)
        && t == s.(mark := Some(Reached(batch, s.now)), handled := s.handled + batch);
      PassKeepsOnce(from, s, batch);
    }
  }

  ghost predicate Runs(states: seq<State>, failing: bool) {
    && states != []
    && forall i :: 0 <= i < |states| - 1 ==>
         if failing then Steps(states[i], states[i + 1]) else Succeeds(states[i], states[i + 1])
  }

  lemma {:induction false} RunKeepsOnce(from: Mark, states: seq<State>)
    requires Runs(states, false) && HandledOnce(from, states[0])
    ensures HandledOnce(from, states[|states| - 1])
    decreases |states|
  {
    var n := |states| - 1;
    if 0 < n {
      assert Runs(states[..n], false);
      RunKeepsOnce(from, states[..n]);
      assert Succeeds(states[n - 1], states[n]);
      SucceedingKeepsOnce(from, states[n - 1], states[n]);
    }
  }

  /** A process that starts with no mark: its first pass begins two minutes
      back. From then, as long as passes succeed, every poll that ends after
      that and up to the mark is handled exactly once, in the order they end;
      and a pass that did not fill its batch has caught up with the clock. */
  lemma EveryPollOnceInOrder(s0: State, states: seq<State>)
    requires s0.mark.None? && s0.handled == [] && (forall p :: p in s0.polls ==> p.id <= MAX_ID)
    requires Runs(states, false) && Passes(s0, states[0])
    ensures var s := states[|states| - 1];
            && HandledOnce(Mark(s0.now - 120, MAX_ID), s)
            && (s.mark == Some(Mark(s.now, MAX_ID)) ==>
                  forall p :: p in s.handled <==> p in s.polls && s0.now - 120 < p.endsAt <= s.now)
  {
    var from := Mark(s0.now - 120, MAX_ID);
    var begun := s0.(mark := Some(from));
    assert HandledOnce(from, begun);
    var batch :| IsBatch(s0.polls, from, s0.now, batch)
      && states[0] == s0.(mark := Some(Reached(batch, s0.now)), handled := s0.handled + batch);
    PassKeepsOnce(from, begun, batch);
    RunKeepsOnce(from, states);
  }

  lemma StepKeepsNoneMissed(from: Mark, s: State, t: State)
    requires NoneMissed(from, s) && Steps(s, t)
    ensures NoneMissed(from, t)
  {
    if Passes(s, t) {
      var batch :| IsBatch(s.polls, Start(s.mark, s.now), s.now, batch)
        && t == s.(mark := Some(Reached(batch, s.now)), handled := s.handled + batch);
      MarkMovesOn(s, from, batch);
      forall p | p in s.polls && !Past(p, t.mark.value) && Past(p, from) ensures p in t.handled {
        BatchIsWhatTheMarkPasses(s.polls, s.mark.value, s.now, batch, p);
      }
    }
  }

  ghost predicate NotBegun(s: State) {
    && s.mark.None?
    && (forall p :: p in s.polls ==> p.id <= MAX_ID)
    && (forall p :: p in s.handled ==> p in s.polls)
  }

  /** The first pass to succeed sets the mark, whatever failed before it. */
  lemma FirstSuccessMissesNone(s: State, t: State)
    requires NotBegun(s) && Passes(s, t)
    ensures NoneMissed(Mark(s.now - 120, MAX_ID), t)
    ensures forall p :: p in s.polls && s.now - 120 < p.endsAt <= t.mark.value.endsAt && !Past(p, t.mark.value) ==>
              p in t.handled
  {
    var from := Mark(s.now - 120, MAX_ID);
    var batch :| IsBatch(s.polls, from, s.now, batch)
      && t == s.(mark := Some(Reached(batch, s.now)), handled := s.handled + batch);
    var begun := s.(mark := Some(from));
    MarkMovesOn(begun, from, batch);
    forall p | p in s.polls && Past(p, from) && !Past(p, t.mark.value) ensures p in t.handled {
      BatchIsWhatTheMarkPasses(s.polls, from, s.now, batch, p);
    }
  }

  /** Once there is a mark, failed passes may handle a poll again, but never
      let the mark go past one unhandled. */
  lemma {:induction false} FailuresMissNone(from: Mark, states: seq<State>)
    requires Runs(states, true) && NoneMissed(from, states[0])
    ensures NoneMissed(from, states[|states| - 1])
    decreases |states|
  {
    var n := |states| - 1;
    if 0 < n {
      assert Runs(states[..n], true);
      FailuresMissNone(from, states[..n]);
      assert Steps(states[n - 1], states[n]);
      StepKeepsNoneMissed(from, states[n - 1], states[n]);
    }
  }

  ghost predicate Begun(states: seq<State>, i: nat) {
    && i < |states| && states[i].mark.None?
    && NoneMissed(Mark(states[i].now - 120, MAX_ID), states[|states| - 1])
  }

  /** Over any run, passes failing or not: no pass has succeeded yet, or no poll
      that ended past the window of the first that did is missed. */
  lemma {:induction false} NoneMissedFromTheStart(states: seq<State>)
    requires Runs(states, true) && NotBegun(states[0])
    ensures NotBegun(states[|states| - 1]) || exists i: nat :: Begun(states, i)
    decreases |states|
  {
    var n := |states| - 1;
    if 0 < n {
      var earlier, s, t := states[..n], states[n - 1], states[n];
      assert Runs(earlier, true);
      NoneMissedFromTheStart(earlier);
      assert Steps(s, t);
      if NotBegun(s) {
        if Passes(s, t) {
          FirstSuccessMissesNone(s, t);
          assert Begun(states, n - 1);
        }
      } else {
        var i: nat :| Begun(earlier, i);
        StepKeepsNoneMissed(Mark(states[i].now - 120, MAX_ID), s, t);
        assert Begun(states, i);
      }
    }
  }

  // ── The notifier ────────────────────────────────────────────────────────

  class Notifier {
    var polls: set<Poll>
    var mark: Option<Mark>
    /** Everything the passes have handled. */
    var handled: seq<Poll>

    constructor (polls: set<Poll>)
      ensures this.polls == polls && mark == None && handled == []
    {
      this.polls, mark, handled := polls, None, [];
    }

    function At(now: int): State
      reads this
    {
      State(now, polls, mark, handled)
    }

    /** The query. */
    method SelectDue(mark: Mark, now: int) returns (batch: seq<Poll>)
      ensures IsBatch(polls, mark, now, batch)
      ensures |batch| <= 100 && (|batch| < 100 ==> forall p :: p in polls && Due(p, mark, now) ==> p in batch)
    {
      batch := [];
      var left := set p | p in polls && Due(p, mark, now);
      while left != {} && |batch| < POLL_EXPIRY_BATCH
        invariant |batch| <= POLL_EXPIRY_BATCH && InOrder(batch)
        invariant forall p :: p in polls && Due(p, mark, now) <==> p in left || p in batch
        invariant forall p, q :: p in batch && q in left ==> EndsBefore(p, q)
        decreases |left|
      {
        var next := First(left);
        JoinInOrder(batch, [next]);
        batch := batch + [next];
        left := left - {next};
      }
    }

    /** `notify_polls_expired_after` for the mark kept, when nothing fails. */
    method Pass(now: int) returns (full: bool)
      modifies this
      ensures Passes(old(At(now)), At(now)) && polls == old(polls)
      ensures full ==> mark.Some? && Left(polls, mark.value) < Left(polls, Start(old(mark), now))
      ensures old(mark).None? ==>
        forall p :: p in polls && now - 120 < p.endsAt <= now && p.id <= MAX_ID && !full ==> p in handled
      ensures !full ==> mark == Some(Mark(now, MAX_ID))
    {
      var start := Start(mark, now);
      var batch := SelectDue(start, now);
      full := |batch| == POLL_EXPIRY_BATCH;
      if full {
        LeftShrinks(polls, start, now, batch);
      }
      var i := 0;
      while i < |batch|
        invariant 0 <= i <= |batch| && handled == old(handled) + batch[..i]
        invariant polls == old(polls) && mark == old(mark)
      {
        handled := handled + [batch[i]];
        i := i + 1;
      }
      assert batch[..i] == batch;
      mark := Some(Reached(batch, now));
    }

    /** `run_poll_expiry`, from waking up to sleeping again: passes for as long
        as they fill their batches, each reading the clock anew. */
    method RunToIdle(clock: nat -> int) returns (passes: nat)
      requires forall i, j :: i <= j ==> clock(i) <= clock(j)
      modifies this
      ensures polls == old(polls) && 0 < passes
      ensures mark == Some(Mark(clock(passes - 1), MAX_ID))
      ensures forall from :: HandledOnce(from, old(At(clock(0)))) ==> HandledOnce(from, At(clock(passes - 1)))
    {
      var full := Pass(clock(0));
      passes := 1;
      forall from | HandledOnce(from, old(At(clock(0)))) ensures HandledOnce(from, At(clock(0))) {
        SucceedingKeepsOnce(from, old(At(clock(0))), At(clock(0)));
      }
      while full
        invariant polls == old(polls) && mark.Some? && 0 < passes
        invariant !full ==> mark == Some(Mark(clock(passes - 1), MAX_ID))
        invariant forall from :: HandledOnce(from, old(At(clock(0)))) ==> HandledOnce(from, At(clock(passes - 1)))
        decreases full, Left(polls, mark.value)
      {
        ghost var before, ticked := At(clock(passes - 1)), At(clock(passes));
        full := Pass(clock(passes));
        passes := passes + 1;
        forall from | HandledOnce(from, old(At(clock(0)))) ensures HandledOnce(from, At(clock(passes - 1))) {
          SucceedingKeepsOnce(from, before, ticked);
          SucceedingKeepsOnce(from, ticked, At(clock(passes - 1)));
        }
      }
    }
  }

  function Left(polls: set<Poll>, mark: Mark): nat {
    |set p | p in polls && Past(p, mark)|
  }

  lemma LeftShrinks(polls: set<Poll>, mark: Mark, now: int, batch: seq<Poll>)
    requires IsBatch(polls, mark, now, batch) && |batch| == POLL_EXPIRY_BATCH
    ensures Left(polls, Reached(batch, now)) < Left(polls, mark)
  {
    var last := batch[|batch| - 1];
    assert last in batch;
    var before, after := set p | p in polls && Past(p, mark), set p | p in polls && Past(p, Reached(batch, now));
    assert after < before by {
      assert last in before && last !in after;
    }
    SmallerSet(after, before);
  }

  lemma {:induction false} SmallerSet<T>(a: set<T>, b: set<T>)
    requires a < b
    ensures |a| < |b|
  {
    var x :| x in b && x !in a;
    assert x in b - a;
    assert |b| == |b - a| + |a| by {
      assert b == (b - a) + a;
    }
  }

  ghost predicate IsFirst(polls: set<Poll>, p: Poll) {
    p in polls && forall q :: q in polls && q != p ==> EndsBefore(p, q)
  }

  lemma {:induction false} FirstExists(polls: set<Poll>)
    requires polls != {}
    ensures exists p :: IsFirst(polls, p)
    decreases |polls|
  {
    var x :| x in polls;
    if polls == {x} {
      assert IsFirst(polls, x);
    } else {
      var rest := polls - {x};
      assert rest != {};
      FirstExists(rest);
      var p :| IsFirst(rest, p);
      assert polls == rest + {x};
      var first := if EndsBefore(p, x) then p else x;
      assert forall q :: q in polls && q != first ==> EndsBefore(first, q);
      assert IsFirst(polls, first);
    }
  }

  function First(polls: set<Poll>): (p: Poll)
    requires polls != {}
    ensures IsFirst(polls, p)
  {
    FirstExists(polls);
    var p :| p in polls && forall q :: q in polls && q != p ==> EndsBefore(p, q);
    p
  }
}
