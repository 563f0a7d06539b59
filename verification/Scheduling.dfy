/** Publishing scheduled statuses: which are due, how a failure backs off and is
    given up on, and how long the loop naps in between. Times are in
    microseconds, as the database keeps them. */
module Scheduling {
  import opened Basics

  const MINUTE: nat := 60_000_000
  const MAX_ATTEMPTS: nat := 8
  const PASS_LIMIT: nat := 50

  /** A row of `scheduled_status_attempts`. */
  datatype Attempt = Attempt(attempts: nat, runAt: int, failedAt: Option<int>)

  /** A scheduled status, with its attempts row if it has one. Its author may
      have taken its time away. */
  datatype Row = Row(scheduledAt: Option<int>, attempt: Option<Attempt>) {
    predicate Parked() {
      attempt.Some? && attempt.value.failedAt.Some?
    }

    /** Whether its time has come and, if it has failed, so has its retry. */
    predicate Reached(now: int) {
      && scheduledAt.Some? && scheduledAt.value <= now
      && (attempt.None? || attempt.value.runAt <= now)
    }
  }

  function Pow2(n: nat): nat {
    if n == 0 then 1 else 2 * Pow2(n - 1)
  }

  function Least(a: int, b: int): int {
    if a < b then a else b
  }

  function Greatest(a: int, b: int): int {
    if a < b then b else a
  }

  // ── Which are due ───────────────────────────────────────────────────────

  /** `publish_due_statuses`'s WHERE. */
  predicate Selectable(row: Row, now: int) {
    row.Reached(now) && !row.Parked()
  }

  /** `GREATEST(scheduled_at, run_at)`, which passes over either if missing. */
  function DueAt(row: Row): Option<int> {
    match (row.scheduledAt, row.attempt)
    case (Some(at), Some(a)) => Some(Greatest(at, a.runAt))
    case (None, Some(a)) => Some(a.runAt)
    case (at, None) => at
  }

  /** A row `min` looks at: not parked, and due some time. */
  predicate Waiting(row: Row) {
    !row.Parked() && DueAt(row).Some?
  }

  /** `next_scheduled_status_due`: how long until the first of those not
      parked falls due. */
  ghost predicate IsNextDue(rows: map<Id, Row>, now: int, due: Option<int>) {
    match due
    case None => forall id :: id in rows ==> !Waiting(rows[id])
    case Some(d) =>
      && (exists id :: id in rows && Waiting(rows[id]) && DueAt(rows[id]).value - now == d)
      && (forall id :: id in rows && Waiting(rows[id]) ==> d <= DueAt(rows[id]).value - now)
  }

  /** A schedule that has failed, whose retry has come, and whose time its
      author has taken away: no query selects it. */
  predicate Unset(row: Row, now: int) {
    !row.Parked() && row.scheduledAt.None? && row.attempt.Some? && row.attempt.value.runAt <= now
  }

  ghost predicate AnySelectable(rows: map<Id, Row>, now: int) {
    exists id :: id in rows && Selectable(rows[id], now)
  }

  ghost predicate AnyUnset(rows: map<Id, Row>, now: int) {
    exists id :: id in rows && Unset(rows[id], now)
  }

  lemma DueOrUnset(row: Row, now: int)
    ensures Waiting(row) && DueAt(row).value <= now <==> Selectable(row, now) || Unset(row, now)
  {
  }

  /** The wait is over exactly when there is something to publish, or something
      unset. So it is over exactly when there is something to publish, if and
      only if what is unset never comes alone. */
  lemma DueExactlyWhenSelectable(rows: map<Id, Row>, now: int, due: Option<int>)
    requires IsNextDue(rows, now, due)
    ensures due.Some? && due.value <= 0 <==> AnySelectable(rows, now) || AnyUnset(rows, now)
    ensures (due.Some? && due.value <= 0 <==> AnySelectable(rows, now))
       <==> (AnyUnset(rows, now) ==> AnySelectable(rows, now))
  {
    if due.Some? && due.value <= 0 {
      var id :| id in rows && Waiting(rows[id]) && DueAt(rows[id]).value - now == due.value;
      DueOrUnset(rows[id], now);
    }
    if id :| id in rows && (Selectable(rows[id], now) || Unset(rows[id], now)) {
      DueOrUnset(rows[id], now);
      assert Waiting(rows[id]);
    }
  }

  /** A row unset and alone: due, and nothing to publish, from then on. */
  lemma UnsetAloneIsDueForNothing(now: int)
    requires 0 <= now
    ensures var rows := map[1 := Row(None, Some(Attempt(1, 0, None)))];
            IsNextDue(rows, now, Some(-now)) && !AnySelectable(rows, now)
  {
    var rows: map<Id, Row> := map[1 := Row(None, Some(Attempt(1, 0, None)))];
    assert 1 in rows && Waiting(rows[1]) && DueAt(rows[1]) == Some(0);
  }

  // ── Trying, backing off and giving up ───────────────────────────────────

  datatype Outcome = Published | Permanent | Transient

  /** What trying a schedule comes to, and when. */
  datatype Trial = Trial(outcome: Outcome, ended: int)

  /** The wait after the `n`th attempt: a minute, doubled each time, up to an
      hour. */
  function Backoff(n: nat): nat
    requires 0 < n
  {
    Least(60 * MINUTE, MINUTE * Pow2(n - 1))
  }

  /** `record_publish_failure`. */
  function Failure(attempt: Option<Attempt>, now: int): Attempt {
    match attempt
    case None => Attempt(1, now + MINUTE, if 1 >= MAX_ATTEMPTS then Some(now) else None)
    case Some(a) =>
      Attempt(a.attempts + 1,
              now + Least(60 * MINUTE, MINUTE * Pow2(a.attempts)),
              if a.attempts + 1 >= MAX_ATTEMPTS then Some(now) else a.failedAt)
  }

  /** One attempt: the pass that began it, when it had come to its end, and what
      it came to. */
  datatype Try = Try(began: int, ended: int, outcome: Outcome)

  /** The rows, and the attempts at each schedule. */
  datatype State = State(rows: map<Id, Row>, tried: map<Id, seq<Try>>) {
    function Tries(id: Id): seq<Try> {
      if id in tried then tried[id] else []
    }
  }

  /** One row of a pass: forgotten if published or never to be, or kept with
      its failure counted. */
  function TryOne(s: State, id: Id, now: int, trial: Trial): State {
    if id !in s.rows then s
    else
      var tried := s.tried[id := s.Tries(id) + [Try(now, trial.ended, trial.outcome)]];
      if trial.outcome.Transient? then
        var row := s.rows[id];
        State(s.rows[id := row.(attempt := Some(Failure(row.attempt, trial.ended)))], tried)
      else
        State(s.rows - {id}, tried)
  }

  function TryAll(s: State, ids: seq<Id>, now: int, trials: Id -> Trial): State {
    if ids == [] then s
    else
      var last := ids[|ids| - 1];
      TryOne(TryAll(s, ids[..|ids| - 1], now, trials), last, now, trials(last))
  }

  /** The rows with times before one another; one with none sorts nowhere. */
  predicate NotAfter(a: Row, b: Row) {
    a.scheduledAt.Some? && b.scheduledAt.Some? && a.scheduledAt.value <= b.scheduledAt.value
  }

  ghost predicate ByTime(rows: map<Id, Row>, ids: seq<Id>)
    requires forall id :: id in ids ==> id in rows
  {
    forall i, j :: 0 <= i < j < |ids| ==> NotAfter(rows[ids[i]], rows[ids[j]])
  }

  lemma OneMoreByTime(rows: map<Id, Row>, ids: seq<Id>, next: Id)
    requires next in rows && (forall id :: id in ids ==> id in rows)
    requires ByTime(rows, ids) && Distinct(ids) && next !in ids
    requires forall id :: id in ids ==> NotAfter(rows[id], rows[next])
    ensures forall id :: id in ids + [next] ==> id in rows
    ensures ByTime(rows, ids + [next]) && Distinct(ids + [next])
  {
  }

  /** `ORDER BY scheduled_at LIMIT 50` of the selectable rows. */
  ghost predicate IsSelection(rows: map<Id, Row>, now: int, ids: seq<Id>) {
    && Distinct(ids) && |ids| <= PASS_LIMIT
    && (forall id :: id in ids ==> id in rows && Selectable(rows[id], now))
    && ByTime(rows, ids)
    && (forall id :: id in rows && Selectable(rows[id], now) && id !in ids ==>
          |ids| == PASS_LIMIT && NotAfter(rows[ids[|ids| - 1]], rows[id]))
  }

  datatype Event =
    | Schedules(id: Id, scheduledAt: Option<int>)
    | Cancels(id: Id)
    | Passes(now: int, ids: seq<Id>, trials: Id -> Trial)

  /** A schedule is made, or moved or its time taken away, or cancelled, or a
      pass tries what is due. */
  ghost predicate Steps(s: State, e: Event, t: State) {
    match e
    case Schedules(id, at) =>
      if id in s.rows then t == s.(rows := s.rows[id := s.rows[id].(scheduledAt := at)])
      else id !in s.tried && at.Some? && t == s.(rows := s.rows[id := Row(at, None)])
    case Cancels(id) => t == s.(rows := s.rows - {id})
    case Passes(now, ids, trials) =>
      && IsSelection(s.rows, now, ids) && (forall id :: id in ids ==> now <= trials(id).ended)
      && t == TryAll(s, ids, now, trials)
  }

  /** A schedule that has failed and whose time is then taken away is unset from
      its retry on: whatever else there is to do, the wait is over for good. */
  lemma TakingTheTimeAwayUnsets(s: State, id: Id, t: State, now: int, due: Option<int>)
    requires id in s.rows && !s.rows[id].Parked() && s.rows[id].attempt.Some?
    requires Steps(s, Schedules(id, None), t)
    requires s.rows[id].attempt.value.runAt <= now && IsNextDue(t.rows, now, due)
    ensures Unset(t.rows[id], now) && !Selectable(t.rows[id], now)
    ensures due.Some? && due.value <= 0
  {
    assert Unset(t.rows[id], now);
    DueExactlyWhenSelectable(t.rows, now, due);
  }

  /** The attempts at one schedule: at most eight, none after one that published
      it or never will, and each begun no sooner than the backoff after the end
      of the one before. */
  ghost predicate Spaced(tries: seq<Try>) {
    && |tries| <= 8
    && (forall i :: 0 <= i < |tries| - 1 ==> tries[i].outcome.Transient?)
    && (forall i :: 0 <= i < |tries| ==> tries[i].began <= tries[i].ended)
    && (forall i :: 0 < i < |tries| ==> tries[i - 1].ended + Backoff(i) <= tries[i].began)
  }

  /** A row counts its attempts, all of which failed, waits out the backoff of
      the last, and is parked exactly when eight are spent. */
  ghost predicate Counted(row: Row, tries: seq<Try>) {
    (forall t :: t in tries ==> t.outcome.Transient?) &&
    match row.attempt
    case None => tries == []
    case Some(a) =>
      && 0 < |tries| == a.attempts
      && a.runAt == tries[|tries| - 1].ended + Backoff(|tries|)
      && (a.failedAt.Some? <==> |tries| == MAX_ATTEMPTS)
  }

  ghost predicate KeepsCount(s: State) {
    && (forall id :: Spaced(s.Tries(id)))
    && (forall id :: id in s.rows ==> Counted(s.rows[id], s.Tries(id)))
  }

  lemma OneMoreTry(tries: seq<Try>, next: Try)
    requires Spaced(tries) && |tries| < MAX_ATTEMPTS && next.began <= next.ended
    requires forall t :: t in tries ==> t.outcome.Transient?
    requires tries != [] ==> tries[|tries| - 1].ended + Backoff(|tries|) <= next.began
    ensures Spaced(tries + [next])
  {
    var more := tries + [next];
    assert forall i :: 0 <= i < |tries| ==> more[i] == tries[i];
  }

  lemma FailureCounts(row: Row, tries: seq<Try>, next: Try)
    requires Counted(row, tries) && |tries| < 8 && next.outcome.Transient?
    ensures Counted(row.(attempt := Some(Failure(row.attempt, next.ended))), tries + [next])
  {
    assert Pow2(0) == 1;
    assert (tries + [next])[|tries|] == next;
  }

  lemma TryKeepsCount(s: State, id: Id, now: int, trial: Trial)
    requires KeepsCount(s) && id in s.rows && Selectable(s.rows[id], now) && now <= trial.ended
    ensures KeepsCount(TryOne(s, id, now, trial))
  {
    var t, next := TryOne(s, id, now, trial), Try(now, trial.ended, trial.outcome);
    assert Counted(s.rows[id], s.Tries(id));
    OneMoreTry(s.Tries(id), next);
    assert t.Tries(id) == s.Tries(id) + [next];
    if trial.outcome.Transient? {
      FailureCounts(s.rows[id], s.Tries(id), next);
    }
    OthersKeepCount(s, t, id);
  }

  lemma OthersKeepCount(s: State, t: State, id: Id)
    requires KeepsCount(s)
    requires Spaced(t.Tries(id)) && (id in t.rows ==> Counted(t.rows[id], t.Tries(id)))
    requires forall other :: other != id ==> t.Tries(other) == s.Tries(other)
    requires forall other :: other != id && other in t.rows ==> other in s.rows && t.rows[other] == s.rows[other]
    ensures KeepsCount(t)
  {
    forall other ensures Spaced(t.Tries(other)) {
      assert other != id ==> t.Tries(other) == s.Tries(other);
    }
  }

  /** Rows may come, go and move: what counts is their attempts. */
  lemma SameAttemptsKeepCount(s: State, t: State)
    requires KeepsCount(s) && t.tried == s.tried
    requires forall id :: id in t.rows ==>
      if id in s.rows then t.rows[id].attempt == s.rows[id].attempt
      else t.rows[id].attempt.None? && s.Tries(id) == []
    ensures KeepsCount(t)
  {
    forall id ensures Spaced(t.Tries(id)) {
      assert t.Tries(id) == s.Tries(id);
    }
    forall id | id in t.rows ensures Counted(t.rows[id], t.Tries(id)) {
      assert t.Tries(id) == s.Tries(id);
      if id in s.rows {
        SameAttemptCounted(s.rows[id], t.rows[id], s.Tries(id));
      }
    }
  }

  lemma SameAttemptCounted(a: Row, b: Row, tries: seq<Try>)
    requires Counted(a, tries) && b.attempt == a.attempt
    ensures Counted(b, tries)
  {
  }

  lemma {:induction false} PassTouchesOnly(s: State, ids: seq<Id>, now: int, trials: Id -> Trial, id: Id)
    requires id !in ids
    ensures var t := TryAll(s, ids, now, trials);
            (id in t.rows <==> id in s.rows) && (id in s.rows ==> t.rows[id] == s.rows[id])
    decreases |ids|
  {
    if ids != [] {
      var rest := ids[..|ids| - 1];
      assert ids[|ids| - 1] in ids && forall i :: i in rest ==> i in ids;
      PassTouchesOnly(s, rest, now, trials, id);
    }
  }

  lemma {:induction false} PassKeepsCount(s: State, ids: seq<Id>, now: int, trials: Id -> Trial)
    requires KeepsCount(s) && Distinct(ids)
    requires forall id :: id in ids ==>
      id in s.rows && Selectable(s.rows[id], now) && now <= trials(id).ended
    ensures KeepsCount(TryAll(s, ids, now, trials))
    decreases |ids|
  {
    if ids != [] {
      var rest, last := ids[..|ids| - 1], ids[|ids| - 1];
      forall id | id in rest ensures id in ids { }
      PassKeepsCount(s, rest, now, trials);
      assert last !in rest && last in ids;
      PassTouchesOnly(s, rest, now, trials, last);
      TryKeepsCount(TryAll(s, rest, now, trials), last, now, trials(last));
    }
  }

  ghost predicate Runs(states: seq<State>, events: seq<Event>) {
    && |states| == |events| + 1
    && forall i :: 0 <= i < |events| ==> Steps(states[i], events[i], states[i + 1])
  }

  lemma StepKeepsCount(s: State, e: Event, t: State)
    requires KeepsCount(s) && Steps(s, e, t)
    ensures KeepsCount(t)
  {
    match e
    case Schedules(_, _) => SameAttemptsKeepCount(s, t);
    case Cancels(_) => SameAttemptsKeepCount(s, t);
    case Passes(now, ids, trials) => PassKeepsCount(s, ids, now, trials);
  }

  /** Over any run, no schedule is tried more than eight times, and each retry
      waits out its backoff. */
  lemma {:induction false} NeverTriedTooOftenOrTooSoon(states: seq<State>, events: seq<Event>)
    requires Runs(states, events) && KeepsCount(states[0])
    ensures KeepsCount(states[|states| - 1])
    decreases |events|
  {
    var n := |events|;
    if 0 < n {
      assert Runs(states[..n], events[..n - 1]);
      NeverTriedTooOftenOrTooSoon(states[..n], events[..n - 1]);
      assert Steps(states[n - 1], events[n - 1], states[n]);
      StepKeepsCount(states[n - 1], events[n - 1], states[n]);
    }
  }

  /** What a pass does to each row it tries: it goes if it was published or never
      will be, and stays, with the failure counted, if it is to be retried. */
  lemma {:induction false} PassDecides(
    s: State, ids: seq<Id>, now: int, trials: Id -> Trial, id: Id)
    requires Distinct(ids) && id in ids && id in s.rows
    ensures var t := TryAll(s, ids, now, trials);
            && id in t.tried
            && (id in t.rows <==> trials(id).outcome.Transient?)
            && (trials(id).outcome.Transient? ==>
                  t.rows[id] == s.rows[id].(attempt := Some(Failure(s.rows[id].attempt, trials(id).ended))))
    decreases |ids|
  {
    var rest, last := ids[..|ids| - 1], ids[|ids| - 1];
    if id == last {
      assert id !in rest;
      PassTouchesOnly(s, rest, now, trials, id);
    } else {
      assert id in rest;
      PassDecides(s, rest, now, trials, id);
    }
  }

  lemma PassComesTo(s: State, ids: seq<Id>, now: int, trials: Id -> Trial)
    requires IsSelection(s.rows, now, ids) && forall id :: id in ids ==> now <= trials(id).ended
    ensures KeepsCount(s) ==> KeepsCount(TryAll(s, ids, now, trials))
    ensures forall id :: id in ids ==> (id in TryAll(s, ids, now, trials).rows <==> trials(id).outcome.Transient?)
  {
    if KeepsCount(s) {
      PassKeepsCount(s, ids, now, trials);
    }
    forall id | id in ids ensures id in TryAll(s, ids, now, trials).rows <==> trials(id).outcome.Transient? {
      PassDecides(s, ids, now, trials, id);
    }
  }

  /** Tried and gone. */
  ghost predicate Settled(s: State, id: Id) {
    id in s.tried && id !in s.rows
  }

  lemma {:induction false} PassKeepsTried(s: State, ids: seq<Id>, now: int, trials: Id -> Trial, id: Id)
    requires id in s.tried
    ensures id in TryAll(s, ids, now, trials).tried
    decreases |ids|
  {
    if ids != [] {
      PassKeepsTried(s, ids[..|ids| - 1], now, trials, id);
    }
  }

  lemma StepKeepsSettled(s: State, e: Event, t: State, id: Id)
    requires Steps(s, e, t) && Settled(s, id)
    ensures Settled(t, id) && (e.Passes? ==> id !in e.ids)
  {
    if e.Passes? {
      PassTouchesOnly(s, e.ids, e.now, e.trials, id);
      PassKeepsTried(s, e.ids, e.now, e.trials, id);
    }
  }

  /** Over any run, a schedule that some pass publishes, or finds it never can,
      is in no later state and tried by no later pass; one it is to retry is
      there right after. */
  lemma {:induction false} PublishedIsForgottenForGood(
    states: seq<State>, events: seq<Event>, i: nat, j: nat, id: Id)
    requires Runs(states, events) && i < j <= |events|
    requires events[i].Passes? && id in events[i].ids
    ensures id in states[i + 1].rows <==> events[i].trials(id).outcome.Transient?
    ensures !events[i].trials(id).outcome.Transient? ==>
      Settled(states[j], id) && (j < |events| && events[j].Passes? ==> id !in events[j].ids)
    decreases j
  {
    assert Steps(states[i], events[i], states[i + 1]);
    PassDecides(states[i], events[i].ids, events[i].now, events[i].trials, id);
    if i + 1 < j {
      PublishedIsForgottenForGood(states, events, i, j - 1, id);
      assert Steps(states[j - 1], events[j - 1], states[j]);
    }
    if !events[i].trials(id).outcome.Transient? {
      if i + 1 < j {
        StepKeepsSettled(states[j - 1], events[j - 1], states[j], id);
      }
      if j < |events| {
        assert Steps(states[j], events[j], states[j + 1]);
        StepKeepsSettled(states[j], events[j], states[j + 1], id);
      }
    }
  }

  /** So at most one attempt at a schedule ever publishes it, and it is the last. */
  lemma PublishedAtMostOnce(states: seq<State>, events: seq<Event>, id: Id, i: nat, j: nat)
    requires Runs(states, events) && KeepsCount(states[0])
    requires var tries := states[|states| - 1].Tries(id);
             i < |tries| && j < |tries| && tries[i].outcome.Published? && tries[j].outcome.Published?
    ensures i == j == |states[|states| - 1].Tries(id)| - 1
  {
    NeverTriedTooOftenOrTooSoon(states, events);
    assert Spaced(states[|states| - 1].Tries(id));
  }

  /** The waits in full: one, two, four, eight, sixteen and thirty-two minutes,
      and then an hour. */
  lemma BackoffInMinutes(n: nat)
    requires 0 < n
    ensures Backoff(n) == [1, 2, 4, 8, 16, 32, 60][if n < 7 then n - 1 else 6] * MINUTE
  {
    assert Pow2(0) == 1 && Pow2(1) == 2 && Pow2(2) == 4;
    assert Pow2(3) == 8 && Pow2(4) == 16 && Pow2(5) == 32 && Pow2(6) == 64;
    if 7 <= n {
      Pow2Grows(6, n - 1);
    }
  }

  lemma {:induction false} Pow2Grows(m: nat, n: nat)
    requires m <= n
    ensures Pow2(m) <= Pow2(n)
    decreases n
  {
    if m < n {
      Pow2Grows(m, n - 1);
    }
  }

  /** In any run a row is there to be tried exactly when its time has come, it
      has failed fewer than eight times, and the wait since the last is over. */
  lemma SelectableExactlyWhen(row: Row, tries: seq<Try>, now: int)
    requires Counted(row, tries) && |tries| <= 8
    ensures Selectable(row, now) <==>
      && row.scheduledAt.Some? && row.scheduledAt.value <= now && |tries| < 8
      && (tries != [] ==> tries[|tries| - 1].ended + Backoff(|tries|) <= now)
  {
  }

  ghost predicate ParkedAs(s: State, id: Id, attempt: Attempt) {
    && id in s.rows && s.rows[id].attempt == Some(attempt) && attempt.failedAt.Some?
  }

  lemma StepKeepsParked(s: State, e: Event, t: State, id: Id, attempt: Attempt)
    requires Steps(s, e, t) && ParkedAs(s, id, attempt)
    ensures e.Passes? ==> id !in e.ids
    ensures (e.Cancels? && e.id == id) || ParkedAs(t, id, attempt)
  {
    if e.Passes? {
      PassTouchesOnly(s, e.ids, e.now, e.trials, id);
    }
  }

  /** A parked schedule is kept, however many passes follow, until its author
      cancels it, and none of them tries it. */
  lemma {:induction false} ParkedIsKeptAndLeftAlone(
    states: seq<State>, events: seq<Event>, id: Id, attempt: Attempt)
    requires Runs(states, events) && ParkedAs(states[0], id, attempt)
    requires forall i :: 0 <= i < |events| ==> !(events[i].Cancels? && events[i].id == id)
    ensures ParkedAs(states[|events|], id, attempt)
    ensures forall i :: 0 <= i < |events| && events[i].Passes? ==> id !in events[i].ids
    decreases |events|
  {
    var n := |events|;
    if 0 < n {
      assert Runs(states[..n], events[..n - 1]);
      ParkedIsKeptAndLeftAlone(states[..n], events[..n - 1], id, attempt);
      assert Steps(states[n - 1], events[n - 1], states[n]);
      StepKeepsParked(states[n - 1], events[n - 1], states[n], id, attempt);
      assert forall i :: 0 <= i < n - 1 ==> events[..n - 1][i] == events[i];
    }
  }

  /** The eighth attempt comes at least 123 minutes after the end of the first. */
  lemma EighthAttemptComesLate(tries: seq<Try>)
    requires Spaced(tries) && |tries| == MAX_ATTEMPTS
    ensures tries[0].ended + 123 * MINUTE <= tries[7].began
  {
    assert Pow2(0) == 1 && Pow2(1) == 2 && Pow2(2) == 4;
    assert Pow2(3) == 8 && Pow2(4) == 16 && Pow2(5) == 32 && Pow2(6) == 64;
    forall i | 0 < i < 8 ensures tries[i - 1].ended + Backoff(i) <= tries[i].ended {
      assert tries[i].began <= tries[i].ended;
    }
    assert tries[0].ended + Backoff(1) <= tries[1].ended && tries[1].ended + Backoff(2) <= tries[2].ended;
    assert tries[2].ended + Backoff(3) <= tries[3].ended && tries[3].ended + Backoff(4) <= tries[4].ended;
    assert tries[4].ended + Backoff(5) <= tries[5].ended && tries[5].ended + Backoff(6) <= tries[6].ended;
    assert tries[6].ended + Backoff(7) <= tries[7].began;
  }

  // ── The publisher ───────────────────────────────────────────────────────

  class Publisher {
    var rows: map<Id, Row>
    ghost var tried: map<Id, seq<Try>>

    ghost function View(): State
      reads this
    {
      State(rows, tried)
    }

    /** The query. */
    method SelectDue(now: int) returns (ids: seq<Id>)
      ensures IsSelection(rows, now, ids)
      ensures |ids| <= 50 && (|ids| < 50 ==> forall id :: id in rows && Selectable(rows[id], now) ==> id in ids)
    {
      ids := [];
      var left := set id | id in rows && Selectable(rows[id], now);
      while left != {} && |ids| < PASS_LIMIT
        invariant |ids| <= PASS_LIMIT && Distinct(ids)
        invariant forall id :: id in rows && Selectable(rows[id], now) <==> id in left || id in ids
        invariant forall id :: id in ids ==> id !in left
        invariant ByTime(rows, ids)
        invariant forall a, b :: a in ids && b in left ==> NotAfter(rows[a], rows[b])
        decreases |left|
      {
        var next := Earliest(rows, left);
        OneMoreByTime(rows, ids, next);
        ids := ids + [next];
        left := left - {next};
      }
    }

    /** `record_publish_failure`: the upsert, then parking when attempts run
        out. */
    method RecordFailure(id: Id, now: int)
      requires id in rows
      modifies this`rows
      ensures rows == old(rows)[id := old(rows[id]).(attempt := Some(Failure(old(rows[id]).attempt, now)))]
    {
      var row := rows[id];
      var attempt := match row.attempt
        case None => Attempt(1, now + MINUTE, None)
        case Some(a) => Attempt(a.attempts + 1, now + Least(60 * MINUTE, MINUTE * Pow2(a.attempts)), a.failedAt);
      if attempt.attempts >= MAX_ATTEMPTS {
        attempt := attempt.(failedAt := Some(now));
      }
      rows := rows[id := row.(attempt := Some(attempt))];
    }

    /** `publish_due_statuses`, given what trying each would come to, and when. */
    method PublishDue(now: int, trials: Id -> Trial) returns (ids: seq<Id>)
      requires forall id :: now <= trials(id).ended
      modifies this
      ensures Steps(old(View()), Passes(now, ids, trials), View())
      ensures KeepsCount(old(View())) ==> KeepsCount(View())
      ensures forall id :: id in ids ==> (id in rows <==> trials(id).outcome.Transient?)
    {
      ids := SelectDue(now);
      ghost var before := View();
      for i := 0 to |ids|
        invariant View() == TryAll(before, ids[..i], now, trials)
      {
        TryNext(before, ids, now, trials, i);
        TryOnRow(ids[i], now, trials(ids[i]));
      }
      assert ids[..|ids|] == ids;
      PassComesTo(before, ids, now, trials);
    }

    /** One row of the pass. */
    method TryOnRow(id: Id, now: int, trial: Trial)
      requires id in rows
      modifies this
      ensures View() == TryOne(old(View()), id, now, trial)
    {
      tried := tried[id := View().Tries(id) + [Try(now, trial.ended, trial.outcome)]];
      if trial.outcome.Transient? {
        RecordFailure(id, trial.ended);
      } else {
        rows := rows - {id};
      }
    }
  }

  lemma TryNext(s: State, ids: seq<Id>, now: int, trials: Id -> Trial, i: nat)
    requires i < |ids| && Distinct(ids) && forall id :: id in ids ==> id in s.rows
    ensures ids[i] in TryAll(s, ids[..i], now, trials).rows
    ensures TryAll(s, ids[..i + 1], now, trials)
         == TryOne(TryAll(s, ids[..i], now, trials), ids[i], now, trials(ids[i]))
  {
    assert ids[..i + 1][..i] == ids[..i];
    assert ids[i] !in ids[..i];
    PassTouchesOnly(s, ids[..i], now, trials, ids[i]);
  }

  ghost predicate IsEarliest(rows: map<Id, Row>, ids: set<Id>, id: Id)
    requires forall i :: i in ids ==> i in rows
  {
    id in ids && forall i :: i in ids ==> NotAfter(rows[id], rows[i])
  }

  method Earliest(rows: map<Id, Row>, ids: set<Id>) returns (id: Id)
    requires ids != {} && forall i :: i in ids ==> i in rows && rows[i].scheduledAt.Some?
    ensures IsEarliest(rows, ids, id)
  {
    id :| id in ids;
    var left := ids - {id};
    while left != {}
      invariant id in ids && left <= ids
      invariant forall i :: i in ids - left ==> NotAfter(rows[id], rows[i])
      decreases |left|
    {
      var i :| i in left;
      left := left - {i};
      if rows[i].scheduledAt.value < rows[id].scheduledAt.value {
        id := i;
      }
    }
    assert ids - left == ids;
  }

  // ── Napping ─────────────────────────────────────────────────────────────

  function Max(a: real, b: real): real {
    if a < b then b else a
  }

  function Clamp(unit: real): real {
    if unit < 0.0 then 0.0 else if unit > 1.0 then 1.0 else unit
  }

  /** `jittered`: shortened by up to a quarter of itself. */
  function Jittered(nap: real, unit: real): (r: real)
    requires 0.0 <= nap
    ensures 0.75 * nap <= r <= nap
  {
    Shortened(nap, Clamp(unit));
    nap * (1.0 - Clamp(unit) * 0.25)
  }

  lemma Shortened(nap: real, unit: real)
    requires 0.0 <= nap && 0.0 <= unit <= 1.0
    ensures 0.75 * nap <= nap * (1.0 - unit * 0.25) <= nap
  {
    assert nap * (1.0 - unit * 0.25) == nap - nap * unit * 0.25;
    assert 0.0 <= nap * unit && nap * unit <= nap * 1.0;
  }

  /** `timed_task_nap`; a `due` that is not a number is no due. */
  function TimedTaskNap(due: Option<real>, floor: real, ceiling: real, jitter: real): (nap: real)
    requires 0.0 <= floor && 0.0 <= ceiling
    ensures floor <= nap <= Max(ceiling, floor)
    ensures due.Some? ==> nap <= Max(due.value, floor)
    ensures due.Some? && due.value < Max(ceiling, floor) ==> nap == Max(due.value, floor)
    ensures due.None? || Max(ceiling, floor) <= due.value ==> 0.75 * Max(ceiling, floor) <= nap
  {
    var most := Max(ceiling, floor);
    if due.Some? && due.value < most then Max(Max(due.value, 0.0), floor)
    else Max(Jittered(most, jitter), floor)
  }

  /** `IdleBackoff`. */
  class IdleBackoff {
    const floor: nat
    const ceiling: nat
    var current: nat
    /** How many empty passes since work last turned up. */
    ghost var empty: nat

    ghost predicate Valid()
      reads this
    {
      floor <= ceiling && current == Least(floor * Pow2(empty), ceiling)
    }

    constructor (floor: nat, ceiling: nat)
      ensures Valid() && empty == 0 && this.floor == floor
    {
      this.floor := floor;
      this.ceiling := Greatest(ceiling, floor);
      current := floor;
      empty := 0;
    }

    method Reset()
      requires floor <= ceiling
      modifies this
      ensures Valid() && empty == 0 && current == floor
    {
      current := floor;
      empty := 0;
    }

    /** `idle`, by what ended it: a wake-up, or the interval passing. */
    method Idle(woken: bool)
      requires Valid()
      modifies this
      ensures Valid() && empty == if woken then 0 else old(empty) + 1
    {
      if woken {
        Reset();
      } else {
        DoubledLeast(floor * Pow2(empty), ceiling);
        assert floor * Pow2(empty + 1) == floor * Pow2(empty) * 2;
        current := Least(current * 2, ceiling);
        empty := empty + 1;
      }
    }
  }

  lemma DoubledLeast(n: nat, ceiling: nat)
    ensures Least(Least(n, ceiling) * 2, ceiling) == Least(n * 2, ceiling)
  {
  }
}
