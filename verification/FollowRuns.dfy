/** Runs of everything that changes who follows whom: what they keep of the
    tables, and of the counters. */
module FollowRuns {
  import opened Basics
  import opened Follows
  import opened Moves
  import opened FollowGraph
  import opened Migration

  datatype Event =
    | Followed(follower: Id, target: Id)
    | Requested(request: Id, follower: Id, target: Id)
    | Authorizing(request: Id)
    | Unfollowed(row: Id)
    | Purging(account: Id)
    | Listed(list: Id, member: Id, hangs: Hangs)
    | Relocating(source: Id, target: Id, requests: seq<Id>)
    | Migrating(follower: Id, source: Id, target: Id, terms: Terms)

  ghost predicate Steps(t: Tables, e: Event, u: Tables) {
    match e
    case Followed(follower, target) => Unrelated(t, follower, target) && u == Following(t, follower, target)
    case Requested(request, follower, target) =>
      Unrelated(t, follower, target) && request !in t.requests && u == Requesting(t, request, follower, target)
    case Authorizing(request) => request in t.requests && u == Authorized(t, request)
    case Unfollowed(row) => row in t.follows && u == Unfollowing(t, row)
    case Purging(account) => u == Purged(t, account)
    case Relocating(source, target, requests) =>
      && Consistent(t) && source != target && Approves(t, source, target, requests)
      && u == Moved(t, source, target, requests)
    case Listed(list, member, hangs) =>
      && (list, member) !in t.members && HangsRight(t, list, member, hangs)
      && u == t.(members := t.members[(list, member) := hangs])
    case Migrating(follower, source, target, terms) =>
      && Consistent(t) && source != target && terms.request !in t.requests
      && u == Migrated(t, follower, source, target, terms)
  }

  ghost predicate Runs(states: seq<Tables>, events: seq<Event>) {
    && |states| == |events| + 1
    && forall i :: 0 <= i < |events| ==> Steps(states[i], events[i], states[i + 1])
  }

  lemma StepKeepsConsistent(t: Tables, e: Event, u: Tables)
    requires Consistent(t) && Steps(t, e, u)
    ensures Consistent(u)
  {
    match e
    case Followed(follower, target) => FollowingKeepsConsistent(t, follower, target);
    case Requested(request, follower, target) => RequestingKeepsConsistent(t, request, follower, target);
    case Authorizing(request) => AuthorizingKeepsConsistent(t, request);
    case Unfollowed(row) => UnfollowingKeepsConsistent(t, row);
    case Purging(account) => PurgingKeepsConsistent(t, account);
    case Listed(_, _, _) =>
      forall m | m in u.members ensures HangsRight(u, m.0, m.1, u.members[m]) {
        assert m in t.members ==> HangsRight(t, m.0, m.1, t.members[m]);
      }
    case Relocating(source, target, requests) => MoveKeepsConsistent(t, source, target, requests);
    case Migrating(follower, source, target, terms) =>
      MigrationKeepsConsistent(t, follower, source, target, terms);
  }

  // ── The counters ────────────────────────────────────────────────────────

  lemma StepKeepsDrift(t: Tables, e: Event, u: Tables, account: Id)
    requires Consistent(t) && Covered(t, account) && Steps(t, e, u) && e != Purging(account)
    ensures Drift(u, account) == Drift(t, account)
  {
    match e
    case Followed(follower, target) => FollowingKeepsDrift(t, follower, target, account);
    case Requested(_, _, _) =>
    case Authorizing(request) => AuthorizingKeepsDrift(t, request, account);
    case Unfollowed(row) => UnfollowingKeepsDrift(t, row, account);
    case Purging(purged) => PurgeKeepsDrift(t, purged, account);
    case Listed(_, _, _) => MembersDoNotMatter(t, u, account);
    case Relocating(source, target, requests) => MoveKeepsDrift(t, source, target, requests, account);
    case Migrating(follower, source, target, terms) =>
      MigrationKeepsDrift(t, follower, source, target, terms, account);
  }

  lemma SameDriftCovers(t: Tables, u: Tables, account: Id)
    requires Covered(t, account) && Drift(u, account) == Drift(t, account)
    ensures Covered(u, account)
  {
  }

  /** Over any run of follows, requests, authorisations, unfollows, purges and
      moves, pairs stay unique, nobody follows themselves, every membership
      hangs on its owner's follow or request; and an account not purged, whose
      counters cover its follows to begin with, keeps the distance between
      them, however wrong any other account's counters are. */
  lemma {:induction false} CountersKeepTheirDrift(states: seq<Tables>, events: seq<Event>, account: Id)
    requires Runs(states, events) && Consistent(states[0]) && Covered(states[0], account)
    requires forall i :: 0 <= i < |events| ==> events[i] != Purging(account)
    ensures Consistent(states[|events|]) && Covered(states[|events|], account)
    ensures Drift(states[|events|], account) == Drift(states[0], account)
    decreases |events|
  {
    var n := |events|;
    if 0 < n {
      var t, e, u := states[n - 1], events[n - 1], states[n];
      assert Runs(states[..n], events[..n - 1]);
      CountersKeepTheirDrift(states[..n], events[..n - 1], account);
      assert Steps(t, e, u);
      StepKeepsConsistent(t, e, u);
      StepKeepsDrift(t, e, u, account);
      SameDriftCovers(t, u, account);
    }
  }
}
