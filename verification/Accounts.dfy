/** The tables of the follow graph, updated in place by the statements the
    source sends, each operation proved to come to what `Follows` and `Moves`
    say. */
module Accounts {
  import opened Basics
  import opened Follows
  import opened Moves
  import opened FollowGraph
  import opened Migration

  /** The follows or requests not made by an account, or not made of it. */
  function By(rows: map<Id, Follow>, account: Id, incoming: bool): map<Id, Follow> {
    map f | f in rows && End(rows[f], incoming) != account :: rows[f]
  }

  lemma Deleted(follows: map<Id, Follow>, requests: map<Id, Follow>, account: Id)
    ensures By(By(follows, account, false), account, true) == Without(follows, account)
    ensures By(requests, account, false) == ByOthers(requests, account)
  {
  }

  /** The cascades of one deletion after another take what one of the lot
      would have. */
  lemma Cascades(
    members: map<(Id, Id), Hangs>, f0: map<Id, Follow>, f1: map<Id, Follow>, f2: map<Id, Follow>,
    r0: map<Id, Follow>, r1: map<Id, Follow>, owners: map<Id, Id>, account: Id)
    requires f2.Keys <= f1.Keys <= f0.Keys && r1.Keys <= r0.Keys
    ensures Standing(OnListsOf(Standing(Standing(members, f1, r0), f1, r1), owners, account), f2, r1)
         == OnListsOf(Standing(members, f2, r1), owners, account)
  {
  }

  /** A list of a local follower of the source, other than the target itself. */
  predicate OwnerMoves(t: Tables, list: Id, source: Id, target: Id) {
    && list in t.owners && t.owners[list] in t.local && t.owners[list] != target
    && Follow(t.owners[list], source) in t.follows.Values
  }

  lemma OffLists(members: map<(Id, Id), Hangs>, owners: map<Id, Id>, account: Id)
    ensures var others := map m | m in members && m.1 != account :: members[m];
            (map m | m in others && m.0 in owners :: others[m]) == OnListsOf(members, owners, account)
  {
  }

  class Database {
    var next: Id
    var follows: map<Id, Follow>
    var requests: map<Id, Follow>
    var members: map<(Id, Id), Hangs>
    var stats: map<Id, Stats>
    var owners: map<Id, Id>
    const local: set<Id>

    function View(): Tables
      reads this
    {
      Tables(next, follows, requests, members, owners, local, stats)
    }

    method OnFollowCreated(follower: Id, target: Id)
      modifies this`stats
      ensures View() == Created(old(View()), follower, target)
    {
      // INSERT … ON CONFLICT DO UPDATE, for each side.
      if target in stats {
        stats := stats[target := stats[target].(followers := stats[target].followers + 1)];
      } else {
        stats := stats[target := Stats(1, 0)];
      }
      if follower in stats {
        stats := stats[follower := stats[follower].(following := stats[follower].following + 1)];
      } else {
        stats := stats[follower := Stats(0, 1)];
      }
    }

    method OnFollowRemoved(follower: Id, target: Id)
      modifies this`stats
      ensures View() == Removed(old(View()), follower, target)
    {
      if target in stats {
        stats := stats[target := stats[target].(followers := Max(stats[target].followers - 1, 0))];
      }
      if follower in stats {
        stats := stats[follower := stats[follower].(following := Max(stats[follower].following - 1, 0))];
      }
    }

    method UpdateFollowersCount(account: Id, change: int)
      modifies this`stats
      ensures View() == CountBy(old(View()), account, change)
    {
      if change == 0 {
        return;
      }
      if account in stats {
        stats := stats[account := stats[account].(followers := Max(stats[account].followers + change, 0))];
      } else {
        stats := stats[account := Stats(Max(change, 0), 0)];
      }
    }

    /** `recount_follows`: a local account's counters, if it has a row, are its
        follows afterwards. */
    method RecountFollows(account: Id)
      modifies this`stats
      ensures forall a :: a != account ==> View().Stat(a) == old(View()).Stat(a)
      ensures account in local && account in old(stats) ==> Drift(View(), account) == Stats(0, 0)
      ensures account !in local || account !in old(stats) ==> stats == old(stats)
    {
      if account in local && account in stats {
        stats := stats[account := Stats(Count(follows, account, true), Count(follows, account, false))];
      }
    }

    /** The counters settled by group, and only then the rows deleted, with
        what hangs on them. */
    method PurgeAssociations(account: Id)
      modifies this
      ensures View() == Purged(old(View()), account)
    {
      stats := LessFollowers(stats, follows, account);
      stats := LessFollowing(stats, follows, account);
      Deleted(follows, requests, account);
      // Its active relationships, and then its requests, with what hangs on them.
      follows := By(follows, account, false);
      ghost var f1 := follows;
      members := Standing(members, follows, requests);
      requests := By(requests, account, false);
      members := Standing(members, follows, requests);
      // Its places on lists, and its own lists with all that is on them.
      members := map m | m in members && m.1 != account :: members[m];
      owners := OfOthers(owners, account);
      members := map m | m in members && m.0 in owners :: members[m];
      // Its passive relationships.
      follows := By(follows, account, true);
      members := Standing(members, follows, requests);
      OffLists(Standing(Standing(old(members), f1, old(requests)), f1, requests), owners, account);
      Cascades(old(members), old(follows), f1, follows, old(requests), requests, owners, account);
    }

    method Authorize(request: Id) returns (found: bool)
      modifies this
      ensures found == (request in old(requests))
      ensures View() == if found then Authorized(old(View()), request) else old(View())
    {
      if request !in requests {
        return false;
      }
      var edge := requests[request];
      requests := requests - {request};
      members := map m | m in members && members[m] != OnRequest(request) :: members[m];
      if edge !in follows.Values {
        follows := follows[next := edge];
        next := next + 1;
        OnFollowCreated(edge.follower, edge.target);
      }
      return true;
    }

    /** The loop over the requesters. */
    method ApproveRequests(source: Id, target: Id) returns (ghost approved: seq<Id>)
      requires Consistent(View())
      modifies this
      ensures Approves(old(View()), source, target, approved)
      ensures View() == AuthorizedAll(old(View()), approved)
    {
      ghost var before := View();
      var all := Approved(View(), source, target);
      var left := all;
      approved := [];
      while left != {}
        invariant left <= all && Distinct(approved)
        invariant forall q :: q in approved <==> q in all - left
        invariant View() == AuthorizedAll(before, approved)
        decreases |left|
      {
        var q :| q in left;
        left := left - {q};
        AuthorizingOneMore(before, approved, q);
        var _ := Authorize(q);
        approved := approved + [q];
      }
    }

    /** Lists of local owners who follow both gain the target, and memberships of
        those who follow the source alone move: so wherever a local follower
        kept the source, the target is now kept. */
    method MoveLists(source: Id, target: Id)
      requires Consistent(View())
      modifies this`members
      ensures View() == WithMoved(WithGained(old(View()), source, target), source, target)
      ensures source != target ==>
        forall l :: (l, source) in old(members) && OwnerMoves(View(), l, source, target) ==> (l, target) in members
    {
      if source != target {
        forall l | (l, source) in members && OwnerMoves(View(), l, source, target)
          ensures (l, target) in MovedMembers(WithGained(View(), source, target), source, target)
        {
          ListsCarry(View(), source, target, l);
        }
      }
      members := members + Gained(View(), source, target);
      members := MovedMembers(View(), source, target);
    }

    /** The follows of local followers of the source alone move to the target;
        how many did. */
    method MoveFollows(source: Id, target: Id) returns (moved: int)
      modifies this`follows
      ensures View() == WithFollowsMoved(old(View()), source, target)
      ensures moved == |MovingFollows(old(View()), source, target)|
      ensures source != target ==>
        && Count(follows, source, true) == Count(old(follows), source, true) - moved
        && Count(follows, target, true) == Count(old(follows), target, true) + moved
    {
      if source != target {
        CountMoved(View(), source, target, source, true);
        CountMoved(View(), source, target, target, true);
      }
      var moving := MovingFollows(View(), source, target);
      follows := map f | f in follows :: if f in moving then Follow(follows[f].follower, target) else follows[f];
      moved := |moving|;
    }

    /** `rewrite_follows`. */
    method RewriteFollows(source: Id, target: Id) returns (moved: int, ghost approved: seq<Id>)
      requires Consistent(View())
      modifies this
      ensures Approves(old(View()), source, target, approved)
      ensures var ready := Prepared(old(View()), source, target, approved);
              View() == WithFollowsMoved(ready, source, target) && moved == |MovingFollows(ready, source, target)|
    {
      approved := ApproveRequests(source, target);
      AuthorizingAllGrows(old(View()), approved);
      MoveLists(source, target);
      moved := MoveFollows(source, target);
    }

    /** Both counters, changed by how many follows moved. */
    method SettleCounts(source: Id, target: Id, moved: int)
      modifies this`stats
      ensures View() == Settle(old(View()), source, target, moved)
    {
      UpdateFollowersCount(source, -moved);
      UpdateFollowersCount(target, moved);
    }

    /** `move_worker`'s first part, for two local accounts. */
    method MoveFollowers(source: Id, target: Id) returns (ghost approved: seq<Id>)
      requires Consistent(View())
      modifies this
      ensures Approves(old(View()), source, target, approved)
      ensures View() == Moved(old(View()), source, target, approved)
    {
      ghost var before := View();
      var moved;
      moved, approved := RewriteFollows(source, target);
      MovedIs(before, source, target, approved, View());
      SettleCounts(source, target, moved);
    }

    /** `follow`, of an account whose lock does not matter. */
    method FollowAccount(follower: Id, target: Id, terms: Terms) returns (outcome: Outcome)
      modifies this
      ensures outcome == OutcomeOf(old(View()), follower, target, terms)
      ensures View() == AfterFollow(old(View()), follower, target, terms)
    {
      if follower == target || terms.refused {
        return Refused;
      }
      if Follow(follower, target) in follows.Values {
        return Updated;
      }
      if Follow(follower, target) in requests.Values {
        return RequestUpdated;
      }
      if terms.remote || terms.silenced {
        requests := requests[terms.request := Follow(follower, target)];
        return Requested;
      }
      follows := follows[next := Follow(follower, target)];
      next := next + 1;
      OnFollowCreated(follower, target);
      return Followed;
    }

    method Unfollow(follower: Id, target: Id)
      requires Unique(follows) && Unique(requests)
      modifies this
      ensures View() == AfterUnfollow(old(View()), follower, target)
    {
      var edge := Follow(follower, target);
      if edge in follows.Values {
        follows := follows - {ByPair(follows)[edge]};
        members := Standing(members, follows, requests);
        OnFollowRemoved(follower, target);
      } else if edge in requests.Values {
        requests := requests - {ByPair(requests)[edge]};
        members := Standing(members, follows, requests);
      }
    }

    /** The follower's lists that hold the source hold the target too, by its
        follow of it or else its request, and nothing else changes. */
    method MigrateListAccounts(follower: Id, source: Id, target: Id)
      requires Unique(follows) && Unique(requests)
      modifies this`members
      ensures View() == WithListsJoined(old(View()), follower, source, target)
      ensures Joins(old(members), View(), follower, source, target)
    {
      ListsJoin(View(), follower, source, target);
      var hook := Hook(View(), follower, target);
      if hook.Some? {
        members := members
          + map l | l in ListsToJoin(View(), follower, source, target) :: (l, target) := hook.value;
      }
    }

    method FollowMigration(follower: Id, source: Id, target: Id, terms: Terms)
      requires Consistent(View()) && terms.request !in requests
      modifies this
      ensures View() == Migrated(old(View()), follower, source, target, terms)
    {
      ghost var before := View();
      var followed := Follow(follower, source) in follows.Values;
      FollowKeepsConsistent(before, follower, target, terms);
      var outcome := FollowAccount(follower, target, terms);
      if outcome.Refused? {
        return;
      }
      if followed {
        MigrateListAccounts(follower, source, target);
      }
      JoinedKeepsConsistent(before, follower, source, target, terms);
      match outcome {
        case Requested =>
          if !terms.remote {
            Unfollow(follower, source);
          }
        case Followed => Unfollow(follower, source);
        case _ =>
      }
    }
  }
}
