/** What a move between two local accounts comes to, said of the tables before
    it alone: which requests are approved, which follows and memberships move,
    and that nothing else changes. */
module MoveLaws {
  import opened Basics
  import opened Follows
  import opened Moves

  predicate FollowsThe(t: Tables, account: Id, target: Id) {
    Follow(account, target) in t.follows.Values
  }

  /** A local follower of the source whose follow moves: it neither is the
      target, nor follows it, nor has asked to. */
  predicate FollowMoves(t: Tables, source: Id, target: Id, account: Id) {
    && account in t.local && account != target && FollowsThe(t, account, source)
    && !FollowsThe(t, account, target) && Follow(account, target) !in t.requests.Values
  }

  // ── Requests ────────────────────────────────────────────────────────────

  /** The requests approved are just those of the target by followers of the
      source; every other waits as it did. */
  lemma MoveApprovesJustFollowers(t: Tables, source: Id, target: Id, requests: seq<Id>, q: Id)
    requires Consistent(t) && source != target && Approves(t, source, target, requests) && q in t.requests
    ensures var v := Moved(t, source, target, requests);
            && (q !in v.requests <==>
                  t.requests[q].target == target && FollowsThe(t, t.requests[q].follower, source))
            && (q in v.requests ==> v.requests[q] == t.requests[q])
  {
    var a, _ := ReadyToMove(t, source, target, requests);
    MovedFrom(t, source, target, requests);
    assert q in requests <==> q in Approved(t, source, target);
  }

  lemma MoveMakesNoRequests(t: Tables, source: Id, target: Id, requests: seq<Id>)
    requires Consistent(t) && source != target && Approves(t, source, target, requests)
    ensures Moved(t, source, target, requests).requests.Keys <= t.requests.Keys
    ensures Moved(t, source, target, requests).owners == t.owners
  {
    var a, _ := ReadyToMove(t, source, target, requests);
    MovedFrom(t, source, target, requests);
  }

  // ── Follows ─────────────────────────────────────────────────────────────

  /** The follows that approving adds. */
  lemma EdgesAre(t: Tables, source: Id, target: Id, requests: seq<Id>, e: Follow)
    requires Approves(t, source, target, requests)
    ensures e in Edges(t, requests) <==>
              e.target == target && e in t.requests.Values && FollowsThe(t, e.follower, source)
  {
    if e in Edges(t, requests) {
      var q :| q in requests && q in t.requests && t.requests[q] == e;
      assert q in Approved(t, source, target);
    }
    if e.target == target && e in t.requests.Values && FollowsThe(t, e.follower, source) {
      var q :| q in t.requests && t.requests[q] == e;
      assert q in Approved(t, source, target) && q in requests;
    }
  }

  /** When the follows are about to move, those that will. */
  lemma MovingAre(t: Tables, ready: Tables, source: Id, target: Id, requests: seq<Id>, f: Id)
    requires Sound(t) && source != target && Approves(t, source, target, requests)
    requires ReadyFrom(t, ready, source, target, requests)
    ensures f in MovingFollows(ready, source, target) <==>
              f in t.follows && t.follows[f].target == source
              && FollowMoves(t, source, target, t.follows[f].follower)
  {
    if f in ready.follows && ready.follows[f].target == source {
      var e := ready.follows[f];
      assert e in ready.follows.Values;
      if f !in t.follows {
        AddedIsNew(t, ready, requests, f);
        EdgesAre(t, source, target, requests, e);
        assert false;
      }
      assert t.follows[f] == e && e in t.follows.Values;
      EdgesAre(t, source, target, requests, Follow(e.follower, target));
    }
  }

  /** Every follow there was keeps its row and changes only if it moves. */
  lemma MoveChangesJustThese(t: Tables, source: Id, target: Id, requests: seq<Id>, f: Id)
    requires Consistent(t) && source != target && Approves(t, source, target, requests) && f in t.follows
    ensures var v, e := Moved(t, source, target, requests), t.follows[f];
            && f in v.follows
            && v.follows[f] == if e.target == source && FollowMoves(t, source, target, e.follower)
                               then Follow(e.follower, target) else e
  {
    var _, ready := ReadyToMove(t, source, target, requests);
    MovedFrom(t, source, target, requests);
    MovingAre(t, ready, source, target, requests, f);
  }

  /** A follow is there afterwards if and only if it was and has not moved, or it
      is of the target by a follower of the source whose follow moved or whose
      request was approved. */
  lemma FollowsAfterwards(t: Tables, source: Id, target: Id, requests: seq<Id>, e: Follow)
    requires Consistent(t) && source != target && Approves(t, source, target, requests)
    ensures e in Moved(t, source, target, requests).follows.Values <==>
              || (e in t.follows.Values && !(e.target == source && FollowMoves(t, source, target, e.follower)))
              || (e.target == target && FollowsThe(t, e.follower, source)
                  && (FollowMoves(t, source, target, e.follower) || e in t.requests.Values))
  {
    var _, ready := ReadyToMove(t, source, target, requests);
    MovedFrom(t, source, target, requests);
    var v := Moved(t, source, target, requests);
    if e in v.follows.Values {
      var f :| f in v.follows && v.follows[f] == e;
      assert f in ready.follows;
      MovingAre(t, ready, source, target, requests, f);
      if f in t.follows {
        assert t.follows[f] in t.follows.Values;
      } else {
        AddedIsNew(t, ready, requests, f);
        EdgesAre(t, source, target, requests, ready.follows[f]);
      }
    }
    if e in t.follows.Values {
      var f :| f in t.follows && t.follows[f] == e;
      MoveChangesJustThese(t, source, target, requests, f);
    }
    if e.target == target && FollowsThe(t, e.follower, source) {
      if FollowMoves(t, source, target, e.follower) {
        var f :| f in t.follows && t.follows[f] == Follow(e.follower, source);
        MoveChangesJustThese(t, source, target, requests, f);
        assert v.follows[f] == e;
      } else if e in t.requests.Values {
        EdgesAre(t, source, target, requests, e);
        AddedStays(t, ready, source, target, requests, e);
      }
    }
  }

  lemma AddedStays(t: Tables, ready: Tables, source: Id, target: Id, requests: seq<Id>, e: Follow)
    requires ReadyFrom(t, ready, source, target, requests)
    requires source != target && e in Edges(t, requests)
    ensures e in WithFollowsMoved(ready, source, target).follows.Values
  {
    var f :| f in ready.follows && ready.follows[f] == e;
    assert f !in MovingFollows(ready, source, target);
    assert WithFollowsMoved(ready, source, target).follows[f] == e;
  }

  function MovingRows(t: Tables, source: Id, target: Id): set<Id> {
    set f | f in t.follows && t.follows[f].target == source && FollowMoves(t, source, target, t.follows[f].follower)
  }

  function FollowersWaiting(t: Tables, source: Id, target: Id): set<Id> {
    set q | q in t.requests && t.requests[q].target == target && FollowsThe(t, t.requests[q].follower, source)
  }

  lemma MovingRowsMove(t: Tables, ready: Tables, source: Id, target: Id, requests: seq<Id>)
    requires Sound(t) && source != target && Approves(t, source, target, requests)
    requires ReadyFrom(t, ready, source, target, requests)
    ensures MovingFollows(ready, source, target) == MovingRows(t, source, target)
  {
    forall f ensures f in MovingRows(t, source, target) <==> f in MovingFollows(ready, source, target) {
      MovingAre(t, ready, source, target, requests, f);
    }
  }

  lemma AsManyWait(t: Tables, source: Id, target: Id, requests: seq<Id>)
    requires Approves(t, source, target, requests)
    ensures |requests| == |FollowersWaiting(t, source, target)|
  {
    forall q ensures q in requests <==> q in FollowersWaiting(t, source, target) {
      assert q in requests <==> q in Approved(t, source, target);
    }
    DistinctSize(requests, FollowersWaiting(t, source, target));
  }

  /** How many move and are approved, and so how the counts change, counted
      beforehand. */
  lemma MoveCountsBeforehand(t: Tables, source: Id, target: Id, requests: seq<Id>)
    requires Consistent(t) && source != target && Approves(t, source, target, requests)
    ensures var v := Moved(t, source, target, requests);
            var moving, waiting := |MovingRows(t, source, target)|, |FollowersWaiting(t, source, target)|;
            && Count(v.follows, source, true) == Count(t.follows, source, true) - moving
            && Count(v.follows, target, true) == Count(t.follows, target, true) + waiting + moving
  {
    var _, ready := ReadyToMove(t, source, target, requests);
    MovingRowsMove(t, ready, source, target, requests);
    AsManyWait(t, source, target, requests);
    MoveCounts(t, source, target, requests);
  }

  lemma {:induction false} DistinctSize(s: seq<Id>, z: set<Id>)
    requires Distinct(s) && forall x :: x in s <==> x in z
    ensures |s| == |z|
    decreases |s|
  {
    if s == [] {
      assert z == {};
    } else {
      var last := s[|s| - 1];
      assert last in z && forall x :: x in s[..|s| - 1] <==> x in z - {last};
      DistinctSize(s[..|s| - 1], z - {last});
    }
  }

  // ── Memberships ─────────────────────────────────────────────────────────

  predicate HungOnOneOf(hangs: Hangs, requests: seq<Id>) {
    hangs.OnRequest? && hangs.request in requests
  }

  lemma {:induction false} AuthorizingAllDrops(t: Tables, requests: seq<Id>, m: (Id, Id))
    requires Consistent(t) && Distinct(requests) && forall q :: q in requests ==> q in t.requests
    ensures var u := AuthorizedAll(t, requests);
            && (m in u.members <==> m in t.members && !HungOnOneOf(t.members[m], requests))
            && (m in u.members ==> u.members[m] == t.members[m])
    decreases |requests|
  {
    if requests != [] {
      var rest, last := requests[..|requests| - 1], requests[|requests| - 1];
      assert requests == rest + [last] && last !in rest;
      AuthorizingAllDrops(t, rest, m);
      AuthorizingOneMore(t, rest, last);
      AuthorizingAllGrows(t, rest);
      AuthorizingIsFollowing(AuthorizedAll(t, rest), last);
      assert forall q :: q in requests <==> q in rest || q == last;
    }
  }

  lemma GainedAre(t: Tables, source: Id, target: Id, list: Id, member: Id)
    requires Consistent(t)
    ensures (list, member) in WithGained(t, source, target).members <==>
              || (list, member) in t.members
              || (member == target && (list, source) in t.members && FollowsBoth(t, list, source, target))
  {
    GainingKeeps(t, source, target);
    var u := WithGained(t, source, target);
    if (list, member) in u.members && (list, member) !in t.members {
      assert (list, member) in Gained(t, source, target);
    }
  }

  lemma MovingListsAre(t: Tables, u: Tables, source: Id, target: Id, list: Id)
    requires Consistent(t) && source != target && NonePending(t, source, target)
    requires u == WithGained(t, source, target)
    ensures list in Moving(u, source, target) <==>
              Carried(t, source, target, list) && !FollowsThe(t, t.owners[list], target)
  {
    GainedAre(t, source, target, list, source);
    GainedAre(t, source, target, list, target);
    assert u == t.(members := u.members);
    if (list, target) in t.members && Carried(t, source, target, list) && !FollowsThe(t, t.owners[list], target) {
      HeldAccountsAreFollowed(t, list, target);
    }
    assert (list, source).0 == list;
  }

  lemma MovedListsAre(u: Tables, source: Id, target: Id, list: Id, member: Id)
    requires source != target
    ensures (list, member) in WithMoved(u, source, target).members <==>
              || ((list, member) in u.members && !(member == source && list in Moving(u, source, target)))
              || (member == target && list in Moving(u, source, target))
  {
  }

  /** A membership the moves of lists leave or make, of some list and member. */
  lemma ListsAfter(t: Tables, source: Id, target: Id, list: Id, member: Id)
    requires Consistent(t) && source != target && NonePending(t, source, target)
    ensures (list, member) in WithMoved(WithGained(t, source, target), source, target).members <==>
              || ((list, member) in t.members && !(member == source && Carried(t, source, target, list)
                                                   && !FollowsThe(t, t.owners[list], target)))
              || (member == target && Carried(t, source, target, list))
  {
    var u := WithGained(t, source, target);
    GainedAre(t, source, target, list, member);
    MovingListsAre(t, u, source, target, list);
    MovedListsAre(u, source, target, list, member);
    assert forall f :: f in t.follows ==> t.follows[f] != Follow(target, target);
  }

  /** A list on which some local follower of the source, other than the target,
      keeps the source. */
  predicate Carried(t: Tables, source: Id, target: Id, list: Id) {
    && (list, source) in t.members && list in t.owners
    && t.owners[list] in t.local && t.owners[list] != target && FollowsThe(t, t.owners[list], source)
  }

  /** Which memberships there are afterwards. The source leaves just the lists
      of those whose follow of it moves; the target joins wherever a local
      follower kept the source, and leaves the lists where it hung on a request
      that was approved; no other membership comes or goes. */
  lemma MembershipsAfterwards(
    t: Tables, source: Id, target: Id, requests: seq<Id>, list: Id, member: Id)
    requires Consistent(t) && source != target && Approves(t, source, target, requests)
    ensures var v, m := Moved(t, source, target, requests), (list, member);
            m in v.members <==>
              || (m in t.members && member != source && member != target)
              || (m in t.members && member == source && !FollowMoves(t, source, target, t.owners[list]))
              || (member == target && Carried(t, source, target, list))
              || (m in t.members && member == target
                  && !(t.members[m].OnRequest? && FollowsThe(t, t.owners[list], source)))
  {
    var m := (list, member);
    var a, _ := ReadyToMove(t, source, target, requests);
    MovedFrom(t, source, target, requests);
    ListsAfter(a, source, target, list, member);
    AuthorizingAllDrops(t, requests, m);
    AuthorizingAllDrops(t, requests, (list, source));
    if m in t.members {
      assert HangsRight(t, m.0, m.1, t.members[m]);
      HungOnApproved(t, source, target, requests, m);
    }
    if (list, source) in t.members {
      assert HangsRight(t, (list, source).0, (list, source).1, t.members[(list, source)]);
      HungOnApproved(t, source, target, requests, (list, source));
      CarriedAfterApproving(t, a, source, target, requests, list);
    }
  }

  lemma HungOnApproved(t: Tables, source: Id, target: Id, requests: seq<Id>, m: (Id, Id))
    requires Consistent(t) && Approves(t, source, target, requests) && m in t.members
    requires HangsRight(t, m.0, m.1, t.members[m])
    ensures HungOnOneOf(t.members[m], requests) <==>
              t.members[m].OnRequest? && m.1 == target && FollowsThe(t, t.owners[m.0], source)
  {
    if t.members[m].OnRequest? {
      var q := t.members[m].request;
      assert q in requests <==> q in Approved(t, source, target);
    }
  }

  lemma CarriedAfterApproving(t: Tables, a: Tables, source: Id, target: Id, requests: seq<Id>, list: Id)
    requires Consistent(t) && source != target && Approves(t, source, target, requests)
    requires Grown(t, a, requests) && a.owners == t.owners && a.local == t.local
    requires (list, source) in t.members && (list, source) in a.members && list in t.owners
    ensures Carried(a, source, target, list) <==> Carried(t, source, target, list)
    ensures Carried(t, source, target, list) ==>
              (FollowsThe(a, t.owners[list], target) <==> !FollowMoves(t, source, target, t.owners[list]))
  {
    EdgesAre(t, source, target, requests, Follow(t.owners[list], source));
    EdgesAre(t, source, target, requests, Follow(t.owners[list], target));
  }
}
