/** Following an account that moved to or from another server: one local
    follower at a time follows the new one, brings its lists, and leaves the
    old one. */
module Migration {
  import opened Basics
  import opened Follows
  import opened Moves
  import opened FollowGraph

  /** What else `follow` goes by: whether the target may not be followed, or is
      on another server, whether the follower is silenced, and the row a
      request would get. A lock on the target does not matter here. */
  datatype Terms = Terms(refused: bool, remote: bool, silenced: bool, request: Id) {
    predicate Asks() {
      remote || silenced
    }
  }

  /** `FollowOutcome`, and its errors. */
  datatype Outcome = Refused | Updated | RequestUpdated | Requested | Followed

  /** What `follow` comes to. */
  function OutcomeOf(t: Tables, follower: Id, target: Id, terms: Terms): Outcome {
    var edge := Follow(follower, target);
    if follower == target || terms.refused then Refused
    else if edge in t.follows.Values then Updated
    else if edge in t.requests.Values then RequestUpdated
    else if terms.Asks() then Requested
    else Followed
  }

  /** `follow`. */
  function AfterFollow(t: Tables, follower: Id, target: Id, terms: Terms): Tables {
    match OutcomeOf(t, follower, target, terms)
    case Requested => Requesting(t, terms.request, follower, target)
    case Followed => Following(t, follower, target)
    case _ => t
  }

  /** The request withdrawn, and the memberships that hung on it. */
  function Cancelling(t: Tables, request: Id): Tables {
    var requests := t.requests - {request};
    t.(requests := requests, members := Standing(t.members, t.follows, requests))
  }

  /** `unfollow`: the follow deleted, or else the request withdrawn. */
  function AfterUnfollow(t: Tables, follower: Id, target: Id): Tables
    requires Unique(t.follows) && Unique(t.requests)
  {
    var edge := Follow(follower, target);
    if edge in t.follows.Values then Unfollowing(t, ByPair(t.follows)[edge])
    else if edge in t.requests.Values then Cancelling(t, ByPair(t.requests)[edge])
    else t
  }

  /** What a membership of the target on its follower's list would hang on. */
  function Hook(t: Tables, follower: Id, target: Id): Option<Hangs>
    requires Unique(t.follows) && Unique(t.requests)
  {
    var edge := Follow(follower, target);
    if edge in t.follows.Values then Some(OnFollow(ByPair(t.follows)[edge]))
    else if edge in t.requests.Values then Some(OnRequest(ByPair(t.requests)[edge]))
    else None
  }

  /** The follower's lists that hold the old account and not yet the new. */
  function ListsToJoin(t: Tables, follower: Id, source: Id, target: Id): set<Id> {
    set m | m in t.members && m.1 == source && m.0 in t.owners && t.owners[m.0] == follower
         && (m.0, target) !in t.members :: m.0
  }

  /** `migrate_list_accounts`. */
  function WithListsJoined(t: Tables, follower: Id, source: Id, target: Id): Tables
    requires Unique(t.follows) && Unique(t.requests)
  {
    match Hook(t, follower, target)
    case None => t
    case Some(hook) =>
      t.(members := t.members + map l | l in ListsToJoin(t, follower, source, target) :: (l, target) := hook)
  }

  /** Whether the old account is left at once: not by one that followed the new
      one already, or had asked to. */
  predicate Leaves(outcome: Outcome, terms: Terms) {
    outcome.Followed? || (outcome.Requested? && !terms.remote)
  }

  function Joined(t: Tables, follower: Id, source: Id, target: Id, terms: Terms): Tables
    requires Consistent(t) && terms.request !in t.requests
  {
    FollowKeepsConsistent(t, follower, target, terms);
    var u := AfterFollow(t, follower, target, terms);
    if Follow(follower, source) in t.follows.Values then WithListsJoined(u, follower, source, target) else u
  }

  /** `follow_migration`. */
  function Migrated(t: Tables, follower: Id, source: Id, target: Id, terms: Terms): Tables
    requires Consistent(t) && terms.request !in t.requests
  {
    var outcome := OutcomeOf(t, follower, target, terms);
    if outcome.Refused? then t
    else
      JoinedKeepsConsistent(t, follower, source, target, terms);
      var u := Joined(t, follower, source, target, terms);
      if Leaves(outcome, terms) then AfterUnfollow(u, follower, source) else u
  }

  // ── Consistency ─────────────────────────────────────────────────────────

  lemma FollowKeepsConsistent(t: Tables, follower: Id, target: Id, terms: Terms)
    requires Consistent(t) && terms.request !in t.requests
    ensures Consistent(AfterFollow(t, follower, target, terms))
  {
    match OutcomeOf(t, follower, target, terms)
    case Requested => RequestingKeepsConsistent(t, terms.request, follower, target);
    case Followed => FollowingKeepsConsistent(t, follower, target);
    case _ =>
  }

  /** What a membership that joins is, and hangs on. */
  predicate MayJoin(before: map<(Id, Id), Hangs>, t: Tables, follower: Id, source: Id, target: Id, m: (Id, Id))
    requires m in t.members
  {
    && m.1 == target && (m.0, source) in before && m.0 in t.owners && t.owners[m.0] == follower
    && match t.members[m]
       case OnFollow(f) => f in t.follows && t.follows[f] == Follow(follower, target)
       case OnRequest(q) =>
         q in t.requests && t.requests[q] == Follow(follower, target) && t.requests[q] !in t.follows.Values
       case Own => false
  }

  /** If the follower follows the target, or has asked to, each of its lists
      that held the source holds the target; nothing else joins. */
  ghost predicate Joins(before: map<(Id, Id), Hangs>, t: Tables, follower: Id, source: Id, target: Id) {
    && (forall m :: m in before ==> m in t.members && t.members[m] == before[m])
    && (forall m :: m in t.members && m !in before ==> MayJoin(before, t, follower, source, target, m))
    && (Follow(follower, target) in t.follows.Values || Follow(follower, target) in t.requests.Values ==>
          forall l :: l in t.owners && t.owners[l] == follower && (l, source) in before ==> (l, target) in t.members)
  }

  lemma ListsJoin(t: Tables, follower: Id, source: Id, target: Id)
    requires Unique(t.follows) && Unique(t.requests)
    ensures Joins(t.members, WithListsJoined(t, follower, source, target), follower, source, target)
  {
    forall l | l in t.owners && t.owners[l] == follower && (l, source) in t.members && (l, target) !in t.members
      ensures l in ListsToJoin(t, follower, source, target)
    {
      assert (l, source).0 == l;
    }
  }

  lemma JoiningKeepsConsistent(t: Tables, follower: Id, source: Id, target: Id)
    requires Consistent(t)
    ensures Consistent(WithListsJoined(t, follower, source, target))
  {
    var u := WithListsJoined(t, follower, source, target);
    forall m | m in u.members ensures HangsRight(u, m.0, m.1, u.members[m]) {
      assert m in t.members ==> HangsRight(t, m.0, m.1, t.members[m]);
    }
  }

  lemma JoinedKeepsConsistent(t: Tables, follower: Id, source: Id, target: Id, terms: Terms)
    requires Consistent(t) && terms.request !in t.requests
    ensures Consistent(Joined(t, follower, source, target, terms))
  {
    FollowKeepsConsistent(t, follower, target, terms);
    JoiningKeepsConsistent(AfterFollow(t, follower, target, terms), follower, source, target);
  }

  lemma UnfollowKeepsConsistent(t: Tables, follower: Id, target: Id)
    requires Consistent(t)
    ensures Consistent(AfterUnfollow(t, follower, target))
  {
    var edge := Follow(follower, target);
    if edge in t.follows.Values {
      UnfollowingKeepsConsistent(t, ByPair(t.follows)[edge]);
    } else if edge in t.requests.Values {
      var u := Cancelling(t, ByPair(t.requests)[edge]);
      forall m | m in u.members ensures m.0 in t.owners {
        assert HangsRight(t, m.0, m.1, t.members[m]);
      }
      DeletingKeepsConsistent(t, u);
    }
  }

  lemma MigrationKeepsConsistent(t: Tables, follower: Id, source: Id, target: Id, terms: Terms)
    requires Consistent(t) && terms.request !in t.requests
    ensures Consistent(Migrated(t, follower, source, target, terms))
  {
    if !OutcomeOf(t, follower, target, terms).Refused? {
      JoinedKeepsConsistent(t, follower, source, target, terms);
      UnfollowKeepsConsistent(Joined(t, follower, source, target, terms), follower, source);
    }
  }

  // ── Counters ────────────────────────────────────────────────────────────

  lemma JoinedKeepsDrift(t: Tables, follower: Id, source: Id, target: Id, terms: Terms, account: Id)
    requires Consistent(t) && terms.request !in t.requests
    ensures Drift(Joined(t, follower, source, target, terms), account) == Drift(t, account)
  {
    FollowKeepsConsistent(t, follower, target, terms);
    var u := AfterFollow(t, follower, target, terms);
    if OutcomeOf(t, follower, target, terms).Followed? {
      FollowingKeepsDrift(t, follower, target, account);
    }
    MembersDoNotMatter(u, Joined(t, follower, source, target, terms), account);
    assert u.follows == t.follows && u.stats == t.stats ==> Drift(u, account) == Drift(t, account);
  }

  lemma UnfollowKeepsDrift(t: Tables, follower: Id, target: Id, account: Id)
    requires Consistent(t) && Covered(t, account)
    ensures Drift(AfterUnfollow(t, follower, target), account) == Drift(t, account)
  {
    var edge := Follow(follower, target);
    if edge in t.follows.Values {
      UnfollowingKeepsDrift(t, ByPair(t.follows)[edge], account);
    }
  }

  lemma MigrationKeepsDrift(t: Tables, follower: Id, source: Id, target: Id, terms: Terms, account: Id)
    requires Consistent(t) && terms.request !in t.requests && Covered(t, account)
    ensures Drift(Migrated(t, follower, source, target, terms), account) == Drift(t, account)
  {
    if !OutcomeOf(t, follower, target, terms).Refused? {
      JoinedKeepsConsistent(t, follower, source, target, terms);
      JoinedKeepsDrift(t, follower, source, target, terms, account);
      UnfollowKeepsDrift(Joined(t, follower, source, target, terms), follower, source, account);
    }
  }

  // ── What a follower ends with ───────────────────────────────────────────

  lemma FollowAdds(t: Tables, follower: Id, target: Id, terms: Terms)
    requires Consistent(t) && terms.request !in t.requests
    ensures var u, edge := AfterFollow(t, follower, target, terms), Follow(follower, target);
            var outcome := OutcomeOf(t, follower, target, terms);
            && u.members == t.members && u.owners == t.owners
            && u.follows.Values == t.follows.Values + (if outcome.Followed? then {edge} else {})
            && u.requests.Values == t.requests.Values + (if outcome.Requested? then {edge} else {})
  {
    ValuesGrow(t.follows, t.next, Follow(follower, target));
    ValuesGrow(t.requests, terms.request, Follow(follower, target));
  }

  lemma JoinedHas(t: Tables, follower: Id, source: Id, target: Id, terms: Terms)
    requires Consistent(t) && terms.request !in t.requests
    requires !OutcomeOf(t, follower, target, terms).Refused?
    ensures var u, edge := Joined(t, follower, source, target, terms), Follow(follower, target);
            var outcome := OutcomeOf(t, follower, target, terms);
            && Consistent(u) && u.owners == t.owners
            && u.follows.Values == t.follows.Values + (if outcome.Followed? then {edge} else {})
            && u.requests.Values == t.requests.Values + (if outcome.Requested? then {edge} else {})
            && (forall m :: m in t.members ==> m in u.members)
  {
    FollowKeepsConsistent(t, follower, target, terms);
    JoinedKeepsConsistent(t, follower, source, target, terms);
    FollowAdds(t, follower, target, terms);
  }

  lemma JoinedBringsLists(t: Tables, follower: Id, source: Id, target: Id, terms: Terms, list: Id)
    requires Consistent(t) && terms.request !in t.requests
    requires !OutcomeOf(t, follower, target, terms).Refused?
    requires Follow(follower, source) in t.follows.Values
    requires (list, source) in t.members && list in t.owners && t.owners[list] == follower
    ensures (list, target) in Joined(t, follower, source, target, terms).members
  {
    FollowKeepsConsistent(t, follower, target, terms);
    FollowAdds(t, follower, target, terms);
    var u := AfterFollow(t, follower, target, terms);
    assert (list, source).0 == list;
    assert Hook(u, follower, target).Some?;
    assert (list, target) in t.members || list in ListsToJoin(u, follower, source, target);
  }

  /** Leaving an account takes it, and nothing else, off the follower's lists. */
  lemma UnfollowTakesOffLists(t: Tables, follower: Id, target: Id, list: Id, member: Id)
    requires Consistent(t) && Follow(follower, target) in t.follows.Values
    requires (list, member) in t.members && list in t.owners && t.owners[list] == follower && member != follower
    ensures (list, member) in AfterUnfollow(t, follower, target).members <==> member != target
  {
    assert HangsRight(t, (list, member).0, (list, member).1, t.members[(list, member)]);
  }

  lemma UnfollowEnds(t: Tables, follower: Id, target: Id, edge: Follow)
    requires Consistent(t) && Follow(follower, target) in t.follows.Values
    ensures var u := AfterUnfollow(t, follower, target);
            && (edge in u.follows.Values <==> edge in t.follows.Values && edge != Follow(follower, target))
            && u.requests == t.requests && u.owners == t.owners
  {
    var row, u := ByPair(t.follows)[Follow(follower, target)], AfterUnfollow(t, follower, target);
    assert u.follows == t.follows - {row};
    if edge in t.follows.Values && edge != Follow(follower, target) {
      var f :| f in t.follows && t.follows[f] == edge;
      assert f in u.follows && u.follows[f] == edge;
    }
  }

  /** A list that held the old account holds the new one, and goes on holding
      the old exactly when the follower has not left it. */
  lemma MigrationBringsLists(t: Tables, follower: Id, source: Id, target: Id, terms: Terms, list: Id)
    requires Consistent(t) && terms.request !in t.requests && source != target
    requires Follow(follower, source) in t.follows.Values
    requires (list, source) in t.members && list in t.owners && t.owners[list] == follower
    requires !OutcomeOf(t, follower, target, terms).Refused?
    ensures var u := Migrated(t, follower, source, target, terms);
            && (list, target) in u.members
            && ((list, source) in u.members <==> !Leaves(OutcomeOf(t, follower, target, terms), terms))
  {
    var mid := Joined(t, follower, source, target, terms);
    JoinedHas(t, follower, source, target, terms);
    JoinedBringsLists(t, follower, source, target, terms, list);
    NoSelfFollow(t, follower, source);
    UnfollowTakesOffLists(mid, follower, source, list, target);
    UnfollowTakesOffLists(mid, follower, source, list, source);
  }

  lemma NoSelfFollow(t: Tables, follower: Id, target: Id)
    requires Sound(t) && Follow(follower, target) in t.follows.Values
    ensures follower != target
  {
    var f :| f in t.follows && t.follows[f] == Follow(follower, target);
  }

  /** A follower of the old account follows the new one, or waits to; and has
      left the old one exactly when it did neither before, and the new one is on
      this server. */
  lemma MigrationMovesTheFollow(t: Tables, follower: Id, source: Id, target: Id, terms: Terms)
    requires Consistent(t) && terms.request !in t.requests && source != target
    requires Follow(follower, source) in t.follows.Values
    requires !OutcomeOf(t, follower, target, terms).Refused?
    ensures var u := Migrated(t, follower, source, target, terms);
            var edge := Follow(follower, target);
            && (edge in u.follows.Values || edge in u.requests.Values)
            && (edge in u.follows.Values <==>
                  edge in t.follows.Values || (!terms.Asks() && edge !in t.requests.Values))
            && (Follow(follower, source) !in u.follows.Values <==>
                  edge !in t.follows.Values && edge !in t.requests.Values && !terms.remote)
  {
    var mid := Joined(t, follower, source, target, terms);
    JoinedHas(t, follower, source, target, terms);
    UnfollowEnds(mid, follower, source, Follow(follower, target));
    UnfollowEnds(mid, follower, source, Follow(follower, source));
  }

  // ── What it leaves alone ────────────────────────────────────────────────

  /** An account that may not be followed, or is the follower's own, changes
      nothing. */
  lemma RefusedChangesNothing(t: Tables, follower: Id, source: Id, target: Id, terms: Terms)
    requires Consistent(t) && terms.request !in t.requests
    requires follower == target || terms.refused
    ensures Migrated(t, follower, source, target, terms) == t
  {
  }

  lemma UnfollowTouchesOnly(t: Tables, follower: Id, target: Id, e: Follow, m: (Id, Id))
    requires Consistent(t)
    ensures var u := AfterUnfollow(t, follower, target);
            && (e != Follow(follower, target) ==>
                  && (e in u.follows.Values <==> e in t.follows.Values)
                  && (e in u.requests.Values <==> e in t.requests.Values))
            && u.members.Keys <= t.members.Keys
            && (m in t.members && (m.1 != target || t.owners[m.0] != follower) ==>
                  m in u.members && u.members[m] == t.members[m])
  {
    var edge := Follow(follower, target);
    assert m in t.members ==> HangsRight(t, m.0, m.1, t.members[m]);
    if edge in t.follows.Values {
      var row := ByPair(t.follows)[edge];
      OneRowLess(t.follows, row, e);
      UnfollowingTakesJust(t, row, m);
    } else if edge in t.requests.Values {
      OneRowLess(t.requests, ByPair(t.requests)[edge], e);
    }
  }

  /** What of a list there is once the lists have joined. */
  lemma JoinedLists(t: Tables, follower: Id, source: Id, target: Id, terms: Terms, m: (Id, Id))
    requires Consistent(t) && terms.request !in t.requests
    requires !OutcomeOf(t, follower, target, terms).Refused?
    ensures var u := Joined(t, follower, source, target, terms);
            && (m in t.members ==> m in u.members && u.members[m] == t.members[m])
            && (m in u.members && m !in t.members ==>
                  && m.1 == target && (m.0, source) in t.members && m.0 in t.owners && t.owners[m.0] == follower
                  && Follow(follower, source) in t.follows.Values)
  {
    FollowKeepsConsistent(t, follower, target, terms);
    FollowAdds(t, follower, target, terms);
    ListsJoin(AfterFollow(t, follower, target, terms), follower, source, target);
  }

  /** No one else's follow, request or list changes, nor any of the follower's
      but those of the two accounts; and lists join only if the old account was
      followed. */
  lemma MigrationTouchesOnly(
    t: Tables, follower: Id, source: Id, target: Id, terms: Terms, e: Follow, m: (Id, Id))
    requires Consistent(t) && terms.request !in t.requests && source != target
    ensures var u := Migrated(t, follower, source, target, terms);
            && (e != Follow(follower, source) && e != Follow(follower, target) ==>
                  && (e in u.follows.Values <==> e in t.follows.Values)
                  && (e in u.requests.Values <==> e in t.requests.Values))
            && (m in u.members && m !in t.members ==>
                  && m.1 == target && (m.0, source) in t.members && m.0 in t.owners && t.owners[m.0] == follower
                  && Follow(follower, source) in t.follows.Values)
            && (m in t.members && (m.1 != source || t.owners[m.0] != follower) ==>
                  m in u.members && u.members[m] == t.members[m])
  {
    if !OutcomeOf(t, follower, target, terms).Refused? {
      var mid := Joined(t, follower, source, target, terms);
      JoinedHas(t, follower, source, target, terms);
      JoinedLists(t, follower, source, target, terms, m);
      UnfollowTouchesOnly(mid, follower, source, e, m);
    }
  }
}
