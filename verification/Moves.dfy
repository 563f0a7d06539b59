/** Moving one local account's followers to another: `move_worker`'s rewriting
    of the follows, the lists that hang on them, and the counters. */
module Moves {
  import opened Basics
  import opened Follows

  ghost predicate Unique(edges: map<Id, Follow>) {
    forall f, g :: f in edges && g in edges && edges[f] == edges[g] ==> f == g
  }

  /** What a membership hangs on is its list owner's, and of that member. */
  predicate HangsRight(t: Tables, list: Id, member: Id, hangs: Hangs) {
    && list in t.owners
    && match hangs
       case OnFollow(f) => f in t.follows && t.follows[f] == Follow(t.owners[list], member)
       case OnRequest(q) => q in t.requests && t.requests[q] == Follow(t.owners[list], member)
       case Own => t.owners[list] == member
  }

  /** One follow or one request between two accounts, and none to oneself. */
  ghost predicate Sound(t: Tables) {
    && IdsBelow(t) && Unique(t.follows) && Unique(t.requests)
    && (forall f :: f in t.follows ==> t.follows[f].follower != t.follows[f].target)
    && (forall q :: q in t.requests ==> t.requests[q].follower != t.requests[q].target)
    && (forall q :: q in t.requests ==> t.requests[q] !in t.follows.Values)
  }

  ghost predicate Hung(t: Tables) {
    forall m :: m in t.members ==> HangsRight(t, m.0, m.1, t.members[m])
  }

  /** What the indexes and the rest of the code keep of the tables. */
  ghost predicate Consistent(t: Tables) {
    Sound(t) && Hung(t)
  }

  // ── Authorising ─────────────────────────────────────────────────────────

  /** A request deleted, and with it what hung on it. */
  function Withdrawn(t: Tables, request: Id): Tables {
    t.(requests := t.requests - {request},
       members := map m | m in t.members && t.members[m] != OnRequest(request) :: t.members[m])
  }

  /** `authorize`: the request deleted, and with it, by the cascade of its
      foreign key, the memberships that hang on it; then the follow, counted
      unless there was one. The update that would hang those memberships on the
      follow comes after the cascade, and finds none. */
  function Authorized(t: Tables, request: Id): Tables
    requires request in t.requests
  {
    var edge := t.requests[request];
    var u := Withdrawn(t, request);
    if edge in t.follows.Values then u else Following(u, edge.follower, edge.target)
  }

  function AuthorizedAll(t: Tables, requests: seq<Id>): Tables {
    if requests == [] then t
    else
      var u := AuthorizedAll(t, requests[..|requests| - 1]);
      var last := requests[|requests| - 1];
      if last in u.requests then Authorized(u, last) else u
  }

  lemma AuthorizingIsFollowing(t: Tables, request: Id)
    requires Consistent(t) && request in t.requests
    ensures var u := Authorized(t, request);
            && u.requests == t.requests - {request}
            && u.follows == t.follows[t.next := t.requests[request]]
            && u.next == t.next + 1 && u.owners == t.owners && u.local == t.local
            && u.members == (map m | m in t.members && t.members[m] != OnRequest(request) :: t.members[m])
  {
  }

  lemma AuthorizingKeepsConsistent(t: Tables, request: Id)
    requires Consistent(t) && request in t.requests
    ensures Consistent(Authorized(t, request))
  {
    var u := Authorized(t, request);
    AuthorizingIsFollowing(t, request);
    assert forall f :: f in t.follows ==> f in u.follows && u.follows[f] == t.follows[f];
    forall q | q in u.requests ensures u.requests[q] !in u.follows.Values {
      assert u.requests[q] == t.requests[q] && t.requests[q] != t.requests[request];
    }
  }

  lemma AuthorizingKeepsDrift(t: Tables, request: Id, account: Id)
    requires Consistent(t) && request in t.requests
    ensures Drift(Authorized(t, request), account) == Drift(t, account)
  {
    var edge := t.requests[request];
    FollowingKeepsDrift(Withdrawn(t, request), edge.follower, edge.target, account);
  }

  /** The follows that authorising some requests adds. */
  ghost predicate Grown(t: Tables, u: Tables, requests: seq<Id>) {
    && |u.follows| == |t.follows| + |requests|
    && (forall f :: f in t.follows ==> f in u.follows && u.follows[f] == t.follows[f])
    && u.follows.Values == t.follows.Values + Edges(t, requests)
  }

  function Edges(t: Tables, requests: seq<Id>): set<Follow> {
    set q | q in requests && q in t.requests :: t.requests[q]
  }

  /** What it leaves as it was, but for the requests gone. */
  ghost predicate OtherwiseKept(t: Tables, u: Tables, requests: seq<Id>) {
    && u.owners == t.owners && u.local == t.local
    && (forall q :: q in u.requests <==> q in t.requests && q !in requests)
    && (forall q :: q in u.requests ==> u.requests[q] == t.requests[q])
    && (forall m :: m in t.members && !t.members[m].OnRequest? ==>
          m in u.members && u.members[m] == t.members[m])
    && (forall account :: Drift(u, account) == Drift(t, account))
  }

  lemma {:induction false} AuthorizingAllGrows(t: Tables, requests: seq<Id>)
    requires Consistent(t) && Distinct(requests)
    requires forall q :: q in requests ==> q in t.requests
    ensures var u := AuthorizedAll(t, requests);
            Consistent(u) && Grown(t, u, requests) && OtherwiseKept(t, u, requests)
    decreases |requests|
  {
    if requests != [] {
      var rest, last := requests[..|requests| - 1], requests[|requests| - 1];
      assert requests == rest + [last];
      AuthorizingAllGrows(t, rest);
      var mid := AuthorizedAll(t, rest);
      assert last !in rest && last in mid.requests;
      AuthorizingKeepsConsistent(mid, last);
      AuthorizingIsFollowing(mid, last);
      GrowsByOne(t, mid, Authorized(mid, last), rest, last);
      KeepsByOne(t, mid, rest, last);
    }
  }

  lemma EdgesOneMore(t: Tables, rest: seq<Id>, last: Id)
    requires last in t.requests
    ensures Edges(t, rest + [last]) == Edges(t, rest) + {t.requests[last]}
  {
    forall e ensures e in Edges(t, rest + [last]) <==> e in Edges(t, rest) + {t.requests[last]} {
      assert forall q :: q in rest + [last] <==> q in rest || q == last;
    }
  }

  lemma GrowsByOne(t: Tables, mid: Tables, u: Tables, rest: seq<Id>, last: Id)
    requires Grown(t, mid, rest) && last in t.requests && mid.next !in mid.follows
    requires u.follows == mid.follows[mid.next := t.requests[last]]
    ensures Grown(t, u, rest + [last])
  {
    var more, edge := mid.follows[mid.next := t.requests[last]], t.requests[last];
    ValuesGrow(mid.follows, mid.next, edge);
    EdgesOneMore(t, rest, last);
    JoinsOneMore(t.follows.Values, Edges(t, rest), edge);
    OneMoreRow(mid.follows, mid.next, edge);
  }

  lemma JoinsOneMore(a: set<Follow>, b: set<Follow>, e: Follow)
    ensures a + b + {e} == a + (b + {e})
  {
  }

  lemma OneMoreRow(follows: map<Id, Follow>, row: Id, edge: Follow)
    requires row !in follows
    ensures |follows[row := edge]| == |follows| + 1
    ensures forall f :: f in follows ==> f in follows[row := edge] && follows[row := edge][f] == follows[f]
  {
  }

  lemma KeepsByOne(t: Tables, mid: Tables, rest: seq<Id>, last: Id)
    requires Consistent(mid) && OtherwiseKept(t, mid, rest) && last in mid.requests
    ensures OtherwiseKept(t, Authorized(mid, last), rest + [last])
  {
    AuthorizingIsFollowing(mid, last);
    forall account ensures Drift(Authorized(mid, last), account) == Drift(t, account) {
      AuthorizingKeepsDrift(mid, last, account);
    }
    assert forall q :: q in rest + [last] <==> q in rest || q == last;
  }

  lemma AuthorizingOneMore(t: Tables, requests: seq<Id>, next: Id)
    requires Consistent(t) && Distinct(requests)
    requires forall q :: q in requests ==> q in t.requests
    requires next in t.requests && next !in requests
    ensures next in AuthorizedAll(t, requests).requests
    ensures AuthorizedAll(t, requests + [next]) == Authorized(AuthorizedAll(t, requests), next)
  {
    AuthorizingAllGrows(t, requests);
    assert (requests + [next])[..|requests|] == requests;
  }

  lemma ValuesGrow(follows: map<Id, Follow>, row: Id, edge: Follow)
    requires row !in follows
    ensures follows[row := edge].Values == follows.Values + {edge}
  {
    var more := follows[row := edge];
    assert more[row] == edge;
    forall e | e in follows.Values ensures e in more.Values {
      var f :| f in follows && follows[f] == e;
      assert more[f] == e;
    }
  }

  // ── Rewriting ───────────────────────────────────────────────────────────

  /** The requests `rewrite_follows` approves: of the source's followers, to
      follow the target. */
  function Approved(t: Tables, source: Id, target: Id): set<Id> {
    set q | q in t.requests && t.requests[q].target == target
         && Follow(t.requests[q].follower, source) in t.follows.Values
  }

  /** The follows by the pair they join. */
  function ByPair(follows: map<Id, Follow>): (rows: map<Follow, Id>)
    requires Unique(follows)
    ensures forall e :: e in rows <==> e in follows.Values
    ensures forall e :: e in rows ==> rows[e] in follows && follows[rows[e]] == e
  {
    map f | f in follows :: follows[f] := f
  }

  /** The lists of local owners who follow both that gain the target. */
  function Gaining(t: Tables, source: Id, target: Id): set<Id> {
    set m | m in t.members && m.1 == source && m.0 in t.owners && t.owners[m.0] in t.local
         && Follow(t.owners[m.0], source) in t.follows.Values
         && Follow(t.owners[m.0], target) in t.follows.Values
         && (m.0, target) !in t.members :: m.0
  }

  /** The memberships of local owners who follow the source alone. */
  function Moving(t: Tables, source: Id, target: Id): set<Id> {
    set m | m in t.members && m.1 == source && m.0 in t.owners && t.owners[m.0] in t.local
         && t.owners[m.0] != target
         && Follow(t.owners[m.0], source) in t.follows.Values
         && Follow(t.owners[m.0], target) !in t.follows.Values
         && (m.0, target) !in t.members :: m.0
  }

  /** Their follows. */
  function MovingFollows(t: Tables, source: Id, target: Id): set<Id> {
    set f | f in t.follows && t.follows[f].target == source
         && t.follows[f].follower in t.local && t.follows[f].follower != target
         && Follow(t.follows[f].follower, target) !in t.follows.Values
  }

  /** The rows the INSERT adds, each hung on the owner's follow of the target. */
  function Gained(t: Tables, source: Id, target: Id): map<(Id, Id), Hangs>
    requires Unique(t.follows)
  {
    var rows := ByPair(t.follows);
    map l | l in Gaining(t, source, target) :: (l, target) := OnFollow(rows[Follow(t.owners[l], target)])
  }

  function WithGained(t: Tables, source: Id, target: Id): Tables
    requires Unique(t.follows)
  {
    t.(members := t.members + Gained(t, source, target))
  }

  function MovedMembers(t: Tables, source: Id, target: Id): map<(Id, Id), Hangs> {
    var lists := Moving(t, source, target);
    (map m | m in t.members && !(m.1 == source && m.0 in lists) :: t.members[m])
      + map l | l in lists :: (l, target) := t.members[(l, source)]
  }

  function WithMoved(t: Tables, source: Id, target: Id): Tables {
    t.(members := MovedMembers(t, source, target))
  }

  function WithFollowsMoved(t: Tables, source: Id, target: Id): Tables {
    t.(follows := map f | f in t.follows ::
         if f in MovingFollows(t, source, target) then Follow(t.follows[f].follower, target) else t.follows[f])
  }

  /** A list of a local owner who follows both. */
  predicate FollowsBoth(t: Tables, list: Id, source: Id, target: Id) {
    && list in t.owners && t.owners[list] in t.local
    && Follow(t.owners[list], source) in t.follows.Values
    && Follow(t.owners[list], target) in t.follows.Values
  }

  lemma GainingKeeps(t: Tables, source: Id, target: Id)
    requires Consistent(t)
    ensures var u := WithGained(t, source, target);
            && Consistent(u) && u == t.(members := u.members)
            && (forall m :: m in t.members ==> m in u.members && u.members[m] == t.members[m])
            && (forall m :: m in u.members && m !in t.members ==> m.1 == target && FollowsBoth(t, m.0, source, target))
            && (forall l :: (l, source) in t.members && FollowsBoth(t, l, source, target)
                  ==> (l, target) in u.members)
  {
    var u, gained := WithGained(t, source, target), Gaining(t, source, target);
    forall l | (l, source) in t.members && FollowsBoth(t, l, source, target) && (l, target) !in t.members
      ensures l in gained
    {
      assert (l, source).0 == l;
    }
    var rows := ByPair(t.follows);
    forall m | m in u.members ensures HangsRight(u, m.0, m.1, u.members[m]) {
      if m in t.members {
        assert HangsRight(t, m.0, m.1, t.members[m]);
      } else {
        assert u.members[m] == OnFollow(rows[Follow(t.owners[m.0], target)]);
      }
    }
  }

  /** A list never holds an account its owner neither is, nor follows, nor has
      asked to follow. */
  lemma HeldAccountsAreFollowed(t: Tables, list: Id, member: Id)
    requires Consistent(t) && (list, member) in t.members
    requires forall q :: q in t.requests ==> t.requests[q] != Follow(t.owners[list], member)
    ensures list in t.owners
    ensures t.owners[list] == member || Follow(t.owners[list], member) in t.follows.Values
  {
    assert HangsRight(t, (list, member).0, (list, member).1, t.members[(list, member)]);
  }

  /** No follower of the source waits to follow the target. */
  ghost predicate NonePending(t: Tables, source: Id, target: Id) {
    forall q :: q in t.requests && t.requests[q].target == target ==>
      Follow(t.requests[q].follower, source) !in t.follows.Values
  }

  /** The follows after: those that moved join the target now. */
  lemma FollowsAfter(t: Tables, source: Id, target: Id, a: Id, b: Id)
    ensures Follow(a, b) in WithFollowsMoved(t, source, target).follows.Values <==>
              || (Follow(a, b) in t.follows.Values
                  && (exists f :: f in t.follows && t.follows[f] == Follow(a, b)
                        && f !in MovingFollows(t, source, target)))
              || (b == target && exists f :: f in MovingFollows(t, source, target) && t.follows[f].follower == a)
  {
    var u, moving := WithFollowsMoved(t, source, target), MovingFollows(t, source, target);
    if Follow(a, b) in u.follows.Values {
      var f :| f in u.follows && u.follows[f] == Follow(a, b);
      assert f in t.follows;
    }
    if f :| f in t.follows && t.follows[f] == Follow(a, b) && f !in moving {
      assert u.follows[f] == Follow(a, b);
    }
    if f :| f in moving && t.follows[f].follower == a && b == target {
      assert u.follows[f] == Follow(a, b);
    }
  }

  lemma MovingKeepsSound(t: Tables, source: Id, target: Id)
    requires Sound(t) && source != target && NonePending(t, source, target)
    ensures Sound(WithFollowsMoved(t, source, target))
  {
    var u, moving := WithFollowsMoved(t, source, target), MovingFollows(t, source, target);
    forall f, g | f in u.follows && g in u.follows && u.follows[f] == u.follows[g] ensures f == g {
      assert t.follows[f] in t.follows.Values && t.follows[g] in t.follows.Values;
      assert t.follows[f] == t.follows[g];
    }
    forall q | q in u.requests ensures u.requests[q] !in u.follows.Values {
      var e := u.requests[q];
      FollowsAfter(t, source, target, e.follower, e.target);
      if f :| f in moving && t.follows[f].follower == e.follower {
        assert t.follows[f] in t.follows.Values;
      }
    }
  }

  /** With nothing pending, a membership moves exactly when the follow it hangs
      on does. */
  lemma MembershipsMoveWithFollows(t: Tables, source: Id, target: Id, list: Id)
    requires Consistent(t) && source != target && NonePending(t, source, target)
    requires (list, source) in t.members
    ensures list in t.owners
    ensures list in Moving(t, source, target)
       <==> t.members[(list, source)].OnFollow?
            && t.members[(list, source)].follow in MovingFollows(t, source, target)
  {
    var hangs := t.members[(list, source)];
    assert HangsRight(t, (list, source).0, (list, source).1, hangs);
    var owner := t.owners[list];
    if Follow(owner, source) in t.follows.Values {
      assert !hangs.OnRequest?;
      if (list, target) in t.members && owner != target {
        HeldAccountsAreFollowed(t, list, target);
      }
      assert (list, source).0 == list;
    }
  }

  lemma MovingKeepsHung(t: Tables, source: Id, target: Id)
    requires Consistent(t) && source != target && NonePending(t, source, target)
    ensures Hung(WithFollowsMoved(WithMoved(t, source, target), source, target))
  {
    var mid := WithMoved(t, source, target);
    var u, lists := WithFollowsMoved(mid, source, target), Moving(t, source, target);
    forall m | m in u.members ensures HangsRight(u, m.0, m.1, u.members[m]) {
      if m.1 == target && m.0 in lists {
        MembershipsMoveWithFollows(t, source, target, m.0);
        assert HangsRight(t, (m.0, source).0, (m.0, source).1, t.members[(m.0, source)]);
      } else {
        assert HangsRight(t, m.0, m.1, t.members[m]);
        if m.1 == source {
          MembershipsMoveWithFollows(t, source, target, m.0);
        }
      }
    }
  }

  lemma CountMoved(t: Tables, source: Id, target: Id, account: Id, incoming: bool)
    requires source != target
    ensures Count(WithFollowsMoved(t, source, target).follows, account, incoming)
         == Count(t.follows, account, incoming)
            + if !incoming then 0
              else if account == target then |MovingFollows(t, source, target)|
              else if account == source then -|MovingFollows(t, source, target)|
              else 0
  {
    var moving := MovingFollows(t, source, target);
    var rows := Rows(t.follows, account, incoming);
    var after := Rows(WithFollowsMoved(t, source, target).follows, account, incoming);
    if incoming && account == target {
      assert after == rows + moving;
    } else if incoming && account == source {
      assert after == rows - moving;
      Sizes(rows, moving);
    } else {
      assert after == rows;
    }
  }

  // ── The whole move ──────────────────────────────────────────────────────

  /** The requests approved, each once, in the order they are read. */
  ghost predicate Approves(t: Tables, source: Id, target: Id, requests: seq<Id>) {
    && Distinct(requests)
    && forall q :: q in requests <==> q in Approved(t, source, target)
  }

  /** `rewrite_follows` up to its last statement, which moves the follows. */
  ghost function Prepared(t: Tables, source: Id, target: Id, requests: seq<Id>): Tables
    requires Consistent(t) && Approves(t, source, target, requests)
  {
    AuthorizingAllGrows(t, requests);
    WithMoved(WithGained(AuthorizedAll(t, requests), source, target), source, target)
  }

  /** `move_worker` between two local accounts: the follows rewritten, and both
      counters changed by how many moved. */
  ghost function Moved(t: Tables, source: Id, target: Id, requests: seq<Id>): Tables
    requires Consistent(t) && Approves(t, source, target, requests)
  {
    var ready := Prepared(t, source, target, requests);
    Settle(WithFollowsMoved(ready, source, target), source, target, |MovingFollows(ready, source, target)|)
  }

  /** The two counter updates of `move_worker`. */
  function Settle(t: Tables, source: Id, target: Id, moved: int): Tables {
    CountBy(CountBy(t, source, -moved), target, moved)
  }

  /** What has changed by the time the follows move: only the approved requests
      and their follows, and the memberships. */
  ghost predicate ReadyFrom(t: Tables, ready: Tables, source: Id, target: Id, requests: seq<Id>) {
    && Sound(ready) && NonePending(ready, source, target)
    && Grown(t, ready, requests)
    && ready.owners == t.owners && ready.local == t.local
    && (forall e :: e in Edges(t, requests) ==> e.target == target)
    && (forall account :: Drift(ready, account) == Drift(t, account))
  }

  lemma EdgesJoinTheTarget(t: Tables, source: Id, target: Id, requests: seq<Id>, e: Follow)
    requires Approves(t, source, target, requests) && e in Edges(t, requests)
    ensures e.target == target
  {
    var q :| q in requests && q in t.requests && t.requests[q] == e;
    assert q in Approved(t, source, target);
  }

  lemma NonePendingAfterApproving(t: Tables, a: Tables, source: Id, target: Id, requests: seq<Id>)
    requires source != target && Approves(t, source, target, requests)
    requires Grown(t, a, requests) && OtherwiseKept(t, a, requests)
    ensures NonePending(a, source, target)
  {
    forall q | q in a.requests && a.requests[q].target == target
      ensures Follow(a.requests[q].follower, source) !in a.follows.Values
    {
      var e := Follow(a.requests[q].follower, source);
      assert q !in Approved(t, source, target);
      if e in Edges(t, requests) {
        EdgesJoinTheTarget(t, source, target, requests, e);
      }
    }
  }

  lemma PreparedKeeps(t: Tables, source: Id, target: Id, requests: seq<Id>)
    requires Consistent(t) && Approves(t, source, target, requests)
    ensures var a, ready := AuthorizedAll(t, requests), Prepared(t, source, target, requests);
            ready == a.(members := ready.members)
  {
  }

  lemma MembersDoNotMatter(t: Tables, u: Tables, account: Id)
    requires u == t.(members := u.members)
    ensures Drift(u, account) == Drift(t, account)
  {
  }

  lemma ReadyToMove(t: Tables, source: Id, target: Id, requests: seq<Id>)
    returns (a: Tables, ready: Tables)
    requires Consistent(t) && source != target && Approves(t, source, target, requests)
    ensures a == AuthorizedAll(t, requests) && ready == Prepared(t, source, target, requests)
    ensures ready.follows == a.follows && ready.stats == a.stats
    ensures Consistent(a) && NonePending(a, source, target) && OtherwiseKept(t, a, requests)
    ensures ReadyFrom(t, ready, source, target, requests)
  {
    AuthorizingAllGrows(t, requests);
    PreparedKeeps(t, source, target, requests);
    a, ready := AuthorizedAll(t, requests), Prepared(t, source, target, requests);
    NonePendingAfterApproving(t, a, source, target, requests);
    forall e | e in Edges(t, requests) ensures e.target == target {
      EdgesJoinTheTarget(t, source, target, requests, e);
    }
    forall account ensures Drift(ready, account) == Drift(t, account) {
      MembersDoNotMatter(a, ready, account);
    }
  }

  /** All that the last steps change are the follows and the counters. */
  lemma MovedFrom(t: Tables, source: Id, target: Id, requests: seq<Id>)
    requires Consistent(t) && Approves(t, source, target, requests)
    ensures var ready, v := Prepared(t, source, target, requests), Moved(t, source, target, requests);
            v == WithFollowsMoved(ready, source, target).(stats := v.stats)
  {
  }

  lemma MovedIs(t: Tables, source: Id, target: Id, requests: seq<Id>, u: Tables)
    requires Consistent(t) && Approves(t, source, target, requests)
    requires u == WithFollowsMoved(Prepared(t, source, target, requests), source, target)
    ensures Moved(t, source, target, requests)
         == Settle(u, source, target, |MovingFollows(Prepared(t, source, target, requests), source, target)|)
  {
  }

  /** Pairs stay unique, nobody follows themselves, and every list membership
      still hangs on a follow or request of its owner's for that very member. */
  lemma MoveKeepsConsistent(t: Tables, source: Id, target: Id, requests: seq<Id>)
    requires Consistent(t) && source != target && Approves(t, source, target, requests)
    ensures Consistent(Moved(t, source, target, requests))
  {
    var a, ready := ReadyToMove(t, source, target, requests);
    GainingKeeps(a, source, target);
    MovingKeepsHung(WithGained(a, source, target), source, target);
    MovingKeepsSound(ready, source, target);
    MovedFrom(t, source, target, requests);
    StatsDoNotMatter(WithFollowsMoved(ready, source, target), Moved(t, source, target, requests));
  }

  lemma StatsDoNotMatter(t: Tables, u: Tables)
    requires Consistent(t) && u == t.(stats := u.stats)
    ensures Consistent(u)
  {
    forall m | m in u.members ensures HangsRight(u, m.0, m.1, u.members[m]) {
      assert HangsRight(t, m.0, m.1, t.members[m]);
    }
  }

  /** No follow is lost and none made but those approved: each keeps its row
      and its follower. */
  lemma MoveConservesFollows(t: Tables, source: Id, target: Id, requests: seq<Id>)
    requires Consistent(t) && source != target && Approves(t, source, target, requests)
    ensures var v := Moved(t, source, target, requests);
            && |v.follows| == |t.follows| + |requests|
            && (forall f :: f in t.follows ==>
                  && f in v.follows && v.follows[f].follower == t.follows[f].follower
                  && (v.follows[f] == t.follows[f] || (t.follows[f].target == source && v.follows[f].target == target)))
  {
    var _, ready := ReadyToMove(t, source, target, requests);
    MovedFrom(t, source, target, requests);
    KeepRowsAndFollowers(t.follows, ready, source, target);
  }

  lemma KeepRowsAndFollowers(before: map<Id, Follow>, t: Tables, source: Id, target: Id)
    requires forall f :: f in before ==> f in t.follows && t.follows[f] == before[f]
    ensures var after := WithFollowsMoved(t, source, target).follows;
            && |after| == |t.follows|
            && (forall f :: f in before ==>
                  && f in after && after[f].follower == before[f].follower
                  && (after[f] == before[f] || (before[f].target == source && after[f].target == target)))
  {
    SameKeys(WithFollowsMoved(t, source, target).follows, t.follows);
  }

  lemma SameKeys(a: map<Id, Follow>, b: map<Id, Follow>)
    requires a.Keys == b.Keys
    ensures |a| == |b|
  {
    assert |a| == |a.Keys| && |b| == |b.Keys|;
  }

  /** Every other local follower of the source follows the target afterwards. */
  lemma MoveBringsEveryFollower(t: Tables, source: Id, target: Id, requests: seq<Id>, account: Id)
    requires Consistent(t) && source != target && Approves(t, source, target, requests)
    requires Follow(account, source) in t.follows.Values && account in t.local && account != target
    ensures Follow(account, target) in Moved(t, source, target, requests).follows.Values
  {
    var _, ready := ReadyToMove(t, source, target, requests);
    MovedFrom(t, source, target, requests);
    FollowersFollow(ready, source, target, account);
  }

  lemma FollowersFollow(t: Tables, source: Id, target: Id, account: Id)
    requires source != target && account != target && account in t.local
    requires Follow(account, source) in t.follows.Values
    ensures Follow(account, target) in WithFollowsMoved(t, source, target).follows.Values
  {
    FollowsAfter(t, source, target, account, target);
    if Follow(account, target) in t.follows.Values {
      var g :| g in t.follows && t.follows[g] == Follow(account, target);
      assert g !in MovingFollows(t, source, target);
    } else {
      var f :| f in t.follows && t.follows[f] == Follow(account, source);
      assert f in MovingFollows(t, source, target);
    }
  }

  /** And every list such a follower keeps the source on holds the target. */
  lemma MoveCarriesLists(t: Tables, source: Id, target: Id, requests: seq<Id>, list: Id)
    requires Consistent(t) && source != target && Approves(t, source, target, requests)
    requires (list, source) in t.members && list in t.owners
    requires t.owners[list] in t.local && t.owners[list] != target
    requires Follow(t.owners[list], source) in t.follows.Values
    ensures (list, target) in Moved(t, source, target, requests).members
  {
    var a, ready := ReadyToMove(t, source, target, requests);
    MovedFrom(t, source, target, requests);
    assert HangsRight(t, (list, source).0, (list, source).1, t.members[(list, source)]);
    assert (list, source) in a.members;
    ListsCarry(a, source, target, list);
  }

  lemma ListsCarry(t: Tables, source: Id, target: Id, list: Id)
    requires Consistent(t) && source != target
    requires (list, source) in t.members && list in t.owners
    requires t.owners[list] in t.local && t.owners[list] != target
    requires Follow(t.owners[list], source) in t.follows.Values
    ensures (list, target) in WithMoved(WithGained(t, source, target), source, target).members
  {
    GainingKeeps(t, source, target);
    var gained := WithGained(t, source, target);
    if (list, target) !in gained.members {
      assert (list, source).0 == list && list in Moving(gained, source, target);
    } else {
      assert (list, target).1 != source;
    }
  }

  /** An account whose counters cover its follows keeps the distance between
      them: exact ones stay exact, and the floor is never reached. */
  lemma MoveKeepsDrift(t: Tables, source: Id, target: Id, requests: seq<Id>, account: Id)
    requires Consistent(t) && source != target && Approves(t, source, target, requests)
    requires Covered(t, account)
    ensures Drift(Moved(t, source, target, requests), account) == Drift(t, account)
  {
    var _, ready := ReadyToMove(t, source, target, requests);
    var u, moved := WithFollowsMoved(ready, source, target), |MovingFollows(ready, source, target)|;
    CountMoved(ready, source, target, source, true);
    CountMoved(ready, source, target, account, true);
    CountMoved(ready, source, target, account, false);
    Settled(ready, u, source, target, moved, account);
  }

  /** The source loses exactly the follows that move, and the target gains them
      and the requests approved. */
  lemma MoveCounts(t: Tables, source: Id, target: Id, requests: seq<Id>)
    requires Consistent(t) && source != target && Approves(t, source, target, requests)
    ensures var v := Moved(t, source, target, requests);
            var moved := |MovingFollows(Prepared(t, source, target, requests), source, target)|;
            && Count(v.follows, source, true) == Count(t.follows, source, true) - moved
            && Count(v.follows, target, true) == Count(t.follows, target, true) + |requests| + moved
  {
    var _, ready := ReadyToMove(t, source, target, requests);
    MovedFrom(t, source, target, requests);
    CountMoved(ready, source, target, source, true);
    CountMoved(ready, source, target, target, true);
    forall f | f in ready.follows && f !in t.follows ensures ready.follows[f].target == target {
      AddedIsNew(t, ready, requests, f);
    }
    CountGrown(t.follows, ready.follows, source, target);
  }

  /** Follows of the target count for it and not for the source. */
  lemma CountGrown(follows: map<Id, Follow>, more: map<Id, Follow>, source: Id, target: Id)
    requires source != target
    requires forall f :: f in follows ==> f in more && more[f] == follows[f]
    requires forall f :: f in more && f !in follows ==> more[f].target == target
    ensures Count(more, source, true) == Count(follows, source, true)
    ensures Count(more, target, true) == Count(follows, target, true) + |more| - |follows|
  {
    assert Rows(more, source, true) == Rows(follows, source, true);
    RowsGrown(follows, more, target);
    Sizes(more.Keys, follows.Keys);
    assert |more.Keys| == |more| && |follows.Keys| == |follows|;
  }

  lemma RowsGrown(follows: map<Id, Follow>, more: map<Id, Follow>, target: Id)
    requires forall f :: f in follows ==> f in more && more[f] == follows[f]
    requires forall f :: f in more && f !in follows ==> more[f].target == target
    ensures Count(more, target, true) == Count(follows, target, true) + |more.Keys - follows.Keys|
  {
    var rows, added := Rows(follows, target, true), more.Keys - follows.Keys;
    assert Rows(more, target, true) == rows + added;
    assert rows !! added;
  }

  lemma AddedIsNew(t: Tables, u: Tables, requests: seq<Id>, f: Id)
    requires Grown(t, u, requests) && Unique(u.follows) && f in u.follows && f !in t.follows
    ensures u.follows[f] in Edges(t, requests)
  {
    assert u.follows[f] in u.follows.Values;
    forall g | g in t.follows ensures t.follows[g] != u.follows[f] {
      assert u.follows[g] == t.follows[g] && g != f;
    }
  }

  /** The two counter updates, with the floor out of reach. */
  lemma Settled(t: Tables, u: Tables, source: Id, target: Id, moved: int, account: Id)
    requires source != target && u.stats == t.stats && Covered(t, account)
    requires 0 <= moved <= Count(t.follows, source, true)
    requires Count(u.follows, account, false) == Count(t.follows, account, false)
    requires Count(u.follows, account, true)
          == Count(t.follows, account, true)
             + if account == target then moved else if account == source then -moved else 0
    ensures Drift(Settle(u, source, target, moved), account) == Drift(t, account)
  {
  }

  // ── What authorising loses ──────────────────────────────────────────────

  /** A membership that hung on the request authorised does not come to hang on
      the follow: it is gone. */
  lemma AuthorizingDropsWhatHungOnTheRequest(t: Tables, request: Id, member: (Id, Id))
    requires Consistent(t) && request in t.requests
    requires member in t.members
    ensures member in Authorized(t, request).members <==> t.members[member] != OnRequest(request)
  {
    AuthorizingIsFollowing(t, request);
  }

  lemma AuthorizedIs(t: Tables, request: Id)
    requires request in t.requests
    ensures var edge := t.requests[request];
            Authorized(t, request)
              == if edge in t.follows.Values then Withdrawn(t, request)
                 else Following(Withdrawn(t, request), edge.follower, edge.target)
  {
  }

  lemma SameCounters(t: Tables, u: Tables, account: Id)
    requires u.follows == t.follows && u.stats == t.stats
    ensures Drift(u, account) == Drift(t, account)
  {
  }

  /** Authorising one who follows already makes no second follow and counts
      nothing; one who does not is followed and counted once. Either way the
      request is gone. */
  lemma AuthorizingFollowsOnce(t: Tables, request: Id, account: Id)
    requires request in t.requests && IdsBelow(t)
    ensures var u, edge := Authorized(t, request), t.requests[request];
            && u.requests == t.requests - {request}
            && edge in u.follows.Values
            && (if edge in t.follows.Values then u.follows == t.follows && u.stats == t.stats
                else |u.follows| == |t.follows| + 1 && Drift(u, account) == Drift(t, account))
  {
    var edge, u := t.requests[request], Withdrawn(t, request);
    AuthorizedIs(t, request);
    SameCounters(t, u, account);
    OneFollowMore(u, edge.follower, edge.target, account);
  }

  lemma OneFollowMore(t: Tables, follower: Id, target: Id, account: Id)
    requires IdsBelow(t)
    ensures var u := Following(t, follower, target);
            && u.requests == t.requests && Follow(follower, target) in u.follows.Values
            && |u.follows| == |t.follows| + 1 && Drift(u, account) == Drift(t, account)
  {
    var u := Following(t, follower, target);
    assert u.follows == t.follows[t.next := Follow(follower, target)];
    OneMoreRow(t.follows, t.next, Follow(follower, target));
    ValuesGrow(t.follows, t.next, Follow(follower, target));
    FollowingKeepsDrift(t, follower, target, account);
  }
}
