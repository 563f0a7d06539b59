/** The follow graph and the counters kept beside it: following, unfollowing,
    and purging an account. */
module Follows {
  import opened Basics

  datatype Follow = Follow(follower: Id, target: Id)

  /** A row of `account_stats`. */
  datatype Stats = Stats(followers: int, following: int)

  /** What a list membership hangs on: a follow, a follow request, or nothing,
      for an account on its own list. */
  datatype Hangs = OnFollow(follow: Id) | OnRequest(request: Id) | Own

  /** The tables. Follows and requests are keyed by their row ids, the next of
      which is `next`; memberships by list and account. */
  datatype Tables = Tables(
    next: Id,
    follows: map<Id, Follow>,
    requests: map<Id, Follow>,
    members: map<(Id, Id), Hangs>,
    owners: map<Id, Id>,
    local: set<Id>,
    stats: map<Id, Stats>)
  {
    function Stat(account: Id): Stats {
      if account in stats then stats[account] else Stats(0, 0)
    }
  }

  function Max(a: int, b: int): int {
    if a < b then b else a
  }

  // ── Counting ────────────────────────────────────────────────────────────

  /** The account a follow counts for: its target as a follower, its follower
      as a followed account. */
  function End(follow: Follow, incoming: bool): Id {
    if incoming then follow.target else follow.follower
  }

  function Rows(follows: map<Id, Follow>, account: Id, incoming: bool): set<Id> {
    set f | f in follows && End(follows[f], incoming) == account
  }

  function Count(follows: map<Id, Follow>, account: Id, incoming: bool): nat {
    |Rows(follows, account, incoming)|
  }

  lemma Sizes(whole: set<Id>, part: set<Id>)
    requires part <= whole
    ensures |whole - part| == |whole| - |part| && |part| <= |whole|
  {
    assert whole == (whole - part) + part;
  }

  lemma CountAdded(follows: map<Id, Follow>, row: Id, edge: Follow, account: Id, incoming: bool)
    requires row !in follows
    ensures Count(follows[row := edge], account, incoming)
         == Count(follows, account, incoming) + if account == End(edge, incoming) then 1 else 0
  {
    var rows, more := Rows(follows, account, incoming), Rows(follows[row := edge], account, incoming);
    if account == End(edge, incoming) {
      assert more == rows + {row};
    } else {
      assert more == rows;
    }
  }

  lemma CountDropped(follows: map<Id, Follow>, row: Id, account: Id, incoming: bool)
    requires row in follows
    ensures Count(follows - {row}, account, incoming)
         == Count(follows, account, incoming) - if account == End(follows[row], incoming) then 1 else 0
  {
    var less := follows - {row};
    assert less[row := follows[row]] == follows;
    CountAdded(less, row, follows[row], account, incoming);
  }

  /** How far an account's counters stand from its follows. */
  function Drift(t: Tables, account: Id): Stats {
    Stats(t.Stat(account).followers - Count(t.follows, account, true),
          t.Stat(account).following - Count(t.follows, account, false))
  }

  /** Its counters are no less than its follows. */
  predicate Covered(t: Tables, account: Id) {
    0 <= Drift(t, account).followers && 0 <= Drift(t, account).following
  }

  // ── Counters ────────────────────────────────────────────────────────────

  /** `on_follow_created`'s upserts. */
  function Created(t: Tables, follower: Id, target: Id): Tables {
    var s := t.Stat(target);
    var u := t.(stats := t.stats[target := s.(followers := s.followers + 1)]);
    var r := u.Stat(follower);
    u.(stats := u.stats[follower := r.(following := r.following + 1)])
  }

  /** `on_follow_removed`'s updates, which touch only rows there are. */
  function Removed(t: Tables, follower: Id, target: Id): Tables {
    var u :=
      if target !in t.stats then t
      else t.(stats := t.stats[target := t.stats[target].(followers := Max(t.stats[target].followers - 1, 0))]);
    if follower !in u.stats then u
    else u.(stats := u.stats[follower := u.stats[follower].(following := Max(u.stats[follower].following - 1, 0))])
  }

  /** `update_followers_count`. */
  function CountBy(t: Tables, account: Id, change: int): Tables {
    if change == 0 then t
    else t.(stats := t.stats[account := t.Stat(account).(followers := Max(t.Stat(account).followers + change, 0))])
  }

  // ── Following and unfollowing ───────────────────────────────────────────

  /** A new follow, counted. */
  function Following(t: Tables, follower: Id, target: Id): Tables {
    Created(t.(next := t.next + 1, follows := t.follows[t.next := Follow(follower, target)]), follower, target)
  }

  /** What a deletion leaves, by the cascades of its foreign keys: memberships
      whose row is still there. */
  predicate Stands(hangs: Hangs, follows: map<Id, Follow>, requests: map<Id, Follow>) {
    match hangs
    case OnFollow(f) => f in follows
    case OnRequest(q) => q in requests
    case Own => true
  }

  function Standing(
    members: map<(Id, Id), Hangs>, follows: map<Id, Follow>, requests: map<Id, Follow>): map<(Id, Id), Hangs>
  {
    map m | m in members && Stands(members[m], follows, requests) :: members[m]
  }

  /** A follow deleted, and counted. */
  function Unfollowing(t: Tables, row: Id): Tables
    requires row in t.follows
  {
    var follows := t.follows - {row};
    Removed(t.(follows := follows, members := Standing(t.members, follows, t.requests)),
            t.follows[row].follower, t.follows[row].target)
  }

  predicate IdsBelow(t: Tables) {
    forall f :: f in t.follows ==> f < t.next
  }

  lemma FollowingKeepsDrift(t: Tables, follower: Id, target: Id, account: Id)
    requires IdsBelow(t)
    ensures Drift(Following(t, follower, target), account) == Drift(t, account)
  {
    CountAdded(t.follows, t.next, Follow(follower, target), account, true);
    CountAdded(t.follows, t.next, Follow(follower, target), account, false);
  }

  lemma UnfollowingKeepsDrift(t: Tables, row: Id, account: Id)
    requires row in t.follows && Covered(t, account)
    ensures Drift(Unfollowing(t, row), account) == Drift(t, account)
  {
    CountDropped(t.follows, row, account, true);
    CountDropped(t.follows, row, account, false);
  }

  // ── Purging ─────────────────────────────────────────────────────────────

  /** The rows `purge_associations` groups: `purged`'s follows of an account,
      and the account's follows of `purged`. */
  function Between(follows: map<Id, Follow>, follower: Id, target: Id): set<Id> {
    set f | f in follows && follows[f] == Follow(follower, target)
  }

  /** The followers each account loses with `purged`, in one grouped update. */
  function LessFollowers(stats: map<Id, Stats>, follows: map<Id, Follow>, purged: Id): map<Id, Stats> {
    map a | a in stats ::
      var n := |Between(follows, purged, a)|;
      if n == 0 then stats[a] else stats[a].(followers := Max(0, stats[a].followers - n))
  }

  function LessFollowing(stats: map<Id, Stats>, follows: map<Id, Follow>, purged: Id): map<Id, Stats> {
    map a | a in stats ::
      var n := |Between(follows, a, purged)|;
      if n == 0 then stats[a] else stats[a].(following := Max(0, stats[a].following - n))
  }

  /** The follows neither by nor of an account. */
  function Without(follows: map<Id, Follow>, account: Id): map<Id, Follow> {
    map f | f in follows && follows[f].follower != account && follows[f].target != account :: follows[f]
  }

  /** The requests of others. */
  function ByOthers(requests: map<Id, Follow>, account: Id): map<Id, Follow> {
    map q | q in requests && requests[q].follower != account :: requests[q]
  }

  /** The lists of others. */
  function OfOthers(owners: map<Id, Id>, account: Id): map<Id, Id> {
    map l | l in owners && owners[l] != account :: owners[l]
  }

  /** `purge_associations`: both sides' counters settled by grouped counts, and
      then the follows, the account's requests, its lists and its places on
      others' lists deleted. */
  function Purged(t: Tables, purged: Id): Tables {
    var follows, requests := Without(t.follows, purged), ByOthers(t.requests, purged);
    var owners := OfOthers(t.owners, purged);
    t.(stats := LessFollowing(LessFollowers(t.stats, t.follows, purged), t.follows, purged),
       follows := follows, requests := requests, owners := owners,
       members := OnListsOf(Standing(t.members, follows, requests), owners, purged))
  }

  /** The memberships of other accounts, on lists there are. */
  function OnListsOf(members: map<(Id, Id), Hangs>, owners: map<Id, Id>, purged: Id): map<(Id, Id), Hangs> {
    map m | m in members && m.1 != purged && m.0 in owners :: members[m]
  }

  lemma CountPurged(t: Tables, purged: Id, account: Id, incoming: bool)
    requires account != purged
    ensures var gone := if incoming then Between(t.follows, purged, account)
                        else Between(t.follows, account, purged);
            Count(Purged(t, purged).follows, account, incoming)
              == Count(t.follows, account, incoming) - |gone|
  {
    var gone := if incoming then Between(t.follows, purged, account) else Between(t.follows, account, purged);
    var rows := Rows(t.follows, account, incoming);
    assert Rows(Purged(t, purged).follows, account, incoming) == rows - gone;
    Sizes(rows, gone);
  }

  /** Purging an account leaves every other account's drift, and subtracts from
      its counters exactly the follows that went: the floor is never reached. */
  lemma PurgeKeepsDrift(t: Tables, purged: Id, account: Id)
    requires account != purged && Covered(t, account)
    ensures Drift(Purged(t, purged), account) == Drift(t, account)
    ensures var u := Purged(t, purged);
            && u.Stat(account).followers
               == t.Stat(account).followers - |Between(t.follows, purged, account)|
            && u.Stat(account).following
               == t.Stat(account).following - |Between(t.follows, account, purged)|
  {
    CountPurged(t, purged, account, true);
    CountPurged(t, purged, account, false);
  }

  // ── Floors ──────────────────────────────────────────────────────────────

  predicate NotBelowNought(t: Tables, account: Id) {
    0 <= t.Stat(account).followers && 0 <= t.Stat(account).following
  }

  /** Whatever the counters were, none is taken below nought. */
  lemma NoneGoesBelowNought(t: Tables, follower: Id, target: Id, change: int, account: Id)
    requires NotBelowNought(t, account)
    ensures NotBelowNought(Created(t, follower, target), account)
    ensures NotBelowNought(Removed(t, follower, target), account)
    ensures NotBelowNought(CountBy(t, target, change), account)
    ensures NotBelowNought(Purged(t, target), account)
  {
  }

  function UnfollowingAll(t: Tables, rows: seq<Id>): Tables {
    if rows == [] then t
    else
      var u := UnfollowingAll(t, rows[..|rows| - 1]);
      if rows[|rows| - 1] in u.follows then Unfollowing(u, rows[|rows| - 1]) else u
  }

  lemma {:induction false} UnfollowingAllKeepsDrift(t: Tables, rows: seq<Id>, account: Id)
    requires Covered(t, account)
    ensures var u := UnfollowingAll(t, rows);
            u.follows == t.follows - (set r | r in rows) && Drift(u, account) == Drift(t, account)
    decreases |rows|
  {
    if rows != [] {
      var rest, last := rows[..|rows| - 1], rows[|rows| - 1];
      UnfollowingAllKeepsDrift(t, rest, account);
      var u := UnfollowingAll(t, rest);
      DropOneMore(t.follows, rest, last);
      assert rows == rest + [last];
      if last in u.follows {
        UnfollowingKeepsDrift(u, last, account);
      }
    }
  }

  lemma DropOneMore(follows: map<Id, Follow>, rest: seq<Id>, last: Id)
    ensures follows - (set r | r in rest + [last]) == follows - (set r | r in rest) - {last}
  {
    assert (set r | r in rest + [last]) == (set r | r in rest) + {last};
  }

  /** The grouped subtraction comes to what deleting the follows one by one,
      in any order, and counting each would have. */
  lemma PurgeIsUnfollowingOneByOne(t: Tables, purged: Id, account: Id, rows: seq<Id>)
    requires account != purged && Covered(t, account)
    requires forall r :: r in rows <==>
      r in t.follows && (t.follows[r].follower == purged || t.follows[r].target == purged)
    ensures Purged(t, purged).follows == UnfollowingAll(t, rows).follows
    ensures Purged(t, purged).Stat(account) == UnfollowingAll(t, rows).Stat(account)
  {
    PurgeKeepsDrift(t, purged, account);
    UnfollowingAllKeepsDrift(t, rows, account);
    var u, v := Purged(t, purged), UnfollowingAll(t, rows);
    assert u.follows == v.follows;
    assert Drift(u, account) == Drift(v, account);
  }
}
