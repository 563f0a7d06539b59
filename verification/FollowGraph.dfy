/** What changes one relationship at a time: following, asking to, authorising,
    unfollowing and purging. Each keeps the tables consistent. */
module FollowGraph {
  import opened Basics
  import opened Follows
  import opened Moves

  /** `follow` adds a row only for two accounts with neither between them. */
  ghost predicate Unrelated(t: Tables, follower: Id, target: Id) {
    && follower != target
    && Follow(follower, target) !in t.follows.Values && Follow(follower, target) !in t.requests.Values
  }

  function Requesting(t: Tables, request: Id, follower: Id, target: Id): Tables {
    t.(requests := t.requests[request := Follow(follower, target)])
  }

  lemma FollowingKeepsConsistent(t: Tables, follower: Id, target: Id)
    requires Consistent(t) && Unrelated(t, follower, target)
    ensures Consistent(Following(t, follower, target))
  {
    var u := Following(t, follower, target);
    assert u.follows == t.follows[t.next := Follow(follower, target)] && u.members == t.members;
    ValuesGrow(t.follows, t.next, Follow(follower, target));
    forall f | f in t.follows ensures t.follows[f] != Follow(follower, target) {
      assert t.follows[f] in t.follows.Values;
    }
    forall q | q in t.requests ensures u.requests[q] !in u.follows.Values {
      assert t.requests[q] in t.requests.Values;
    }
    forall m | m in u.members ensures HangsRight(u, m.0, m.1, u.members[m]) {
      assert HangsRight(t, m.0, m.1, t.members[m]);
    }
  }

  lemma RequestingKeepsConsistent(t: Tables, request: Id, follower: Id, target: Id)
    requires Consistent(t) && Unrelated(t, follower, target) && request !in t.requests
    ensures Consistent(Requesting(t, request, follower, target))
  {
    var u := Requesting(t, request, follower, target);
    forall q | q in t.requests ensures t.requests[q] != Follow(follower, target) {
      assert t.requests[q] in t.requests.Values;
    }
    forall m | m in u.members ensures HangsRight(u, m.0, m.1, u.members[m]) {
      assert HangsRight(t, m.0, m.1, t.members[m]);
    }
  }

  /** Deleting rows, and the memberships that hung on them. */
  lemma DeletingKeepsConsistent(t: Tables, u: Tables)
    requires Consistent(t) && u.next == t.next
    requires forall f :: f in u.follows ==> f in t.follows && u.follows[f] == t.follows[f]
    requires forall q :: q in u.requests ==> q in t.requests && u.requests[q] == t.requests[q]
    requires forall m :: m in u.members ==>
      && m in t.members && u.members[m] == t.members[m] && Stands(u.members[m], u.follows, u.requests)
      && m.0 in u.owners && m.0 in t.owners && u.owners[m.0] == t.owners[m.0]
    ensures Consistent(u)
  {
    forall q | q in u.requests ensures u.requests[q] !in u.follows.Values {
      assert t.requests[q] !in t.follows.Values;
    }
    forall m | m in u.members ensures HangsRight(u, m.0, m.1, u.members[m]) {
      assert HangsRight(t, m.0, m.1, t.members[m]);
    }
  }

  lemma UnfollowingKeepsConsistent(t: Tables, row: Id)
    requires Consistent(t) && row in t.follows
    ensures Consistent(Unfollowing(t, row))
  {
    var u := Unfollowing(t, row);
    assert u.follows == t.follows - {row} && u.members == Standing(t.members, u.follows, t.requests);
    forall m | m in u.members ensures m.0 in t.owners {
      assert HangsRight(t, m.0, m.1, t.members[m]);
    }
    DeletingKeepsConsistent(t, u);
  }

  lemma PurgingKeepsConsistent(t: Tables, account: Id)
    requires Consistent(t)
    ensures Consistent(Purged(t, account))
  {
    DeletingKeepsConsistent(t, Purged(t, account));
  }

  // ── What goes, and what stays ───────────────────────────────────────────

  /** Deleting a row takes its pair, and no other. */
  lemma OneRowLess(rows: map<Id, Follow>, row: Id, e: Follow)
    requires Unique(rows) && row in rows
    ensures e in (rows - {row}).Values <==> e in rows.Values && e != rows[row]
  {
    var less := rows - {row};
    if e in rows.Values && e != rows[row] {
      var f :| f in rows && rows[f] == e;
      assert f in less && less[f] == e;
    }
  }

  /** Unfollowing takes one follow and the memberships that hung on it. */
  lemma UnfollowingTakesJust(t: Tables, row: Id, m: (Id, Id))
    requires Consistent(t) && row in t.follows
    ensures var u := Unfollowing(t, row);
            && u.follows == t.follows - {row} && u.requests == t.requests && u.owners == t.owners
            && (m in u.members <==> m in t.members && t.members[m] != OnFollow(row))
            && (m in u.members ==> u.members[m] == t.members[m])
  {
    assert m in t.members ==> HangsRight(t, m.0, m.1, t.members[m]);
  }

  /** A purge takes every follow by or of the account, every request of its own,
      every list of its own, and every membership of it or on those; and no
      other row of any of the tables. */
  lemma PurgeTakesJust(t: Tables, account: Id, row: Id, m: (Id, Id))
    requires Consistent(t)
    ensures var u := Purged(t, account);
            && (row in u.follows <==>
                  row in t.follows && t.follows[row].follower != account && t.follows[row].target != account)
            && (row in u.follows ==> u.follows[row] == t.follows[row])
            && (row in u.requests <==> row in t.requests && t.requests[row].follower != account)
            && (row in u.requests ==> u.requests[row] == t.requests[row])
            && (row in u.owners <==> row in t.owners && t.owners[row] != account)
            && (row in u.owners ==> u.owners[row] == t.owners[row])
            && (m in u.members <==>
                  m in t.members && m.1 != account && m.0 in t.owners && t.owners[m.0] != account)
            && (m in u.members ==> u.members[m] == t.members[m])
  {
    assert m in t.members ==> HangsRight(t, m.0, m.1, t.members[m]);
  }

  /** Its own counters are none of the purge's business. */
  lemma PurgeLeavesItsOwnCounters(t: Tables, account: Id)
    requires Consistent(t)
    ensures Purged(t, account).Stat(account) == t.Stat(account)
    ensures Purged(t, account).stats.Keys == t.stats.Keys
  {
    assert Between(t.follows, account, account) == {};
  }
}
