/** Redis sorted sets of status ids, as the feeds use them: ranks counted from
    the newest entry, and the cut that keeps the newest few. */
module SortedSets {
  import opened Basics

  /** The entries newer than `x`. */
  function Above(z: set<Id>, x: Id): set<Id> {
    set y | y in z && x < y
  }

  /** `ZREVRANK`: how many entries are newer than `x`. */
  function Rank(z: set<Id>, x: Id): nat {
    |Above(z, x)|
  }

  /** What `ZREMRANGEBYRANK 0 -(n + 1)` leaves: the newest `n` entries. */
  function Newest(z: set<Id>, n: nat): set<Id> {
    set x | x in z && Rank(z, x) < n
  }

  /** The entries with an id of at least `from`. */
  function From(z: set<Id>, from: Id): set<Id> {
    set x | x in z && from <= x
  }

  function Min(a: nat, b: nat): nat {
    if a < b then a else b
  }

  // ── Cardinality ─────────────────────────────────────────────────────────

  lemma {:induction false} SubsetSize(a: set<Id>, b: set<Id>)
    requires a <= b
    ensures |a| <= |b|
    ensures |a| == |b| ==> a == b
    decreases |a|
  {
    if a != {} {
      var x :| x in a;
      SubsetSize(a - {x}, b - {x});
      assert a == (a - {x}) + {x};
      assert b == (b - {x}) + {x};
    }
  }

  lemma RankMonotone(a: set<Id>, b: set<Id>, x: Id)
    requires a <= b
    ensures Rank(a, x) <= Rank(b, x)
  {
    SubsetSize(Above(a, x), Above(b, x));
  }

  /** A newer entry has a smaller rank. */
  lemma RankStrict(z: set<Id>, x: Id, y: Id)
    requires y in z && x < y
    ensures Rank(z, y) < Rank(z, x)
  {
    SubsetSize(Above(z, y) + {y}, Above(z, x));
  }

  lemma RankAntitone(z: set<Id>, x: Id, y: Id)
    requires x <= y
    ensures Rank(z, y) <= Rank(z, x)
  {
    SubsetSize(Above(z, y), Above(z, x));
  }

  lemma RankBelowSize(z: set<Id>, x: Id)
    requires x in z
    ensures Rank(z, x) < |z|
  {
    SubsetSize(Above(z, x) + {x}, z);
  }

  ghost predicate IsLeast(z: set<Id>, m: Id) {
    m in z && forall y :: y in z ==> m <= y
  }

  lemma {:induction false} HasLeast(z: set<Id>)
    requires z != {}
    ensures exists m :: IsLeast(z, m)
    decreases |z|
  {
    var x :| x in z;
    if z == {x} {
      assert IsLeast(z, x);
    } else {
      var rest := z - {x};
      assert rest != {};
      HasLeast(rest);
      var m :| IsLeast(rest, m);
      assert z == rest + {x};
      assert IsLeast(z, Min(m, x));
    }
  }

  /** `ZRANGE 0 0`, and the `min` of a list of ids. */
  function Oldest(z: set<Id>): (m: Id)
    requires z != {}
    ensures m in z && forall y :: y in z ==> m <= y
  {
    HasLeast(z);
    var m :| m in z && forall y :: y in z ==> m <= y;
    m
  }

  /** Taking the oldest entry away leaves the other ranks as they were. */
  lemma RankWithoutOldest(z: set<Id>, x: Id)
    requires x in z
    ensures Rank(z, Oldest(z)) == |z| - 1
    ensures x != Oldest(z) ==> Rank(z - {Oldest(z)}, x) == Rank(z, x)
  {
    var m := Oldest(z);
    assert Above(z, m) == z - {m};
    if x != m {
      assert Above(z - {m}, x) == Above(z, x);
    }
  }

  // ── The entry at a rank ─────────────────────────────────────────────────

  lemma {:induction false} EntryAtRankExists(z: set<Id>, k: nat)
    requires k < |z|
    ensures exists x :: x in z && Rank(z, x) == k
    decreases |z|
  {
    var m := Oldest(z);
    RankWithoutOldest(z, m);
    if k < |z| - 1 {
      EntryAtRankExists(z - {m}, k);
      var x :| x in z - {m} && Rank(z - {m}, x) == k;
      RankWithoutOldest(z, x);
    }
  }

  lemma RankInjective(z: set<Id>, x: Id, y: Id)
    requires x in z && y in z && Rank(z, x) == Rank(z, y)
    ensures x == y
  {
    if x < y {
      RankStrict(z, x, y);
    } else if y < x {
      RankStrict(z, y, x);
    }
  }

  /** `ZREVRANGEBYSCORE +inf -inf LIMIT k 1`: the entry with `k` newer ones. */
  function EntryAtRank(z: set<Id>, k: nat): (x: Id)
    requires k < |z|
    ensures x in z && Rank(z, x) == k
  {
    EntryAtRankExists(z, k);
    forall x, y | x in z && Rank(z, x) == k && y in z && Rank(z, y) == k ensures x == y {
      RankInjective(z, x, y);
    }
    var x :| x in z && Rank(z, x) == k;
    x
  }

  // ── The newest few ──────────────────────────────────────────────────────

  lemma {:induction false} NewestSize(z: set<Id>, n: nat)
    ensures |Newest(z, n)| == Min(n, |z|)
    ensures |z| <= n ==> Newest(z, n) == z
    decreases |z|
  {
    if |z| <= n {
      forall x | x in z ensures Rank(z, x) < n {
        RankBelowSize(z, x);
      }
      assert Newest(z, n) == z;
    } else {
      var m := Oldest(z);
      RankWithoutOldest(z, m);
      forall x | x in z && x != m ensures Rank(z - {m}, x) == Rank(z, x) {
        RankWithoutOldest(z, x);
      }
      assert Newest(z, n) == Newest(z - {m}, n);
      NewestSize(z - {m}, n);
    }
  }

  /** Ranks inside the newest `n` are the old ones, stopping at `n`. */
  lemma RankInNewest(z: set<Id>, n: nat, x: Id)
    ensures Rank(Newest(z, n), x) == Min(n, Rank(z, x))
  {
    var cut := Newest(z, n);
    if Rank(z, x) <= n {
      forall y | y in z && x < y ensures y in cut {
        RankStrict(z, x, y);
      }
      assert Above(cut, x) == Above(z, x);
    } else {
      forall y | y in cut ensures x < y {
        if y <= x {
          RankAntitone(z, y, x);
        }
      }
      assert Above(cut, x) == cut;
      NewestSize(z, n);
      SubsetSize(Above(z, x), z);
    }
  }

  /** Cutting early loses nothing of the newest `m`: entries past the `n`th
      stay past it whatever else is added. */
  lemma NewestOfUnion(a: set<Id>, b: set<Id>, n: nat, m: nat)
    requires m <= n
    ensures Newest(Newest(a, n) + b, m) == Newest(a + b, m)
  {
    var c, d := Newest(a, n) + b, a + b;
    forall x | x in d && Rank(d, x) < m ensures x in Newest(c, m) {
      RankMonotone(a, d, x);
      RankMonotone(c, d, x);
    }
    forall x | x in c && Rank(c, x) < m ensures x in Newest(d, m) {
      if y :| y in Above(d, x) && y !in c {
        RankStrict(a, x, y);
        RankInNewest(a, n, x);
        RankMonotone(Newest(a, n), c, x);
      } else {
        assert Above(d, x) == Above(c, x);
      }
    }
  }

  /** The cut to the newest `n` commutes with a cut-off by id: reading only
      ids from `from` up gives what reading everything and cutting would. */
  lemma NewestFrom(z: set<Id>, n: nat, from: Id)
    ensures Newest(From(z, from), n) == From(Newest(z, n), from)
  {
    var high := From(z, from);
    forall x | x in high ensures Rank(high, x) == Rank(z, x) {
      assert Above(high, x) == Above(z, x);
    }
  }

  /** Entries past a full feed's last are past its newest `n` for good. */
  lemma OlderThanFull(z: set<Id>, older: set<Id>, more: set<Id>, n: nat)
    requires n <= |z|
    requires forall x, y :: x in older && y in z ==> x < y
    ensures Newest(z + more + older, n) == Newest(z + more, n)
  {
    var a, b := z + more, z + more + older;
    forall x | x in b && Rank(b, x) < n ensures x in Newest(a, n) {
      if x in older {
        SubsetSize(z, Above(b, x));
      }
      RankMonotone(a, b, x);
    }
    forall x | x in a && Rank(a, x) < n ensures x in Newest(b, n) {
      if y :| y in older && x < y {
        SubsetSize(z, Above(a, x));
      } else {
        assert Above(b, x) == Above(a, x);
      }
    }
  }

  // ── Listings ────────────────────────────────────────────────────────────

  predicate Before(x: Id, y: Id, newestFirst: bool) {
    if newestFirst then y < x else x < y
  }

  ghost predicate Ordered(s: seq<Id>, newestFirst: bool) {
    forall i, j :: 0 <= i < j < |s| ==> Before(s[i], s[j], newestFirst)
  }

  function Elements(s: seq<Id>): set<Id> {
    set x | x in s
  }

  /** `ZREVRANGE 0 -1` or `ZRANGE 0 -1`. */
  function Listing(z: set<Id>, newestFirst: bool): (s: seq<Id>)
    ensures Ordered(s, newestFirst) && Elements(s) == z
    decreases |z|
  {
    if z == {} then []
    else
      var oldest := Oldest(z);
      var rest := Listing(z - {oldest}, newestFirst);
      assert forall x :: x in rest <==> x in Elements(rest);
      var s := if newestFirst then rest + [oldest] else [oldest] + rest;
      assert s[if newestFirst then |rest| else 0] == oldest;
      assert forall x :: x in s <==> x == oldest || x in rest;
      s
  }

  lemma {:induction false} ListingSize(z: set<Id>, newestFirst: bool)
    ensures |Listing(z, newestFirst)| == |z|
    decreases |z|
  {
    if z != {} {
      ListingSize(z - {Oldest(z)}, newestFirst);
    }
  }
}
