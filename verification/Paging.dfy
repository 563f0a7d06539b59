/** Reading a feed page by page, as `get` does by score. */
module Paging {
  import opened Basics
  import opened SortedSets
  import opened Feed

  /** The entries strictly between two ids, by their scores. */
  function Between(score: Scoring, z: set<Id>, above: Option<Id>, below: Option<Id>): set<Id> {
    set x | x in z
      && (above.None? || score(above.value) < score(x))
      && (below.None? || score(x) < score(below.value))
  }

  function Take(s: seq<Id>, n: nat): seq<Id> {
    if |s| <= n then s else s[..n]
  }

  /** `get`: up to `limit` ids, newest first below `maxId` and above `sinceId`,
      or, given `minId`, the oldest above it and below `maxId`. */
  function Page(score: Scoring, z: set<Id>, maxId: Option<Id>, sinceId: Option<Id>,
                minId: Option<Id>, limit: nat): seq<Id> {
    match minId
    case Some(_) => Take(Listing(Between(score, z, minId, maxId), false), limit)
    case None => Take(Listing(Between(score, z, sinceId, maxId), true), limit)
  }

  /** The first `limit` of a set, in order. */
  ghost predicate FirstOf(page: seq<Id>, all: set<Id>, older: bool, limit: nat) {
    && |page| <= limit && Ordered(page, older)
    && (forall x :: x in page ==> x in all)
    && (|page| < limit ==> forall x :: x in all ==> x in page)
    && (forall x, y :: x in all && x !in page && y in page ==> Before(y, x, older))
  }

  /** What `get` gives, whatever it is asked: in order, at most `limit` of the
      entries that score below `max_id` and above `min_id`, or else `since_id`;
      all of them if there are fewer; and otherwise the first: the oldest with
      `min_id`, the newest without. */
  lemma PageIsFirst(score: Scoring, z: set<Id>, maxId: Option<Id>, sinceId: Option<Id>,
                    minId: Option<Id>, limit: nat, all: set<Id>)
    requires forall x :: x in all <==>
      && x in z
      && (maxId.Some? ==> score(x) < score(maxId.value))
      && (minId.Some? ==> score(minId.value) < score(x))
      && (minId.None? && sinceId.Some? ==> score(sinceId.value) < score(x))
    ensures FirstOf(Page(score, z, maxId, sinceId, minId, limit), all, minId.None?, limit)
  {
    assert all == Between(score, z, if minId.Some? then minId else sinceId, maxId);
    TakeIsFirst(all, minId.None?, limit);
  }

  function Remaining(score: Scoring, z: set<Id>, past: Option<Id>, older: bool): set<Id> {
    if older then Between(score, z, None, past) else Between(score, z, past, None)
  }

  lemma TakeIsFirst(all: set<Id>, older: bool, n: nat)
    ensures FirstOf(Take(Listing(all, older), n), all, older, n)
  {
    FirstOfListing(Listing(all, older), all, older, n);
  }

  lemma FirstOfListing(s: seq<Id>, all: set<Id>, older: bool, n: nat)
    requires Ordered(s, older) && Elements(s) == all
    ensures FirstOf(Take(s, n), all, older, n)
  {
    var page := Take(s, n);
    assert forall x :: x in s <==> x in Elements(s);
    assert forall i :: 0 <= i < |page| ==> s[i] == page[i] && page[i] in page;
  }

  /** The page past an id in either direction: by `max_id` towards older
      entries, or by `min_id` towards newer ones. */
  function PagePast(score: Scoring, z: set<Id>, past: Option<Id>, older: bool, limit: nat): (page: seq<Id>)
    requires (!older ==> past.Some?) && 0 < limit
    ensures FirstOf(page, Remaining(score, z, past, older), older, limit)
  {
    TakeIsFirst(Remaining(score, z, past, older), older, limit);
    if older then Page(score, z, past, None, None, limit)
    else Page(score, z, None, None, past, limit)
  }

  /** A client paging to the end, each request past the last id it was given. */
  function Pages(score: Scoring, z: set<Id>, past: Option<Id>, older: bool, limit: nat): seq<seq<Id>>
    requires (!older ==> past.Some?) && 0 < limit
    decreases |Remaining(score, z, past, older)|
  {
    var page := PagePast(score, z, past, older, limit);
    if page == [] then []
    else
      var last := page[|page| - 1];
      Shrinks(score, z, past, older, limit);
      [page] + Pages(score, z, Some(last), older, limit)
  }

  lemma Shrinks(score: Scoring, z: set<Id>, past: Option<Id>, older: bool, limit: nat)
    requires (!older ==> past.Some?) && 0 < limit
    ensures var page := PagePast(score, z, past, older, limit);
            page != [] ==>
              |Remaining(score, z, Some(page[|page| - 1]), older)|
                < |Remaining(score, z, past, older)|
  {
    var page := PagePast(score, z, past, older, limit);
    if page != [] {
      assert page[|page| - 1] in page;
      RestShrinks(score, z, past, older, page[|page| - 1]);
    }
  }

  lemma RestShrinks(score: Scoring, z: set<Id>, past: Option<Id>, older: bool, last: Id)
    requires (!older ==> past.Some?) && last in Remaining(score, z, past, older)
    ensures |Remaining(score, z, Some(last), older)| < |Remaining(score, z, past, older)|
  {
    var all, rest := Remaining(score, z, past, older), Remaining(score, z, Some(last), older);
    assert rest <= all && last !in rest;
    SubsetSize(rest + {last}, all);
  }

  function Flat(pages: seq<seq<Id>>): seq<Id> {
    if pages == [] then [] else pages[0] + Flat(pages[1..])
  }

  /** Entries a client never sees score the same as the last of some page. */
  ghost predicate TiedWithABoundary(score: Scoring, pages: seq<seq<Id>>, x: Id) {
    exists page :: page in pages && page != [] && score(page[|page| - 1]) == score(x)
  }

  lemma OrderedJoin(a: seq<Id>, b: seq<Id>, older: bool)
    requires Ordered(a, older) && Ordered(b, older)
    requires forall x, y :: x in a && y in b ==> Before(x, y, older)
    ensures Ordered(a + b, older)
  {
    var s := a + b;
    forall i, j | 0 <= i < j < |s| ensures Before(s[i], s[j], older) {
      if i < |a| <= j {
        assert s[i] in a && s[j] in b;
      }
    }
  }

  /** What remains past an entry comes after it, and is what came after it
      less its ties. */
  lemma RemainingPast(score: Scoring, z: set<Id>, past: Option<Id>, older: bool, last: Id, x: Id)
    requires Monotone(score) && (!older ==> past.Some?)
    requires last in Remaining(score, z, past, older)
    ensures x in Remaining(score, z, Some(last), older)
        ==> x in Remaining(score, z, past, older) && Before(last, x, older)
    ensures x in Remaining(score, z, past, older) && Before(last, x, older)
        ==> x in Remaining(score, z, Some(last), older) || score(x) == score(last)
  {
  }

  /** One page of what remains: in order, before all that remains past its last
      entry, and leaving out only that and what ties with the last entry. */
  ghost predicate ReadsOn(
    score: Scoring, all: set<Id>, page: seq<Id>, rest: set<Id>, older: bool, x: Id)
    requires page != []
  {
    && Ordered(page, older)
    && (x in page || x in rest ==> x in all)
    && (x in rest ==> forall w :: w in page ==> Before(w, x, older))
    && (x in all ==> x in page || x in rest || score(x) == score(page[|page| - 1]))
  }

  lemma OnePageOf(
    score: Scoring, z: set<Id>, past: Option<Id>, older: bool, limit: nat, page: seq<Id>, x: Id)
    requires Monotone(score) && (!older ==> past.Some?) && page != []
    requires FirstOf(page, Remaining(score, z, past, older), older, limit)
    ensures var rest := Remaining(score, z, Some(page[|page| - 1]), older);
            ReadsOn(score, Remaining(score, z, past, older), page, rest, older, x)
  {
    var last := page[|page| - 1];
    assert last in page;
    RemainingPast(score, z, past, older, last, x);
  }

  lemma OnePage(score: Scoring, z: set<Id>, past: Option<Id>, older: bool, limit: nat, x: Id)
    requires Monotone(score) && (!older ==> past.Some?) && 0 < limit
    requires PagePast(score, z, past, older, limit) != []
    ensures var page := PagePast(score, z, past, older, limit);
            var rest := Remaining(score, z, Some(page[|page| - 1]), older);
            ReadsOn(score, Remaining(score, z, past, older), page, rest, older, x)
  {
    OnePageOf(score, z, past, older, limit, PagePast(score, z, past, older, limit), x);
  }

  lemma PagesFirst(score: Scoring, z: set<Id>, past: Option<Id>, older: bool, limit: nat)
    requires (!older ==> past.Some?) && 0 < limit && PagePast(score, z, past, older, limit) != []
    ensures var page := PagePast(score, z, past, older, limit);
            Pages(score, z, past, older, limit)
              == [page] + Pages(score, z, Some(page[|page| - 1]), older, limit)
  {
  }

  lemma PageThenRest(score: Scoring, all: set<Id>, page: seq<Id>, rest: set<Id>, later: seq<Id>, older: bool)
    requires page != [] && forall x :: ReadsOn(score, all, page, rest, older, x)
    requires Ordered(later, older) && Elements(later) <= rest
    ensures Ordered(page + later, older) && Elements(page + later) <= all
  {
    assert ReadsOn(score, all, page, rest, older, page[0]);
    forall x, y | x in page && y in later ensures Before(x, y, older) {
      assert y in Elements(later) && ReadsOn(score, all, page, rest, older, y);
    }
    forall y | y in Elements(page + later) ensures y in all {
      assert y in page || y in Elements(later);
      assert ReadsOn(score, all, page, rest, older, y);
    }
    OrderedJoin(page, later, older);
  }

  lemma PageThenLater(
    score: Scoring, z: set<Id>, past: Option<Id>, older: bool, limit: nat, page: seq<Id>, later: seq<Id>)
    requires Monotone(score) && (!older ==> past.Some?) && 0 < limit
    requires page == PagePast(score, z, past, older, limit) && page != []
    requires Ordered(later, older) && Elements(later) <= Remaining(score, z, Some(page[|page| - 1]), older)
    ensures Ordered(page + later, older) && Elements(page + later) <= Remaining(score, z, past, older)
  {
    var all, rest := Remaining(score, z, past, older), Remaining(score, z, Some(page[|page| - 1]), older);
    forall x ensures ReadsOn(score, all, page, rest, older, x) {
      OnePage(score, z, past, older, limit, x);
    }
    PageThenRest(score, all, page, rest, later, older);
  }

  /** Whatever the page size, paging visits entries in order, so never twice. */
  lemma {:induction false} PagingReadsInOrder(
    score: Scoring, z: set<Id>, past: Option<Id>, older: bool, limit: nat)
    requires Monotone(score) && (!older ==> past.Some?) && 0 < limit
    ensures var read := Flat(Pages(score, z, past, older, limit));
            Ordered(read, older) && Elements(read) <= Remaining(score, z, past, older)
    decreases |Remaining(score, z, past, older)|
  {
    var page := PagePast(score, z, past, older, limit);
    if page != [] {
      var last := page[|page| - 1];
      Shrinks(score, z, past, older, limit);
      PagingReadsInOrder(score, z, Some(last), older, limit);
      var later := Pages(score, z, Some(last), older, limit);
      PageThenLater(score, z, past, older, limit, page, Flat(later));
      PagesFirst(score, z, past, older, limit);
      FlatFirst(page, later);
    }
  }

  ghost predicate ReadOrTied(score: Scoring, pages: seq<seq<Id>>, x: Id) {
    x in Flat(pages) || TiedWithABoundary(score, pages, x)
  }

  lemma OneMorePage(score: Scoring, page: seq<Id>, rest: seq<seq<Id>>, x: Id)
    requires page != []
    requires x in page || score(x) == score(page[|page| - 1]) || ReadOrTied(score, rest, x)
    ensures ReadOrTied(score, [page] + rest, x)
  {
    FlatFirst(page, rest);
    Boundaries(score, page, rest, x);
  }

  lemma ReadHereOrLater(
    score: Scoring, z: set<Id>, past: Option<Id>, older: bool, limit: nat, page: seq<Id>, rest: seq<seq<Id>>, x: Id)
    requires Monotone(score) && (!older ==> past.Some?) && 0 < limit
    requires page == PagePast(score, z, past, older, limit) && page != []
    requires x in Remaining(score, z, past, older)
    requires x in Remaining(score, z, Some(page[|page| - 1]), older) ==> ReadOrTied(score, rest, x)
    ensures ReadOrTied(score, [page] + rest, x)
  {
    OnePage(score, z, past, older, limit, x);
    OneMorePage(score, page, rest, x);
  }

  /** And misses only entries whose score ties with the last of some page. */
  lemma {:induction false} PagingMissesOnlyTies(
    score: Scoring, z: set<Id>, past: Option<Id>, older: bool, limit: nat, x: Id)
    requires Monotone(score) && (!older ==> past.Some?) && 0 < limit
    requires x in Remaining(score, z, past, older)
    ensures ReadOrTied(score, Pages(score, z, past, older, limit), x)
    decreases |Remaining(score, z, past, older)|
  {
    var page := PagePast(score, z, past, older, limit);
    var last := page[|page| - 1];
    if x in Remaining(score, z, Some(last), older) {
      Shrinks(score, z, past, older, limit);
      PagingMissesOnlyTies(score, z, Some(last), older, limit, x);
    }
    ReadHereOrLater(score, z, past, older, limit, page, Pages(score, z, Some(last), older, limit), x);
    PagesFirst(score, z, past, older, limit);
  }

  lemma Boundaries(score: Scoring, page: seq<Id>, rest: seq<seq<Id>>, x: Id)
    requires page != []
    ensures score(x) == score(page[|page| - 1]) ==> TiedWithABoundary(score, [page] + rest, x)
    ensures TiedWithABoundary(score, rest, x) ==> TiedWithABoundary(score, [page] + rest, x)
  {
    assert ([page] + rest)[0] == page;
    if TiedWithABoundary(score, rest, x) {
      var p :| p in rest && p != [] && score(p[|p| - 1]) == score(x);
      assert p in [page] + rest;
    }
  }

  lemma FlatFirst(page: seq<Id>, rest: seq<seq<Id>>)
    ensures Flat([page] + rest) == page + Flat(rest)
  {
    assert ([page] + rest)[1..] == rest;
  }

  /** With exact scores a client that pages from either end reads everything. */
  lemma PagingReadsAll(score: Scoring, z: set<Id>, past: Option<Id>, older: bool, limit: nat)
    requires Exact(score) && (!older ==> past.Some?) && 0 < limit
    ensures var read := Flat(Pages(score, z, past, older, limit));
            Ordered(read, older) && Elements(read) == Remaining(score, z, past, older)
  {
    PagingReadsInOrder(score, z, past, older, limit);
    var pages := Pages(score, z, past, older, limit);
    forall x: Id | x in Remaining(score, z, past, older) ensures x in Flat(pages) {
      PagingMissesOnlyTies(score, z, past, older, limit, x);
      if x !in Flat(pages) {
        var page :| page in pages && page != [] && score(page[|page| - 1]) == score(x);
        SameScoreSameId(score, page[|page| - 1], x);
        InFlat(pages, page, x);
      }
    }
  }

  lemma SameScoreSameId(score: Scoring, x: Id, y: Id)
    requires Exact(score)
    ensures score(x) == score(y) ==> x == y
  {
    assert x < y ==> score(x) < score(y);
    assert y < x ==> score(y) < score(x);
  }

  lemma {:induction false} InFlat(pages: seq<seq<Id>>, page: seq<Id>, x: Id)
    requires page in pages && x in page
    ensures x in Flat(pages)
    decreases |pages|
  {
    if page != pages[0] {
      InFlat(pages[1..], page, x);
    }
  }
}
