/**
 * Reading a user's active sessions page by page. The pages are ordered by creation time alone, so every page may
 * come from another listing: rows created at the same time can change places between two queries.
 */
module SessionPages {
  import opened Arithmetic
  import opened Sessions

  /** What the database may list: the rows, newest first, in any order among equal creation times. */
  ghost predicate Lists(listing: seq<Row>, active: seq<Row>) {
    Descending(listing) && multiset(listing) == multiset(active)
  }

  /** One page of each listing in turn. */
  function Pages(listings: seq<seq<Row>>, limit: nat, offset: nat): seq<Row> {
    if listings == [] then []
    else Page(listings[0], limit, offset) + Pages(listings[1..], limit, offset + limit)
  }

  /** So many pages, from the offset on, reach the end of a list of this length. */
  predicate Enough(pages: nat, limit: nat, offset: nat, length: nat) {
    offset >= length || (pages > 0 && Enough(pages - 1, limit, offset + limit, length))
  }

  lemma {:induction false} EnoughPages(pages: nat, limit: nat, offset: nat, length: nat)
    requires offset + pages * limit >= length
    ensures Enough(pages, limit, offset, length)
    decreases pages
  {
    if pages == 0 {
    } else {
      OneMore(pages - 1, limit);
      EnoughPages(pages - 1, limit, offset + limit, length);
    }
  }

  ghost predicate AllList(listings: seq<seq<Row>>, active: seq<Row>) {
    forall listing <- listings :: Lists(listing, active)
  }

  lemma SameLength(listing: seq<Row>, active: seq<Row>)
    requires Lists(listing, active)
    ensures |listing| == |active|
  {
    assert |multiset(listing)| == |listing| && |multiset(active)| == |active|;
  }

  lemma {:induction false} PagesPastEnd(listings: seq<seq<Row>>, active: seq<Row>, limit: nat, offset: nat)
    requires AllList(listings, active) && offset >= |active|
    ensures Pages(listings, limit, offset) == []
  {
    if listings == [] {
    } else {
      SameLength(listings[0], active);
      PagesPastEnd(listings[1..], active, limit, offset + limit);
    }
  }

  /** Whatever the listings, the pages are as long together as there are active rows, and hold nothing else. */
  lemma {:induction false} PagesHaveCount(listings: seq<seq<Row>>, active: seq<Row>, limit: nat, offset: nat)
    requires AllList(listings, active)
    requires Enough(|listings|, limit, offset, |active|)
    ensures |Pages(listings, limit, offset)| == if offset >= |active| then 0 else |active| - offset
    ensures forall r <- Pages(listings, limit, offset) :: r in active
  {
    if offset >= |active| {
      PagesPastEnd(listings, active, limit, offset);
    } else {
      PagesHaveCount(listings[1..], active, limit, offset + limit);
      SameLength(listings[0], active);
      forall r | r in listings[0] ensures r in active {
        assert r in multiset(active);
      }
    }
  }

  // ---------------------------------------------------------------------------------------------
  // What ties cannot change
  // ---------------------------------------------------------------------------------------------

  predicate TieAt(sorted: seq<Row>, b: nat) {
    0 < b < |sorted| && sorted[b - 1].createdAt == sorted[b].createdAt
  }

  /** At none of the page boundaries from this offset on do rows created at the same time stand on both sides. */
  predicate NoTieAcross(sorted: seq<Row>, limit: nat, offset: nat)
    requires limit > 0
    decreases |sorted| - offset
  {
    offset >= |sorted| || (!TieAt(sorted, offset) && NoTieAcross(sorted, limit, offset + limit))
  }

  function Newer(rows: seq<Row>, t: int): seq<Row> {
    if rows == [] then []
    else
      var last := |rows| - 1;
      Newer(rows[..last], t) + (if rows[last].createdAt > t then [rows[last]] else [])
  }

  lemma {:induction false} NewerCounts(rows: seq<Row>, t: int, r: Row)
    ensures multiset(Newer(rows, t))[r] == if r.createdAt > t then multiset(rows)[r] else 0
  {
    if rows == [] {
    } else {
      var last := |rows| - 1;
      NewerCounts(rows[..last], t, r);
      assert rows == rows[..last] + [rows[last]];
    }
  }

  lemma {:induction false} NewerIsPrefix(rows: seq<Row>, t: int, b: nat)
    requires b <= |rows|
    requires forall i | 0 <= i < b :: rows[i].createdAt > t
    requires forall i | b <= i < |rows| :: rows[i].createdAt <= t
    ensures Newer(rows, t) == rows[..b]
  {
    if rows == [] {
    } else {
      var last := |rows| - 1;
      NewerIsPrefix(rows[..last], t, if b <= last then b else last);
      if b > last {
        assert rows[..b] == rows[..last] + [rows[last]];
      } else {
        assert rows[..last][..b] == rows[..b];
      }
    }
  }

  /** Where a descending list falls from above t to t or below. */
  lemma {:induction false} Fall(rows: seq<Row>, t: int) returns (b: nat)
    requires Descending(rows)
    ensures b <= |rows|
    ensures forall i | 0 <= i < b :: rows[i].createdAt > t
    ensures forall i | b <= i < |rows| :: rows[i].createdAt <= t
  {
    if rows == [] {
      b := 0;
    } else if rows[|rows| - 1].createdAt > t {
      b := |rows|;
    } else {
      b := Fall(rows[..|rows| - 1], t);
    }
  }

  /** Two listings agree on which rows precede a boundary that no tie crosses. */
  lemma PrefixFixed(listing: seq<Row>, sorted: seq<Row>, b: nat)
    requires Descending(listing) && Descending(sorted) && multiset(listing) == multiset(sorted)
    requires b <= |sorted| && !TieAt(sorted, b)
    ensures |listing| == |sorted| && multiset(listing[..b]) == multiset(sorted[..b])
  {
    SameLength(listing, sorted);
    if b == |sorted| {
      assert listing[..b] == listing && sorted[..b] == sorted;
    } else if b > 0 {
      var t := sorted[b].createdAt;
      var c := Fall(listing, t);
      NewerIsPrefix(listing, t, c);
      NewerIsPrefix(sorted, t, b);
      SameNewer(listing, sorted, t);
    }
  }

  lemma SameNewer(listing: seq<Row>, sorted: seq<Row>, t: int)
    requires multiset(listing) == multiset(sorted)
    ensures multiset(Newer(listing, t)) == multiset(Newer(sorted, t))
    ensures |Newer(listing, t)| == |Newer(sorted, t)|
  {
    forall r: Row ensures multiset(Newer(listing, t))[r] == multiset(Newer(sorted, t))[r] {
      NewerCounts(listing, t, r);
      NewerCounts(sorted, t, r);
    }
    assert |multiset(Newer(listing, t))| == |Newer(listing, t)|;
    assert |multiset(Newer(sorted, t))| == |Newer(sorted, t)|;
  }

  /** So do the pages between such boundaries. */
  lemma PageFixed(listing: seq<Row>, sorted: seq<Row>, limit: nat, offset: nat)
    requires Lists(listing, sorted) && Descending(sorted)
    requires !TieAt(sorted, offset) && !TieAt(sorted, offset + limit)
    ensures multiset(Page(listing, limit, offset)) == multiset(Page(sorted, limit, offset))
  {
    SameLength(listing, sorted);
    if offset < |sorted| {
      var end := PageEnd(sorted, limit, offset);
      PrefixFixed(listing, sorted, offset);
      PrefixFixed(listing, sorted, end);
      SliceFixed(listing, sorted, offset, end);
      PageSlice(listing, limit, offset);
      PageSlice(sorted, limit, offset);
    }
  }

  function PageEnd(rows: seq<Row>, limit: nat, offset: nat): nat {
    if offset + limit >= |rows| then |rows| else offset + limit
  }

  lemma PageSlice(rows: seq<Row>, limit: nat, offset: nat)
    requires offset < |rows|
    ensures Page(rows, limit, offset) == rows[offset..PageEnd(rows, limit, offset)]
  {
  }

  lemma SliceFixed(listing: seq<Row>, sorted: seq<Row>, a: nat, b: nat)
    requires a <= b <= |sorted| == |listing|
    requires multiset(listing[..a]) == multiset(sorted[..a]) && multiset(listing[..b]) == multiset(sorted[..b])
    ensures multiset(listing[a..b]) == multiset(sorted[a..b])
  {
    Cut(listing, a, b);
    Cut(sorted, a, b);
  }

  lemma Cut(rows: seq<Row>, a: nat, b: nat)
    requires a <= b <= |rows|
    ensures multiset(rows[a..b]) == multiset(rows[..b]) - multiset(rows[..a])
  {
    assert rows[..b] == rows[..a] + rows[a..b];
  }

  /** The rows from the offset on, of which the first page is one part. */
  lemma FirstPage(rows: seq<Row>, limit: nat, offset: nat)
    ensures From(rows, offset) == Page(rows, limit, offset) + From(rows, offset + limit)
  {
  }

  function From(rows: seq<Row>, offset: nat): seq<Row> {
    if offset >= |rows| then [] else rows[offset..]
  }

  lemma {:induction false} PagesFixed(listings: seq<seq<Row>>, sorted: seq<Row>, limit: nat, offset: nat)
    requires limit > 0 && Descending(sorted) && AllList(listings, sorted)
    requires NoTieAcross(sorted, limit, offset)
    requires Enough(|listings|, limit, offset, |sorted|)
    ensures multiset(Pages(listings, limit, offset)) == multiset(From(sorted, offset))
  {
    if offset >= |sorted| {
      PagesPastEnd(listings, sorted, limit, offset);
    } else {
      PageFixed(listings[0], sorted, limit, offset);
      PagesFixed(listings[1..], sorted, limit, offset + limit);
      FirstPage(sorted, limit, offset);
    }
  }

  // ---------------------------------------------------------------------------------------------
  // What a tie across a boundary can change
  // ---------------------------------------------------------------------------------------------

  ghost predicate NoRepeats(rows: seq<Row>) {
    forall i, j | 0 <= i < j < |rows| :: rows[i] != rows[j]
  }

  /** The first boundary, from the offset on, that a tie crosses. */
  function TiePoint(sorted: seq<Row>, limit: nat, offset: nat): (b: nat)
    requires limit > 0 && !NoTieAcross(sorted, limit, offset)
    ensures offset <= b && TieAt(sorted, b)
    decreases |sorted| - offset
  {
    if TieAt(sorted, offset) then offset else TiePoint(sorted, limit, offset + limit)
  }

  /** Every page from the same listing, but the one at the tie from a listing with the two rows there swapped. */
  function TieListings(sorted: seq<Row>, limit: nat, offset: nat, pages: nat): (listings: seq<seq<Row>>)
    ensures |listings| == pages
    decreases pages
  {
    if pages == 0 then []
    else if TieAt(sorted, offset) then [Swapped(sorted, offset)] + seq(pages - 1, i => sorted)
    else [sorted] + TieListings(sorted, limit, offset + limit, pages - 1)
  }

  function Swapped(sorted: seq<Row>, b: nat): seq<Row>
    requires TieAt(sorted, b)
  {
    sorted[b - 1 := sorted[b]][b := sorted[b - 1]]
  }

  /** The row at b is missed and the one before it is shown twice. */
  function Shown(sorted: seq<Row>, b: nat): seq<Row>
    requires TieAt(sorted, b)
  {
    sorted[b := sorted[b - 1]]
  }

  lemma SwappedLists(sorted: seq<Row>, b: nat)
    requires Descending(sorted) && TieAt(sorted, b)
    ensures Lists(Swapped(sorted, b), sorted)
  {
  }

  lemma {:induction false} TieListingsList(sorted: seq<Row>, limit: nat, offset: nat, pages: nat)
    requires Descending(sorted)
    ensures AllList(TieListings(sorted, limit, offset, pages), sorted)
    decreases pages
  {
    if pages == 0 {
    } else if TieAt(sorted, offset) {
      SwappedLists(sorted, offset);
    } else {
      TieListingsList(sorted, limit, offset + limit, pages - 1);
    }
  }

  /** Pages of one unchanging listing are that listing. */
  lemma {:induction false} SameListing(sorted: seq<Row>, limit: nat, offset: nat, pages: nat)
    requires Descending(sorted) && Enough(pages, limit, offset, |sorted|)
    ensures Pages(seq(pages, i => sorted), limit, offset) == From(sorted, offset)
    decreases pages
  {
    if pages == 0 {
    } else if offset >= |sorted| {
      PagesPastEnd(seq(pages, i => sorted), sorted, limit, offset);
    } else {
      SameListing(sorted, limit, offset + limit, pages - 1);
      FirstPage(sorted, limit, offset);
      assert seq(pages, i => sorted)[1..] == seq(pages - 1, i => sorted);
    }
  }

  lemma TiePage(sorted: seq<Row>, limit: nat, b: nat)
    requires limit > 0 && TieAt(sorted, b)
    ensures Page(Swapped(sorted, b), limit, b) == Page(Shown(sorted, b), limit, b)
    ensures From(Shown(sorted, b), b + limit) == From(sorted, b + limit)
  {
  }

  lemma EarlierPage(sorted: seq<Row>, limit: nat, offset: nat, b: nat)
    requires TieAt(sorted, b) && offset + limit <= b
    ensures Page(Shown(sorted, b), limit, offset) == Page(sorted, limit, offset)
  {
  }

  /** A page before the tie is that of the unchanging listing. */
  lemma PageBeforeTie(sorted: seq<Row>, limit: nat, offset: nat, pages: nat, b: nat)
    requires pages > 0 && TieAt(sorted, b) && offset + limit <= b && !TieAt(sorted, offset)
    requires Pages(TieListings(sorted, limit, offset + limit, pages - 1), limit, offset + limit)
          == From(Shown(sorted, b), offset + limit)
    ensures Pages(TieListings(sorted, limit, offset, pages), limit, offset) == From(Shown(sorted, b), offset)
  {
    FirstPage(Shown(sorted, b), limit, offset);
    EarlierPage(sorted, limit, offset, b);
    assert TieListings(sorted, limit, offset, pages)[1..] == TieListings(sorted, limit, offset + limit, pages - 1);
  }

  lemma PagesFromTie(sorted: seq<Row>, limit: nat, b: nat, pages: nat)
    requires limit > 0 && Descending(sorted) && TieAt(sorted, b) && Enough(pages, limit, b, |sorted|)
    ensures Pages(TieListings(sorted, limit, b, pages), limit, b) == From(Shown(sorted, b), b)
  {
    SameListing(sorted, limit, b + limit, pages - 1);
    TiePage(sorted, limit, b);
    FirstPage(Shown(sorted, b), limit, b);
    assert TieListings(sorted, limit, b, pages)[1..] == seq(pages - 1, i => sorted);
  }

  lemma {:induction false} TiePages(sorted: seq<Row>, limit: nat, offset: nat, pages: nat)
    requires limit > 0 && Descending(sorted) && !NoTieAcross(sorted, limit, offset)
    requires Enough(pages, limit, offset, |sorted|)
    ensures Pages(TieListings(sorted, limit, offset, pages), limit, offset)
         == From(Shown(sorted, TiePoint(sorted, limit, offset)), offset)
    decreases pages
  {
    if TieAt(sorted, offset) {
      PagesFromTie(sorted, limit, offset, pages);
    } else {
      assert TiePoint(sorted, limit, offset) == TiePoint(sorted, limit, offset + limit);
      TiePages(sorted, limit, offset + limit, pages - 1);
      PageBeforeTie(sorted, limit, offset, pages, TiePoint(sorted, limit, offset));
    }
  }

  // ---------------------------------------------------------------------------------------------
  // When paging is exact
  // ---------------------------------------------------------------------------------------------

  /**
   * Pages of any listings show every active session exactly once if and only if no tie in creation time crosses a
   * page boundary. Their number is right in any case.
   */
  lemma PagesExactly(rows: seq<Row>, userId: nat, now: int, limit: nat, pages: nat)
    requires limit > 0 && TokensUnique(rows)
    requires pages * limit >= |Active(rows, userId, now)|
    ensures var active := Active(rows, userId, now);
            (forall listings: seq<seq<Row>> | |listings| == pages && AllList(listings, active) ::
               multiset(Pages(listings, limit, 0)) == multiset(active))
            <==> NoTieAcross(NewestFirst(active), limit, 0)
  {
    var active := Active(rows, userId, now);
    var sorted := NewestFirst(active);
    NewestFirstSorts(active);
    EnoughPages(pages, limit, 0, |active|);
    if NoTieAcross(sorted, limit, 0) {
      forall listings: seq<seq<Row>> | |listings| == pages && AllList(listings, active)
        ensures multiset(Pages(listings, limit, 0)) == multiset(active)
      {
        PagesFixed(listings, sorted, limit, 0);
        assert From(sorted, 0) == sorted;
      }
    } else {
      var b, listings := TiePoint(sorted, limit, 0), TieListings(sorted, limit, 0, pages);
      SameLength(sorted, active);
      TieListingsList(sorted, limit, 0, pages);
      TiePages(sorted, limit, 0, pages);
      ActiveHasNoRepeats(rows, userId, now, sorted);
      assert From(Shown(sorted, b), 0) == Shown(sorted, b);
      assert multiset(Shown(sorted, b))[sorted[b]] != multiset(sorted)[sorted[b]];
      assert AllList(listings, active);
    }
  }

  lemma {:induction false} ActiveAtMostOnce(rows: seq<Row>, userId: nat, now: int, r: Row)
    requires TokensUnique(rows)
    ensures multiset(Active(rows, userId, now))[r] <= 1
  {
    if rows == [] {
    } else {
      var last := |rows| - 1;
      ActiveAtMostOnce(rows[..last], userId, now, r);
      ActiveExact(rows[..last], userId, now);
      assert rows[last] !in rows[..last];
      assert rows[last] !in Active(rows[..last], userId, now);
    }
  }

  lemma ActiveHasNoRepeats(rows: seq<Row>, userId: nat, now: int, sorted: seq<Row>)
    requires TokensUnique(rows) && multiset(sorted) == multiset(Active(rows, userId, now))
    ensures NoRepeats(sorted)
  {
    forall i, j | 0 <= i < j < |sorted| ensures sorted[i] != sorted[j] {
      ActiveAtMostOnce(rows, userId, now, sorted[i]);
      TwiceCountsTwice(sorted, i, j);
    }
  }

  lemma TwiceCountsTwice(rows: seq<Row>, i: nat, j: nat)
    requires i < j < |rows|
    ensures rows[i] == rows[j] ==> multiset(rows)[rows[i]] >= 2
  {
    assert rows == rows[..j] + [rows[j]] + rows[j + 1..];
    assert rows[i] in rows[..j];
  }
}
