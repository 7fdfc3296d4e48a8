/** frontend/assets/app.js: the search state and its pager, over the limits of
    backend/app/api/search_api.py. */
module Pager {
  import opened Wrappers
  import opened Search

  const MAX_OFFSET := 1_000_000
  const MAX_LIMIT := 10000

  /** The request passes validation. */
  predicate Accepted(offset: nat, limit: nat) {
    offset <= MAX_OFFSET && 1 <= limit <= MAX_LIMIT
  }

  datatype Screen<T> = Screen(offset: nat, limit: nat, rows: seq<T>, canPrev: bool, canNext: bool, failed: bool)

  /** runSearch, when m are the matching rows and `limit` is what the page-size box says. */
  function Shown<T>(p: Screen<T>, m: seq<T>, offset: nat, limit: nat, maxRows: nat): Screen<T> {
    if Accepted(offset, limit) then
      var (rows, more) := Answer(m, offset, limit, maxRows);
      Screen(offset, limit, rows, offset != 0, more, false)
    else p.(offset := offset, limit := limit, failed := true)
  }

  function First<T>(p: Screen<T>, m: seq<T>, limit: nat, maxRows: nat): Screen<T> {
    Shown(p, m, 0, limit, maxRows)
  }

  /** The click moves by the page size of the search on screen; the new search then reads the box. */
  function NextClicked<T>(p: Screen<T>, m: seq<T>, limit: nat, maxRows: nat): Screen<T> {
    Shown(p, m, p.offset + p.limit, limit, maxRows)
  }

  function PrevClicked<T>(p: Screen<T>, m: seq<T>, limit: nat, maxRows: nat): Screen<T> {
    Shown(p, m, Max(0, p.offset - p.limit), limit, maxRows)
  }

  // ----------------------------------------------------------------- the page

  class SearchPage {
    var offset: nat
    var limit: nat
    var lastRows: seq<Log>
    var canPrev: bool
    var canNext: bool
    var failed: bool

    function State(): Screen<Log>
      reads this
    {
      Screen(offset, limit, lastRows, canPrev, canNext, failed)
    }

    constructor ()
      ensures State() == Screen(0, 100, [], false, false, false)
    {
      offset, limit, lastRows := 0, 100, [];
      canPrev, canNext, failed := false, false, false;
    }

    method RunSearch(resetOffset: bool, box: nat, q: Query, table: seq<Log>, maxRows: nat)
      requires IsDict(q.exact)
      modifies this
      ensures State() == Shown(old(State()), Matching(q, table), if resetOffset then 0 else old(offset), box, maxRows)
    {
      if resetOffset {
        offset := 0;
      }
      limit := box;
      if !Accepted(offset, limit) {
        failed := true;
        return;
      }
      var rows, hasMore := FindPage(q.(offset := offset, limit := limit), table, maxRows);
      PagingIsNoFilter(q, table, offset, limit);
      lastRows, failed := rows, false;
      canPrev, canNext := offset != 0, hasMore;
    }

    method ClickNext(box: nat, q: Query, table: seq<Log>, maxRows: nat)
      requires IsDict(q.exact)
      modifies this
      ensures State() == NextClicked(old(State()), Matching(q, table), box, maxRows)
    {
      offset := offset + limit;
      RunSearch(false, box, q, table, maxRows);
    }

    method ClickPrev(box: nat, q: Query, table: seq<Log>, maxRows: nat)
      requires IsDict(q.exact)
      modifies this
      ensures State() == PrevClicked(old(State()), Matching(q, table), box, maxRows)
    {
      offset := Max(0, offset - limit);
      RunSearch(false, box, q, table, maxRows);
    }
  }

  // ----------------------------------------------------------------- paging through everything

  datatype Ending = Finished | Refused | Unfinished

  datatype Trip<T> = Trip(rows: seq<T>, ending: Ending)

  /** Clicks Next while it is enabled; `boxes` is the page size chosen before each click. */
  function Walk<T>(p: Screen<T>, m: seq<T>, boxes: seq<nat>, maxRows: nat): Trip<T>
    decreases boxes
  {
    if !p.canNext then Trip([], Finished)
    else if boxes == [] then Trip([], Unfinished)
    else
      var p' := NextClicked(p, m, boxes[0], maxRows);
      if p'.failed then Trip([], Refused)
      else
        var rest := Walk(p', m, boxes[1..], maxRows);
        Trip(p'.rows + rest.rows, rest.ending)
  }

  /** The first search and everything Next brings. */
  function Journey<T>(p: Screen<T>, m: seq<T>, box: nat, boxes: seq<nat>, maxRows: nat): Trip<T>
    requires 1 <= box <= MAX_LIMIT
  {
    var first := First(p, m, box, maxRows);
    var rest := Walk(first, m, boxes, maxRows);
    Trip(first.rows + rest.rows, rest.ending)
  }

  predicate Sizes(boxes: seq<nat>, maxRows: nat) {
    forall i :: 0 <= i < |boxes| ==> 1 <= boxes[i] <= MAX_LIMIT && boxes[i] <= maxRows
  }

  /** The screen shows the m rows from its offset on. */
  ghost predicate Faithful<T>(p: Screen<T>, m: seq<T>) {
    && !p.failed && p.limit >= 1 && p.offset <= |m|
    && p.rows == m[p.offset..Min(p.offset + p.limit, |m|)]
    && (p.canNext <==> p.offset + p.limit < |m|)
  }

  lemma {:induction false} WalkFrom<T>(p: Screen<T>, m: seq<T>, boxes: seq<nat>, maxRows: nat)
    requires Faithful(p, m) && Sizes(boxes, maxRows)
    ensures var t := Walk(p, m, boxes, maxRows);
            (t.ending == Finished ==> p.rows + t.rows == m[p.offset..]) &&
            (|m| <= MAX_OFFSET + 1 && |boxes| + p.offset + p.limit >= |m| ==> t.ending == Finished)
    decreases boxes
  {
    if p.canNext && boxes != [] {
      var p' := NextClicked(p, m, boxes[0], maxRows);
      if !p'.failed {
        assert Faithful(p', m);
        WalkFrom(p', m, boxes[1..], maxRows);
        var rest := Walk(p', m, boxes[1..], maxRows);
        if rest.ending == Finished {
          SeqAssoc(p.rows, p'.rows, rest.rows);
          assert m[p.offset..] == p.rows + m[p'.offset..];
        }
      }
    } else if !p.canNext {
      assert m[p.offset..] == m[p.offset..|m|];
    }
  }

  /** Page sizes may change on the way, as long as none exceeds what the server returns: a walk
      that runs out of Next has shown every matching row exactly once and in order, and up to
      MAX_OFFSET + 1 rows every walk with enough clicks gets there. */
  lemma EveryRowOnce<T>(p: Screen<T>, m: seq<T>, box: nat, boxes: seq<nat>, maxRows: nat)
    requires 1 <= box <= MAX_LIMIT && box <= maxRows && Sizes(boxes, maxRows)
    ensures var t := Journey(p, m, box, boxes, maxRows);
            (t.ending == Finished ==> t.rows == m) &&
            (|m| <= MAX_OFFSET + 1 && |boxes| + 1 >= |m| ==> t.ending == Finished)
  {
    var first := First(p, m, box, maxRows);
    assert Faithful(first, m);
    WalkFrom(first, m, boxes, maxRows);
    assert m[0..] == m;
  }

  // ----------------------------------------------------------------- when a walk completes

  function LastOffset(n: nat, limit: nat): int
    requires limit >= 1
  {
    if n == 0 then 0 else (n - 1) / limit * limit
  }

  lemma LastPage(n: nat, limit: nat, k: nat)
    requires limit >= 1 && k * limit < n <= k * limit + limit
    ensures LastOffset(n, limit) == k * limit
  {
    var r := n - 1 - k * limit;
    assert (n - 1) / limit == k by {
      DivisionIs(n - 1, limit, k, r);
    }
  }

  lemma DivisionIs(a: int, d: int, k: int, r: int)
    requires d >= 1 && 0 <= r < d && a == k * d + r
    ensures a / d == k
  {
    SmallMultiple(a / d - k, d);
    assert (a / d - k) * d == r - a % d;
  }

  lemma SmallMultiple(x: int, d: int)
    requires d >= 1
    ensures -d < x * d < d ==> x == 0
  {
    if x >= 1 {
      assert x * d >= d;
    } else if x <= -1 {
      assert (-x) * d >= d;
    }
  }

  lemma NotLastPage(n: nat, limit: nat, k: nat)
    requires limit >= 1 && k * limit + limit < n
    ensures LastOffset(n, limit) >= k * limit + limit
  {
    var rest := n - 1 - k * limit;
    assert (n - 1) / limit >= k + 1 by {
      DivisionIs(n - 1, limit, k + rest / limit, rest % limit);
    }
    assert ((n - 1) / limit) * limit >= (k + 1) * limit;
  }

  lemma {:induction false} ConstantWalk<T>(p: Screen<T>, m: seq<T>, boxes: seq<nat>, maxRows: nat, k: nat)
    requires Faithful(p, m) && Accepted(p.offset, p.limit) && p.limit <= maxRows && p.offset == k * p.limit
    requires p.offset < |m| && (forall i :: 0 <= i < |boxes| ==> boxes[i] == p.limit) && |boxes| + p.offset + p.limit >= |m|
    ensures Walk(p, m, boxes, maxRows).ending == Finished <==> LastOffset(|m|, p.limit) <= MAX_OFFSET
    decreases boxes
  {
    if !p.canNext {
      LastPage(|m|, p.limit, k);
    } else {
      NotLastPage(|m|, p.limit, k);
      var p' := NextClicked(p, m, boxes[0], maxRows);
      if !p'.failed {
        assert p'.offset == (k + 1) * p.limit;
        ConstantWalk(p', m, boxes[1..], maxRows, k + 1);
      }
    }
  }

  /** With one page size and enough clicks, the walk shows everything if and only if the last page
      starts within the offset limit, or, for a page size above the server's own limit (which
      makes the server deny that there is a next page), everything fits into one answer. */
  lemma CompleteIff<T>(p: Screen<T>, m: seq<T>, box: nat, boxes: seq<nat>, maxRows: nat)
    requires 1 <= box <= MAX_LIMIT && (forall i :: 0 <= i < |boxes| ==> boxes[i] == box) && |boxes| + 1 >= |m|
    ensures Journey(p, m, box, boxes, maxRows) == Trip(m, Finished) <==>
            if box <= maxRows then LastOffset(|m|, box) <= MAX_OFFSET else |m| <= maxRows + 1
  {
    var first := First(p, m, box, maxRows);
    if box <= maxRows {
      EveryRowOnce(p, m, box, boxes, maxRows);
      assert Faithful(first, m);
      if m != [] {
        ConstantWalk(first, m, boxes, maxRows, 0);
      }
    } else {
      assert first.rows + [] == first.rows;
    }
  }

  /** Prev goes back to where Next came from exactly when the page size was left alone (or both
      pages are the first). */
  lemma PrevUndoesNextIff<T>(p: Screen<T>, m: seq<T>, box: nat, maxRows: nat)
    requires 1 <= p.limit <= MAX_LIMIT && p.offset + p.limit <= MAX_OFFSET && 1 <= box <= MAX_LIMIT
    requires Accepted(p.offset, p.limit) && p == Shown(p, m, p.offset, p.limit, maxRows)
    ensures PrevClicked(NextClicked(p, m, box, maxRows), m, p.limit, maxRows) == p <==>
            box == p.limit || (p.offset == 0 && box >= p.limit)
  {
  }

  // ----------------------------------------------------------------- when the order has ties

  /** ORDER BY one column: any arrangement of the rows that is sorted by it.  rank is the column's order, turned
      around for a descending search. */
  ghost predicate IsOrder<T>(order: seq<T>, m: seq<T>, rank: T -> int) {
    multiset(order) == multiset(m) && forall i, j :: 0 <= i < j < |order| ==> rank(order[i]) <= rank(order[j])
  }

  /** No two different rows of the same rank stand on different sides of k. */
  predicate NoTieAcross<T(==)>(m: seq<T>, rank: T -> int, k: int) {
    forall i, j :: 0 <= i < k <= j < |m| && rank(m[i]) == rank(m[j]) ==> m[i] == m[j]
  }

  /** ... at any of the offsets where the pages from `offset` on begin. */
  predicate NoTieAtPages<T(==)>(m: seq<T>, rank: T -> int, offset: nat, boxes: seq<nat>)
    decreases boxes
  {
    offset >= |m| ||
    (NoTieAcross(m, rank, offset) && (boxes != [] ==> NoTieAtPages(m, rank, offset + boxes[0], boxes[1..])))
  }

  /** Walk, when every query may see another order: the k-th click sees orders[k]. */
  function Tour<T>(p: Screen<T>, orders: seq<seq<T>>, boxes: seq<nat>, maxRows: nat): Trip<T>
    requires |orders| == |boxes|
    decreases boxes
  {
    if !p.canNext then Trip([], Finished)
    else if boxes == [] then Trip([], Unfinished)
    else
      var p' := NextClicked(p, orders[0], boxes[0], maxRows);
      if p'.failed then Trip([], Refused)
      else
        var rest := Tour(p', orders[1..], boxes[1..], maxRows);
        Trip(p'.rows + rest.rows, rest.ending)
  }

  /** The first search, which sees `first`, and everything Next brings. */
  function FullTour<T>(p: Screen<T>, first: seq<T>, orders: seq<seq<T>>, box: nat, boxes: seq<nat>, maxRows: nat): Trip<T>
    requires 1 <= box <= MAX_LIMIT && |orders| == |boxes|
  {
    var p1 := First(p, first, box, maxRows);
    var rest := Tour(p1, orders, boxes, maxRows);
    Trip(p1.rows + rest.rows, rest.ending)
  }

  ghost predicate AreOrders<T>(orders: seq<seq<T>>, m: seq<T>, rank: T -> int, n: nat) {
    |orders| == n && forall k :: 0 <= k < n ==> IsOrder(orders[k], m, rank)
  }

  lemma BagInBag<T>(a: multiset<T>, b: multiset<T>)
    requires |a| == |b| && a <= b
    ensures a == b
  {
    assert b == a + (b - a);
    assert |b - a| == 0;
  }

  /** Two bags of one size are the same, or one has more of something. */
  lemma MoreOfSomething<T>(a: multiset<T>, b: multiset<T>) returns (x: T)
    requires |a| == |b| && a != b
    ensures a[x] > b[x]
  {
    if a <= b {
      BagInBag(a, b);
      assert false;
    }
    x :| a[x] > b[x];
  }

  lemma OrderHasLength<T>(order: seq<T>, m: seq<T>, rank: T -> int)
    requires IsOrder(order, m, rank)
    ensures |order| == |m|
  {
    assert |multiset(order)| == |order| && |multiset(m)| == |m|;
  }

  /** Where no tie is cut, every order has the same rows on either side. */
  lemma SameFront<T>(order: seq<T>, m: seq<T>, rank: T -> int, k: nat)
    requires IsOrder(order, m, rank) && IsOrder(m, m, rank) && k <= |m| == |order| && NoTieAcross(m, rank, k)
    ensures multiset(order[..k]) == multiset(m[..k])
  {
    var a, b := multiset(m[..k]), multiset(order[..k]);
    assert m == m[..k] + m[k..] && order == order[..k] + order[k..];
    assert |a| == |b| == k;
    if a != b {
      var x := MoreOfSomething(a, b);
      var y := MoreOfSomething(b, a);
      var a', b' := multiset(m[k..]), multiset(order[k..]);
      assert a + a' == b + b';
      assert (a + a')[x] == (b + b')[x] && (a + a')[y] == (b + b')[y];
      assert b'[x] > 0 && a'[y] > 0;
      TieIsCut(order, m, rank, k, x, y);
    }
  }

  lemma TieIsCut<T>(order: seq<T>, m: seq<T>, rank: T -> int, k: nat, x: T, y: T)
    requires IsOrder(order, m, rank) && IsOrder(m, m, rank) && k <= |m| == |order|
    requires x in m[..k] && y in m[k..] && y in order[..k] && x in order[k..] && x != y
    ensures !NoTieAcross(m, rank, k)
  {
    var i: nat :| i < k && m[..k][i] == x;
    var j: nat :| j < |m| - k && m[k..][j] == y;
    var i': nat :| i' < k && order[..k][i'] == y;
    var j': nat :| j' < |order| - k && order[k..][j'] == x;
    assert rank(m[i]) <= rank(m[k + j]) && rank(order[i']) <= rank(order[k + j']);
    assert m[i] != m[k + j];
  }

  lemma SameMiddle<T>(order: seq<T>, m: seq<T>, rank: T -> int, lo: nat, hi: nat)
    requires IsOrder(order, m, rank) && IsOrder(m, m, rank) && lo <= hi <= |m| == |order|
    requires NoTieAcross(m, rank, lo) && NoTieAcross(m, rank, hi)
    ensures multiset(order[lo..hi]) == multiset(m[lo..hi])
  {
    SameFront(order, m, rank, lo);
    SameFront(order, m, rank, hi);
    Split(m, lo, hi);
    Split(order, lo, hi);
    Cancel(multiset(m[..lo]), multiset(order[lo..hi]), multiset(m[lo..hi]));
  }

  lemma Cancel<T>(a: multiset<T>, x: multiset<T>, y: multiset<T>)
    requires a + x == a + y
    ensures x == y
  {
    forall e ensures x[e] == y[e] {
      assert (a + x)[e] == (a + y)[e];
    }
  }

  lemma Split<T>(m: seq<T>, lo: nat, hi: nat)
    requires lo <= hi <= |m|
    ensures multiset(m[..hi]) == multiset(m[..lo]) + multiset(m[lo..hi])
    ensures multiset(m[lo..]) == multiset(m[lo..hi]) + multiset(m[hi..])
  {
    assert m[..hi] == m[..lo] + m[lo..hi] && m[lo..] == m[lo..hi] + m[hi..];
  }

  predicate OfLength<T>(orders: seq<seq<T>>, n: nat, count: nat) {
    |orders| == count && forall k :: 0 <= k < count ==> |orders[k]| == n
  }

  /** There are clicks for all of n rows. */
  predicate Reaches(boxes: seq<nat>, offset: nat, n: nat) {
    |boxes| + offset >= n && forall k :: 0 <= k < |boxes| ==> boxes[k] >= 1
  }

  /** What the clicks from `offset` on bring. */
  function Pages<T>(orders: seq<seq<T>>, n: nat, offset: nat, boxes: seq<nat>): seq<T>
    requires OfLength(orders, n, |boxes|)
    decreases boxes
  {
    if offset >= n || boxes == [] then []
    else orders[0][offset..Min(offset + boxes[0], n)] + Pages(orders[1..], n, offset + boxes[0], boxes[1..])
  }

  lemma NextShows<T>(p: Screen<T>, seen: seq<T>, order: seq<T>, box: nat, maxRows: nat) returns (p': Screen<T>)
    requires Faithful(p, seen) && |seen| == |order| <= MAX_OFFSET + 1 && p.canNext
    requires 1 <= box <= MAX_LIMIT && box <= maxRows
    ensures p' == NextClicked(p, order, box, maxRows) && Faithful(p', order)
    ensures p.offset + p.limit < |order| && p'.offset == p.offset + p.limit && p'.limit == box
    ensures p'.rows == order[p'.offset..Min(p'.offset + box, |order|)]
  {
    p' := NextClicked(p, order, box, maxRows);
  }

  lemma TourStep<T>(p: Screen<T>, p': Screen<T>, orders: seq<seq<T>>, boxes: seq<nat>, maxRows: nat, rest: Trip<T>)
    requires |orders| == |boxes| > 0 && p.canNext && !p'.failed
    requires p' == NextClicked(p, orders[0], boxes[0], maxRows) && rest == Tour(p', orders[1..], boxes[1..], maxRows)
    ensures Tour(p, orders, boxes, maxRows) == Trip(p'.rows + rest.rows, rest.ending)
  {
  }

  lemma TourEnds<T>(p: Screen<T>, seen: seq<T>, orders: seq<seq<T>>, boxes: seq<nat>, maxRows: nat)
    requires Faithful(p, seen) && !p.canNext && OfLength(orders, |seen|, |boxes|)
    ensures Tour(p, orders, boxes, maxRows) == Trip([], Finished)
    ensures Pages(orders, |seen|, p.offset + p.limit, boxes) == []
  {
  }

  lemma {:induction false} TourIsPages<T>(p: Screen<T>, seen: seq<T>, orders: seq<seq<T>>, boxes: seq<nat>, maxRows: nat)
    requires Faithful(p, seen) && |seen| <= MAX_OFFSET + 1 && Sizes(boxes, maxRows)
    requires OfLength(orders, |seen|, |boxes|) && Reaches(boxes, p.offset + p.limit, |seen|)
    ensures Tour(p, orders, boxes, maxRows) == Trip(Pages(orders, |seen|, p.offset + p.limit, boxes), Finished)
    decreases boxes
  {
    if !p.canNext {
      TourEnds(p, seen, orders, boxes, maxRows);
    } else {
      var p' := NextShows(p, seen, orders[0], boxes[0], maxRows);
      TourIsPages(p', orders[0], orders[1..], boxes[1..], maxRows);
      TourStep(p, p', orders, boxes, maxRows, Tour(p', orders[1..], boxes[1..], maxRows));
    }
  }

  lemma {:induction false} PagesCover<T>(m: seq<T>, rank: T -> int, orders: seq<seq<T>>, offset: nat, boxes: seq<nat>)
    requires IsOrder(m, m, rank) && AreOrders(orders, m, rank, |boxes|)
    requires OfLength(orders, |m|, |boxes|) && Reaches(boxes, offset, |m|)
    requires NoTieAtPages(m, rank, offset, boxes)
    ensures multiset(Pages(orders, |m|, offset, boxes)) == multiset(m[Min(offset, |m|)..])
    decreases boxes
  {
    if offset < |m| {
      PagesCover(m, rank, orders[1..], offset + boxes[0], boxes[1..]);
      assert IsOrder(orders[0], m, rank);
      OnePageCovers(orders[0], m, rank, offset, Min(offset + boxes[0], |m|),
                    Pages(orders[1..], |m|, offset + boxes[0], boxes[1..]));
    }
  }

  lemma OnePageCovers<T>(order: seq<T>, m: seq<T>, rank: T -> int, lo: nat, hi: nat, more: seq<T>)
    requires IsOrder(order, m, rank) && IsOrder(m, m, rank) && lo <= hi <= |m| == |order|
    requires NoTieAcross(m, rank, lo) && (hi < |m| ==> NoTieAcross(m, rank, hi))
    requires multiset(more) == multiset(m[hi..])
    ensures multiset(order[lo..hi] + more) == multiset(m[lo..])
  {
    SameMiddle(order, m, rank, lo, hi);
    Split(m, lo, hi);
  }

  /** All queries from here on see the same order. */
  lemma {:induction false} PagesOfOne<T>(order: seq<T>, offset: nat, boxes: seq<nat>)
    requires Reaches(boxes, offset, |order|)
    ensures Pages(seq(|boxes|, _ => order), |order|, offset, boxes) == order[Min(offset, |order|)..]
    decreases boxes
  {
    if offset < |order| {
      var orders, hi := seq(|boxes|, _ => order), Min(offset + boxes[0], |order|);
      assert orders[1..] == seq(|boxes[1..]|, _ => order);
      PagesOfOne(order, offset + boxes[0], boxes[1..]);
      assert order[offset..] == order[offset..hi] + order[hi..];
    }
  }

  /** Two rows of one rank may be the other way round. */
  lemma SwapIsOrder<T>(m: seq<T>, rank: T -> int, i: nat, j: nat) returns (order: seq<T>)
    requires IsOrder(m, m, rank) && i < j < |m| && rank(m[i]) == rank(m[j])
    ensures IsOrder(order, m, rank) && order == m[i := m[j]][j := m[i]]
  {
    order := m[i := m[j]][j := m[i]];
    assert multiset(order) == multiset(m);
    forall a, b | 0 <= a < b < |order| ensures rank(order[a]) <= rank(order[b]) {
      assert rank(order[a]) == rank(m[a]) && rank(order[b]) == rank(m[b]);
    }
  }

  lemma SwapMoves<T>(m: seq<T>, i: nat, j: nat, k: nat)
    requires i < k <= j < |m| && m[i] != m[j]
    ensures multiset(m[i := m[j]][j := m[i]][k..]) != multiset(m[k..])
  {
    var order, back := m[i := m[j]][j := m[i]], m[k..];
    assert order[k..] == back[j - k := m[i]];
    assert multiset(order[k..]) == multiset(back)[m[j] := multiset(back)[m[j]] - 1] + multiset{m[i]};
    assert multiset(order[k..])[m[i]] == multiset(back)[m[i]] + 1;
  }

  lemma PagesMissLater<T>(m: seq<T>, orders: seq<seq<T>>, rest: seq<seq<T>>, offset: nat, boxes: seq<nat>)
    requires |orders| == |boxes| > 0 && orders == [m] + rest && offset + boxes[0] < |m|
    requires OfLength(rest, |m|, |boxes| - 1)
    requires multiset(Pages(rest, |m|, offset + boxes[0], boxes[1..])) != multiset(m[offset + boxes[0]..])
    ensures OfLength(orders, |m|, |boxes|)
    ensures multiset(Pages(orders, |m|, offset, boxes)) != multiset(m[offset..])
  {
    var hi, more := offset + boxes[0], Pages(rest, |m|, offset + boxes[0], boxes[1..]);
    assert orders[1..] == rest;
    assert Pages(orders, |m|, offset, boxes) == m[offset..hi] + more;
    Split(m, offset, hi);
    AddsDiffer(multiset(m[offset..hi]), multiset(more), multiset(m[hi..]));
  }

  lemma AddsDiffer<T>(a: multiset<T>, x: multiset<T>, y: multiset<T>)
    requires x != y
    ensures a + x != a + y
  {
    if a + x == a + y {
      Cancel(a, x, y);
    }
  }

  /** The queries from the page on at whose beginning a tie is cut see it the other way round. */
  lemma {:induction false} PagesMiss<T>(m: seq<T>, rank: T -> int, offset: nat, boxes: seq<nat>)
    returns (orders: seq<seq<T>>)
    requires IsOrder(m, m, rank) && !NoTieAtPages(m, rank, offset, boxes)
    requires Reaches(boxes, offset, |m|)
    ensures AreOrders(orders, m, rank, |boxes|) && OfLength(orders, |m|, |boxes|)
    ensures offset < |m| && multiset(Pages(orders, |m|, offset, boxes)) != multiset(m[offset..])
    decreases boxes
  {
    if NoTieAcross(m, rank, offset) {
      var rest := PagesMiss(m, rank, offset + boxes[0], boxes[1..]);
      orders := [m] + rest;
      PagesMissLater(m, orders, rest, offset, boxes);
    } else {
      var i: nat, j: nat :| i < offset <= j < |m| && rank(m[i]) == rank(m[j]) && m[i] != m[j];
      orders := PagesMissNow(m, rank, offset, boxes, i, j);
    }
  }

  lemma PagesMissNow<T>(m: seq<T>, rank: T -> int, offset: nat, boxes: seq<nat>, i: nat, j: nat)
    returns (orders: seq<seq<T>>)
    requires IsOrder(m, m, rank) && i < offset <= j < |m| && rank(m[i]) == rank(m[j]) && m[i] != m[j]
    requires Reaches(boxes, offset, |m|)
    ensures AreOrders(orders, m, rank, |boxes|) && OfLength(orders, |m|, |boxes|)
    ensures multiset(Pages(orders, |m|, offset, boxes)) != multiset(m[offset..])
  {
    var order := SwapIsOrder(m, rank, i, j);
    SwapMoves(m, i, j, offset);
    orders := seq(|boxes|, _ => order);
    PagesOfOne(order, offset, boxes);
  }

  /** Up to MAX_OFFSET + 1 rows and with enough clicks, paging comes to an end, and shows each matching row as
      often as it matches, whatever order of the tied rows each query sees, if and only if no page begins between
      two different rows that tie. */
  lemma EveryOrderOnceIff<T>(p: Screen<T>, m: seq<T>, rank: T -> int, box: nat, boxes: seq<nat>, maxRows: nat)
    requires 1 <= box <= MAX_LIMIT && box <= maxRows && Sizes(boxes, maxRows) && IsOrder(m, m, rank)
    requires |m| <= MAX_OFFSET + 1 && |boxes| + 1 >= |m|
    ensures (forall first, orders :: IsOrder(first, m, rank) && AreOrders(orders, m, rank, |boxes|) ==>
              multiset(FullTour(p, first, orders, box, boxes, maxRows).rows) == multiset(m))
            <==> NoTieAtPages(m, rank, box, boxes)
  {
    if NoTieAtPages(m, rank, box, boxes) {
      forall first, orders | IsOrder(first, m, rank) && AreOrders(orders, m, rank, |boxes|)
        ensures multiset(FullTour(p, first, orders, box, boxes, maxRows).rows) == multiset(m)
      {
        TourCovers(p, first, orders, m, rank, box, boxes, maxRows);
      }
    } else {
      var orders := PagesMiss(m, rank, box, boxes);
      FullTourIs(p, m, orders, box, boxes, maxRows);
      assert m == m[..box] + m[box..];
      var more := Pages(orders, |m|, box, boxes);
      AddsDiffer(multiset(m[..box]), multiset(more), multiset(m[box..]));
      assert FullTour(p, m, orders, box, boxes, maxRows).rows == m[..box] + more;
    }
  }

  lemma FullTourIs<T>(p: Screen<T>, first: seq<T>, orders: seq<seq<T>>, box: nat, boxes: seq<nat>, maxRows: nat)
    requires 1 <= box <= MAX_LIMIT && box <= maxRows && Sizes(boxes, maxRows)
    requires |first| <= MAX_OFFSET + 1 && |boxes| + 1 >= |first|
    requires OfLength(orders, |first|, |boxes|)
    ensures FullTour(p, first, orders, box, boxes, maxRows) ==
            Trip(first[..Min(box, |first|)] + Pages(orders, |first|, box, boxes), Finished)
  {
    var p1 := First(p, first, box, maxRows);
    assert Faithful(p1, first);
    TourIsPages(p1, first, orders, boxes, maxRows);
  }

  lemma TourCovers<T>(p: Screen<T>, first: seq<T>, orders: seq<seq<T>>, m: seq<T>, rank: T -> int, box: nat,
                      boxes: seq<nat>, maxRows: nat)
    requires 1 <= box <= MAX_LIMIT && box <= maxRows && Sizes(boxes, maxRows) && IsOrder(m, m, rank)
    requires |m| <= MAX_OFFSET + 1 && |boxes| + 1 >= |m| && NoTieAtPages(m, rank, box, boxes)
    requires IsOrder(first, m, rank) && AreOrders(orders, m, rank, |boxes|)
    ensures multiset(FullTour(p, first, orders, box, boxes, maxRows).rows) == multiset(m)
  {
    OrderHasLength(first, m, rank);
    forall k | 0 <= k < |orders| ensures |orders[k]| == |m| {
      OrderHasLength(orders[k], m, rank);
    }
    var hi := Min(box, |m|);
    FullTourIs(p, first, orders, box, boxes, maxRows);
    SameFront(first, m, rank, hi);
    PagesCover(m, rank, orders, box, boxes);
    assert m == m[..hi] + m[hi..];
  }
}
