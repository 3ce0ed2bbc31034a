/**
 * Collecting search results page by page from a server that pages one fixed list. The four searches, of
 * code, commits, repositories and issues, run the same loop over different items.
 */
module SearchPaging {
  const MAX_PER_PAGE := 100

  function Min(a: int, b: int): int {
    if a < b then a else b
  }

  /** The items before the first one of a page; pages are numbered from 1. */
  function Offset(page: nat, size: nat): nat
    requires page >= 1
  {
    (page - 1) * size
  }

  function PageItems<T>(all: seq<T>, page: nat, size: nat): seq<T>
    requires page >= 1
  {
    var from := Min(Offset(page, size), |all|);
    all[from..Min(from + size, |all|)]
  }

  /** The page the server links to next; 0 after the last one. */
  function NextPage<T>(all: seq<T>, page: nat, size: nat): nat
    requires page >= 1
  {
    if Offset(page, size) + size < |all| then page + 1 else 0
  }

  /** How many items a search for `limit` of them is about. */
  function Wanted<T>(all: seq<T>, limit: int): nat {
    if limit <= 0 then 0 else Min(limit, |all|)
  }

  /** Pages 1, 2 and so on. */
  function Numbers(n: nat): (r: seq<nat>)
    ensures |r| == n && forall i :: 0 <= i < n ==> r[i] == i + 1
  {
    seq(n, i => i + 1)
  }

  ghost predicate IsCovered(i: nat, pages: set<nat>, size: nat) {
    exists page :: page in pages && OnPage(i, page, size)
  }

  ghost predicate Covers(pages: set<nat>, size: nat, wanted: nat) {
    forall i :: 0 <= i < wanted ==> IsCovered(i, pages, size)
  }

  predicate OnPage(i: nat, page: nat, size: nat) {
    page >= 1 && Offset(page, size) <= i < Offset(page, size) + size
  }

  lemma OffsetStep(page: nat, size: nat)
    requires page >= 1
    ensures Offset(page + 1, size) == Offset(page, size) + size
  {
    assert page * size == (page - 1) * size + size;
  }

  lemma {:induction false} OffsetsGrow(p: nat, q: nat, size: nat)
    requires 1 <= p < q
    ensures Offset(p, size) + size <= Offset(q, size)
  {
    OffsetStep(q - 1, size);
    if p < q - 1 { OffsetsGrow(p, q - 1, size); }
  }

  /** An item is on one page only. */
  lemma OnePage(i: nat, p: nat, q: nat, size: nat)
    requires OnPage(i, p, size) && OnPage(i, q, size)
    ensures p == q
  {
    if p < q { OffsetsGrow(p, q, size); }
    if q < p { OffsetsGrow(q, p, size); }
  }

  /** Every page up to one with a wanted item is needed. */
  lemma EarlierPageNeeded(pages: set<nat>, size: nat, wanted: nat, p: nat, n: nat)
    requires size >= 1 && Covers(pages, size, wanted) && 1 <= p <= n && Offset(n, size) < wanted
    ensures p in pages
  {
    if p < n { OffsetsGrow(p, n, size); }
    var i := Offset(p, size);
    assert IsCovered(i, pages, size);
    var page :| page in pages && OnPage(i, page, size);
    OnePage(i, p, page, size);
  }

  lemma {:induction false} AtLeast(pages: set<nat>, n: nat)
    requires forall p :: 1 <= p <= n ==> p in pages
    ensures n <= |pages|
  {
    if n > 0 {
      AtLeast(pages - {n}, n - 1);
      assert |pages - {n}| == |pages| - 1;
    }
  }

  /** A page carries the items on from its offset. */
  lemma PageExtends<T>(all: seq<T>, page: nat, size: nat, n: nat)
    requires page >= 1 && Offset(page, size) <= |all| && n <= |PageItems(all, page, size)|
    ensures all[..Offset(page, size)] + PageItems(all, page, size)[..n] == all[..Offset(page, size) + n]
  {
    var from := Offset(page, size);
    assert PageItems(all, page, size)[..n] == all[from..from + n];
    assert all[..from + n] == all[..from] + all[from..from + n];
  }

  /** Where the loop stands, in numbers: the items there are, those taken and those still to retrieve, the
      next page and the pages asked for. */
  predicate Paging(found: nat, limit: int, size: int, page: nat, taken: nat, left: int, asked: nat) {
    if limit <= 0 then taken == 0 && asked == 0 && left == limit
    else
      && size == Min(limit, MAX_PER_PAGE) && page == asked + 1
      && left == limit - taken && taken <= Min(limit, found)
      && (left > 0 ==> taken == Offset(page, size) && (page > 1 ==> taken < found))
      && (asked <= 1 || Offset(asked, size) < Min(limit, found))
      && (left == 0 ==> asked >= 1)
  }

  /** What one page adds to that: the loop goes on with the next page, or everything wanted is there. */
  lemma PagingStep(found: nat, limit: int, size: int, page: nat, taken: nat, left: int, asked: nat)
    requires Paging(found, limit, size, page, taken, left, asked) && left > 0
    ensures limit > 0 && size >= 1 && page >= 1 && taken == Offset(page, size) <= found
    ensures var add := Min(Min(size, found - taken), left);
            && add >= 0
            && (taken + size < found ==> Paging(found, limit, size, page + 1, taken + add, left - add, asked + 1))
            && (taken + size >= found ==> taken + add == Min(limit, found))
    ensures asked + 1 <= 1 || Offset(asked + 1, size) < Min(limit, found)
  {
    OffsetStep(page, size);
  }

  lemma PageLength<T>(all: seq<T>, page: nat, size: nat)
    requires page >= 1 && Offset(page, size) <= |all|
    ensures |PageItems(all, page, size)| == Min(size, |all| - Offset(page, size))
  {
  }

  /** With every page delivered the result is the first `limit` items, or all there are, and the pages
      asked for are 1 to the last one with a wanted item; one page is asked for to learn that there is
      nothing. A page that fails ends the search with the items before it. */
  method Search<T>(all: seq<T>, limit: int, failing: set<nat>)
    returns (items: seq<T>, total: nat, pages: seq<nat>, ok: bool)
    ensures |items| <= Wanted(all, limit) && items == all[..|items|]
    ensures ok <==> forall p :: p in pages ==> p !in failing
    ensures ok ==> |items| == Wanted(all, limit) && (limit > 0 ==> total == |all|)
    ensures ok && limit > 0 ==> |items| == if limit < |all| then limit else |all|
    ensures pages == Numbers(|pages|) && (limit <= 0 <==> pages == [])
    ensures |pages| <= 1 || Offset(|pages|, Min(limit, MAX_PER_PAGE)) < Wanted(all, limit)
    ensures !ok ==>
              pages != [] && |items| == Offset(|pages|, Min(limit, MAX_PER_PAGE)) && pages[|pages| - 1] in failing
  {
    items, total, pages, ok := [], 0, [], true;
    var numItemsToRetrieve := limit;
    var size := Min(numItemsToRetrieve, MAX_PER_PAGE);
    var page := 1;
    while numItemsToRetrieve > 0
      invariant Paging(|all|, limit, size, page, |items|, numItemsToRetrieve, |pages|)
      invariant items == all[..|items|]
      invariant pages == Numbers(|pages|) && forall p :: p in pages ==> p !in failing
      invariant pages != [] ==> total == |all|
      decreases |all| - |items|, numItemsToRetrieve
    {
      PagingStep(|all|, limit, size, page, |items|, numItemsToRetrieve, |pages|);
      pages := pages + [page];
      if page in failing {
        ok := false;
        return;
      }
      PageLength(all, page, size);
      var found := PageItems(all, page, size);
      var numItemsToAdd := Min(|found|, numItemsToRetrieve);
      PageExtends(all, page, size, numItemsToAdd);
      total := |all|;
      items := items + found[..numItemsToAdd];
      numItemsToRetrieve := numItemsToRetrieve - numItemsToAdd;
      var next := NextPage(all, page, size);
      if next == 0 { break; }
      page := next;
    }
  }

  /** A successful search asks for the fewest pages of its size that hold what it wants. */
  lemma FewestPages<T>(all: seq<T>, limit: int, n: nat, other: set<nat>)
    requires limit > 0 && Wanted(all, limit) > 0
    requires n <= 1 || Offset(n, Min(limit, MAX_PER_PAGE)) < Wanted(all, limit)
    requires Covers(other, Min(limit, MAX_PER_PAGE), Wanted(all, limit))
    ensures n <= |other|
  {
    var size := Min(limit, MAX_PER_PAGE);
    forall p | 1 <= p <= n
      ensures p in other
    {
      EarlierPageNeeded(other, size, Wanted(all, limit), p, n);
    }
    AtLeast(other, n);
  }
}
