/** The integer arithmetic of the open-gig listing: page and limit defaults,
    the number of documents skipped, the page count and the next/previous
    flags, and the window of results a page shows. */
module Pagination {

  const DefaultPage: int := 1
  const DefaultLimit: int := 10

  /** The `pagination` object of the listing response. */
  datatype PageInfo = PageInfo(currentPage: int, totalPages: nat, totalItems: nat, itemsPerPage: int,
                               hasNextPage: bool, hasPrevPage: bool)

  /** `a * c <= b * c` for `a <= b` and a non-negative `c`. */
  lemma MulMono(a: int, b: int, c: int)
    requires a <= b && c >= 0
    ensures a * c <= b * c
  {
    assert b * c - a * c == (b - a) * c;
  }

  /** `Math.ceil(total / limit)`: the least number of pages of `limit` items
      that hold `total` items. */
  function CeilDiv(total: nat, limit: int): (pages: nat)
    requires limit >= 1
    ensures pages * limit >= total
    ensures pages > 0 ==> (pages - 1) * limit < total
  {
    var n := total + limit - 1;
    var q := n / limit;
    assert n == q * limit + n % limit;
    assert (q - 1) * limit == q * limit - limit;
    q
  }

  /** `(pageNum - 1) * limitNum`: how many matching gigs precede the page. */
  function Skip(page: int, limit: int): (skip: nat)
    requires page >= 1 && limit >= 1
    ensures skip + limit == page * limit
  {
    MulMono(0, page - 1, limit);
    (page - 1) * limit
  }

  /** The pagination object for `total` matching gigs. There is a next page
      exactly when the items of this page and the ones before it do not yet
      cover all `total`; there is a previous page exactly when this is not the
      first. */
  function Paginate(total: nat, page: int, limit: int): (p: PageInfo)
    requires page >= 1 && limit >= 1
    ensures p.hasNextPage <==> page * limit < total
    ensures p.hasPrevPage <==> page > 1
    ensures p.totalPages * limit >= total && (p.totalPages > 0 ==> (p.totalPages - 1) * limit < total)
    ensures p.currentPage == page && p.totalItems == total && p.itemsPerPage == limit
  {
    var pages := CeilDiv(total, limit);
    BeforeLastPage(total, page, limit);
    PageInfo(page, pages, total, limit, page < pages, page > 1)
  }

  /** A page comes before the last one exactly when it and the pages before it
      hold fewer items than there are. */
  lemma BeforeLastPage(total: nat, page: int, limit: int)
    requires page >= 1 && limit >= 1
    ensures page < CeilDiv(total, limit) <==> page * limit < total
  {
    var pages := CeilDiv(total, limit);
    if page < pages {
      MulMono(page, pages - 1, limit);
    } else {
      MulMono(pages, page, limit);
    }
  }

  /** `.skip(skip).limit(limit)` applied to the sorted matches. */
  function Window<T>(s: seq<T>, skip: nat, limit: nat): (r: seq<T>)
    ensures |r| <= limit
    ensures |r| == if skip >= |s| then 0 else if |s| - skip <= limit then |s| - skip else limit
    ensures skip < |s| ==> r == s[skip..skip + |r|]
  {
    if skip >= |s| then []
    else if |s| - skip <= limit then s[skip..]
    else s[skip..skip + limit]
  }

  /** A page of a strictly decreasing sequence holds only items of the
      sequence, still strictly decreasing. */
  lemma WindowOfDescending(s: seq<int>, skip: nat, limit: nat)
    requires forall i, j :: 0 <= i < j < |s| ==> s[i] > s[j]
    ensures forall x :: x in Window(s, skip, limit) ==> x in s
    ensures var w := Window(s, skip, limit);
      forall i, j :: 0 <= i < j < |w| ==> w[i] > w[j]
  {
    var w := Window(s, skip, limit);
    if skip < |s| {
      assert forall i :: 0 <= i < |w| ==> w[i] == s[skip + i];
    }
  }

  /** Every matching item is shown on some page that the pagination counts:
      item `i` is at position `i % limit` of page `i / limit + 1`, and that page
      is no later than the last page. */
  lemma ItemOnPage<T>(s: seq<T>, limit: int, i: nat)
    requires limit >= 1 && i < |s|
    ensures var page := i / limit + 1;
      && page <= Paginate(|s|, page, limit).totalPages
      && i % limit < |Window(s, Skip(page, limit), limit)|
      && Window(s, Skip(page, limit), limit)[i % limit] == s[i]
  {
    var page := i / limit + 1;
    var skip := Skip(page, limit);
    assert i == (i / limit) * limit + i % limit;
    assert skip == i - i % limit;
    var pages := Paginate(|s|, page, limit).totalPages;
    if page > pages {
      MulMono(pages, page - 1, limit);
      assert false;
    }
  }
}
