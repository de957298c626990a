/** buildPaginationParams of src/modules/app/user/repositories/user/user.query.ts and the page figures
    of User.repository.ts, over a fixed ordered list of rows. */
module Pagination {
  import opened Options

  /** take and skip; None when the query is not paginated. */
  function PaginationParams(limit: nat, page: nat): Option<(nat, nat)> {
    if limit != 0 && page != 0 then Some((limit, page * limit)) else None
  }

  function Min(a: int, b: int): int {
    if a < b then a else b
  }

  /** The rows a find with these parameters returns. */
  function Find<T>(rows: seq<T>, params: Option<(nat, nat)>): seq<T> {
    match params
    case None => rows
    case Some((take, skip)) => rows[Min(skip, |rows|)..Min(skip + take, |rows|)]
  }

  /** Math.ceil(totalItems / limit) || 1. */
  function TotalPages(totalItems: nat, limit: nat): nat
    requires limit > 0
  {
    var pages := (totalItems + limit - 1) / limit;
    if pages == 0 then 1 else pages
  }

  function Page<T>(rows: seq<T>, limit: nat, page: nat): seq<T> {
    Find(rows, PaginationParams(limit, page))
  }

  lemma CeilBounds(n: nat, limit: nat)
    requires limit > 0
    ensures var pages := (n + limit - 1) / limit; (pages - 1) * limit < n <= pages * limit || (n == 0 && pages == 0)
  {
    var pages, rest := (n + limit - 1) / limit, (n + limit - 1) % limit;
    assert n + limit - 1 == pages * limit + rest;
    assert (pages - 1) * limit == pages * limit - limit;
  }

  lemma Monotone(a: nat, b: nat, limit: nat)
    requires a <= b
    ensures a * limit <= b * limit
  {}

  /** A page has rows exactly when it is below the number of pages. */
  lemma PageIsNonEmptyIff<T>(rows: seq<T>, limit: nat, page: nat)
    requires limit > 0 && page > 0
    ensures Page(rows, limit, page) != [] <==> page < TotalPages(|rows|, limit)
    ensures |Page(rows, limit, page)| <= limit
  {
    CeilBounds(|rows|, limit);
    var pages := (|rows| + limit - 1) / limit;
    if page < pages {
      Monotone(page, pages - 1, limit);
    } else {
      Monotone(pages, page, limit);
    }
  }

  /** Row i of a page is row page * limit + i, and a page is full unless the rows end in it. */
  lemma PageAt<T>(rows: seq<T>, limit: nat, page: nat)
    requires limit > 0 && page > 0
    ensures var p := Page(rows, limit, page);
            && (forall i | 0 <= i < |p| :: page * limit + i < |rows| && p[i] == rows[page * limit + i])
            && (|p| == limit || page * limit + |p| >= |rows|)
  {}

  /** totalPages is the least positive number of pages that hold all rows. */
  lemma TotalPagesIsLeast(totalItems: nat, limit: nat, pages: nat)
    requires limit > 0 && pages > 0
    ensures TotalPages(totalItems, limit) > 0
    ensures totalItems <= pages * limit <==> TotalPages(totalItems, limit) <= pages
  {
    var total := TotalPages(totalItems, limit);
    CeilBounds(totalItems, limit);
    if total <= pages {
      Monotone(total, pages, limit);
    } else {
      Monotone(pages, total - 1, limit);
    }
  }

  /** Pages first, first + 1, ..., last - 1 one after the other. */
  function Pages<T>(rows: seq<T>, limit: nat, first: nat, last: nat): seq<T>
    requires first <= last
    decreases last - first
  {
    if first == last then [] else Page(rows, limit, first) + Pages(rows, limit, first + 1, last)
  }

  lemma {:induction false} PagesFrom<T>(rows: seq<T>, limit: nat, first: nat, last: nat)
    requires limit > 0 && 0 < first <= last && |rows| <= last * limit
    ensures Pages(rows, limit, first, last) == rows[Min(first * limit, |rows|)..]
    decreases last - first
  {
    if first < last {
      PagesFrom(rows, limit, first + 1, last);
      assert (first + 1) * limit == first * limit + limit;
    }
  }

  /** Pages 1 to totalPages - 1 are, in order and without overlap, the rows from index limit on. */
  lemma PagesAreTheRowsBehindTheFirst<T>(rows: seq<T>, limit: nat)
    requires limit > 0
    ensures Pages(rows, limit, 1, TotalPages(|rows|, limit)) == rows[Min(limit, |rows|)..]
  {
    CeilBounds(|rows|, limit);
    PagesFrom(rows, limit, 1, TotalPages(|rows|, limit));
  }

  /** Page 0 is not paginated at all, so pages counted from 0 give the rows exactly when one page
      holds them all. */
  lemma PageZeroIsEverything<T>(rows: seq<T>, limit: nat)
    requires limit > 0
    ensures Page(rows, limit, 0) == rows
    ensures Pages(rows, limit, 0, TotalPages(|rows|, limit)) == rows <==> |rows| <= limit
  {
    PagesAreTheRowsBehindTheFirst(rows, limit);
    var tail := rows[Min(limit, |rows|)..];
    assert Pages(rows, limit, 0, TotalPages(|rows|, limit)) == rows + tail;
    assert |rows + tail| == |rows| + |tail|;
    if |rows| <= limit {
      assert tail == [] && rows + [] == rows;
    }
  }
}
