/**
 * The geo table's paginator (src/widgets/geo-table-widget/table-paginator.ts): a current
 * page, a page size and a row count, with bounds-checked navigation and the slice of the
 * rows on the current page.
 *
 * Row counts and page sizes are natural numbers, and the page size is positive.
 */
module Paginator {

  /** `Math.ceil(rows / perPage)`: the fewest pages of `perPage` rows that hold `rows` rows. */
  function PageCount(rows: nat, perPage: nat): (n: nat)
    requires perPage > 0
    ensures (n - 1) * perPage < rows <= n * perPage
  {
    var q := (rows + perPage - 1) / perPage;
    assert rows + perPage - 1 == q * perPage + (rows + perPage - 1) % perPage;
    assert (q - 1) * perPage == q * perPage - perPage;
    q
  }

  /** Row `j` of a table with more than `j` rows lies on page `j / perPage + 1`, which exists. */
  lemma RowOnPage(j: nat, rows: nat, perPage: nat)
    requires perPage > 0 && j < rows
    ensures var page := j / perPage + 1;
      && 1 <= page <= PageCount(rows, perPage)
      && (page - 1) * perPage <= j < page * perPage
  {
    var page := j / perPage + 1;
    var n := PageCount(rows, perPage);
    assert j == (j / perPage) * perPage + j % perPage;
    assert (page - 1) * perPage <= j < page * perPage;
    MulLess(page - 1, n, perPage);
  }

  lemma MulLess(a: int, b: int, c: nat)
    requires c > 0 && a * c < b * c
    ensures a < b
  {
    assert (b - a) * c == b * c - a * c;
  }

  /** A multiple of `r` divides back exactly. */
  lemma DivExact(q: nat, r: nat)
    requires r > 0
    ensures (q * r) / r == q && (q * r) % r == 0
  {
    var x := q * r;
    var d, m := x / r, x % r;
    assert x == d * r + m;
    assert (q - d) * r == m;
    MulLess(q - d, 1, r);
    MulLess(-1, q - d, r);
  }

  lemma MulMono(a: int, b: int, c: nat)
    requires a <= b
    ensures a * c <= b * c
  {
    assert b * c - a * c == (b - a) * c;
  }

  class TablePaginator<T> {
    var currentPage: int
    var rowsPerPage: nat
    var totalRows: nat

    /** The current page is 1 or an existing page. */
    ghost predicate Valid()
      reads this
    {
      && rowsPerPage > 0
      && 1 <= currentPage
      && (currentPage == 1 || currentPage <= TotalPages())
    }

    /** A new paginator starts on page 1, with 20 rows per page unless told otherwise. */
    constructor (totalRows: nat, rowsPerPage: nat := 20)
      requires rowsPerPage > 0
      ensures Valid()
      ensures currentPage == 1 && this.totalRows == totalRows && this.rowsPerPage == rowsPerPage
    {
      this.totalRows := totalRows;
      this.rowsPerPage := rowsPerPage;
      this.currentPage := 1;
    }

    /** totalPages: the fewest pages that hold every row. */
    function TotalPages(): (n: nat)
      reads this
      requires rowsPerPage > 0
      ensures (n - 1) * rowsPerPage < totalRows <= n * rowsPerPage
    {
      PageCount(totalRows, rowsPerPage)
    }

    /** startIndex: the index of the first row of the current page. */
    function StartIndex(): (i: int)
      reads this
      requires Valid()
      ensures i >= 0 && i % rowsPerPage == 0 && i / rowsPerPage == currentPage - 1
    {
      DivExact(currentPage - 1, rowsPerPage);
      (currentPage - 1) * rowsPerPage
    }

    /** endIndex: one past the last row a full page holds. */
    function EndIndex(): (i: int)
      reads this
      requires Valid()
      ensures i - StartIndex() == rowsPerPage
    {
      StartIndex() + rowsPerPage
    }

    /**
     * paginate, `data.slice(startIndex, endIndex)`: the rows from the start index on, at
     * most a page of them, none past the end.
     */
    function Paginate(data: seq<T>): (r: seq<T>)
      reads this
      requires Valid()
      ensures |r| == if StartIndex() >= |data| then 0
        else if |data| - StartIndex() < rowsPerPage then |data| - StartIndex() else rowsPerPage
      ensures forall i :: 0 <= i < |r| ==> r[i] == data[StartIndex() + i]
    {
      var start, end := StartIndex(), EndIndex();
      if start >= |data| then [] else data[start..if end <= |data| then end else |data|]
    }

    /** goToPage: moves to `page` exactly when it is an existing page. */
    method GoToPage(page: int)
      requires Valid()
      modifies this
      ensures Valid()
      ensures totalRows == old(totalRows) && rowsPerPage == old(rowsPerPage)
      ensures currentPage == if 1 <= page <= TotalPages() then page else old(currentPage)
    {
      if page >= 1 && page <= TotalPages() {
        currentPage := page;
      }
    }

    /** nextPage: one page on, except on the last page. */
    method NextPage()
      requires Valid()
      modifies this
      ensures Valid()
      ensures totalRows == old(totalRows) && rowsPerPage == old(rowsPerPage)
      ensures currentPage == if old(currentPage) < TotalPages() then old(currentPage) + 1 else old(currentPage)
    {
      GoToPage(currentPage + 1);
    }

    /** previousPage: one page back, except on page 1. */
    method PreviousPage()
      requires Valid()
      modifies this
      ensures Valid()
      ensures totalRows == old(totalRows) && rowsPerPage == old(rowsPerPage)
      ensures currentPage == if old(currentPage) > 1 then old(currentPage) - 1 else old(currentPage)
    {
      GoToPage(currentPage - 1);
    }

    /** updateTotal: the new row count, and back to page 1 when the current page no longer exists. */
    method UpdateTotal(totalRows: nat)
      requires Valid()
      modifies this
      ensures Valid()
      ensures this.totalRows == totalRows && rowsPerPage == old(rowsPerPage)
      ensures currentPage == if old(currentPage) > TotalPages() then 1 else old(currentPage)
    {
      this.totalRows := totalRows;
      if currentPage > TotalPages() {
        currentPage := 1;
      }
    }
  }

  /** With the table's rows, the current page of a non-empty table shows at least one row. */
  lemma CurrentPageShowsRows<T>(p: TablePaginator<T>, data: seq<T>)
    requires p.Valid() && |data| == p.totalRows > 0
    ensures p.Paginate(data) != []
  {
    var start := p.StartIndex();
    if p.currentPage > 1 {
      MulMono(p.currentPage - 1, p.TotalPages() - 1, p.rowsPerPage);
    }
  }

  /** Every row of the table is on the page its index gives, and that page can be gone to. */
  lemma EveryRowOnSomePage<T>(p: TablePaginator<T>, data: seq<T>, j: nat)
    requires p.Valid() && |data| == p.totalRows && j < |data|
    ensures var page := j / p.rowsPerPage + 1;
      && 1 <= page <= p.TotalPages()
      && (page - 1) * p.rowsPerPage <= j < page * p.rowsPerPage
  {
    RowOnPage(j, |data|, p.rowsPerPage);
  }
}
