/** The generic table of the console: case-insensitive search over the
    columns, offset/limit pagination, the page state `(page, rowsPerPage,
    searchTerm)` and the page-button bar. */
module GenericList {
  import opened Js
  import opened Seqs

  /** A column descriptor: the field it shows, its header text and an
      optional display transform `render(value, row)`. */
  datatype Column = Column(id: string, caption: string, render: Option<(Value, Record) -> Value>)

  /** The page sizes offered by the "Show … entries" selector. */
  const RowsPerPageOptions: set<int> := {5, 10, 25, 50}

  const DefaultRowsPerPage: int := 5

  // ---------------------------------------------------------------------------
  // Search

  /** `String(row[column.id]).toLowerCase().includes(term.toLowerCase())`. */
  predicate ColumnMatches(row: Record, column: Column, term: string) {
    Contains(Lower(StringOf(Get(row, column.id))), Lower(term))
  }

  /** `columns.some(...)`: some column of the row matches the term. */
  predicate RowMatches(row: Record, columns: seq<Column>, term: string) {
    exists j | 0 <= j < |columns| :: ColumnMatches(row, columns[j], term)
  }

  /** The rows the table works on: all of them for an empty term, otherwise
      the rows in which some column matches. */
  function FilteredData(data: seq<Record>, columns: seq<Column>, searchTerm: string): (r: seq<Record>)
    ensures searchTerm == "" ==> r == data
    ensures |r| <= |data|
    ensures searchTerm != "" ==> forall i :: 0 <= i < |r| ==> RowMatches(r[i], columns, searchTerm)
  {
    if searchTerm != "" then Filter(data, row => RowMatches(row, columns, searchTerm)) else data
  }

  /** The filter keeps exactly the matching rows, in their original order:
      a row is kept iff it is in the data and (the term is empty or it matches),
      and a kept row keeps every one of its copies. */
  lemma FilteredDataExact(data: seq<Record>, columns: seq<Column>, searchTerm: string, row: Record)
    ensures row in FilteredData(data, columns, searchTerm)
            <==> row in data && (searchTerm == "" || RowMatches(row, columns, searchTerm))
    ensures multiset(FilteredData(data, columns, searchTerm))[row]
            == if searchTerm == "" || RowMatches(row, columns, searchTerm) then multiset(data)[row] else 0
    ensures IsSubsequence(FilteredData(data, columns, searchTerm), data)
  {
    var p := (x: Record) => RowMatches(x, columns, searchTerm);
    if searchTerm != "" {
      FilterMembers(data, p, row);
      FilterCount(data, p, row);
      FilterIsSubsequence(data, p);
    } else {
      SubsequenceOfItself(data);
    }
  }

  lemma {:induction false} SubsequenceOfItself<T>(s: seq<T>)
    ensures IsSubsequence(s, s)
    decreases |s|
  {
    if s != [] {
      SubsequenceOfItself(s[1..]);
    }
  }

  /** A non-empty term that no column of any row contains filters everything out. */
  lemma AbsentTermFiltersAll(data: seq<Record>, columns: seq<Column>, searchTerm: string)
    requires searchTerm != ""
    requires forall i, j :: 0 <= i < |data| && 0 <= j < |columns| ==> !ColumnMatches(data[i], columns[j], searchTerm)
    ensures FilteredData(data, columns, searchTerm) == []
  {
    var r := FilteredData(data, columns, searchTerm);
    if r != [] {
      FilteredDataExact(data, columns, searchTerm, r[0]);
      assert false;
    }
  }

  // ---------------------------------------------------------------------------
  // Pagination

  function Min(a: int, b: int): int { if a < b then a else b }
  function Max(a: int, b: int): int { if a < b then b else a }

  /** `filtered.slice(page * rowsPerPage, page * rowsPerPage + rowsPerPage)`. */
  function Paginated(filtered: seq<Record>, page: int, rowsPerPage: int): seq<Record>
    requires rowsPerPage > 0
  {
    Slice(filtered, page * rowsPerPage, page * rowsPerPage + rowsPerPage)
  }

  /** The visible rows are the window `[page*rpp, page*rpp + rpp)` clipped to the
      list, so there are `min(rpp, max(0, n - page*rpp))` of them. */
  lemma PaginatedWindow(filtered: seq<Record>, page: int, rowsPerPage: int)
    requires rowsPerPage > 0 && page >= 0
    ensures |Paginated(filtered, page, rowsPerPage)|
            == Min(rowsPerPage, Max(0, |filtered| - page * rowsPerPage))
    ensures forall k :: 0 <= k < |Paginated(filtered, page, rowsPerPage)| ==>
              Paginated(filtered, page, rowsPerPage)[k] == filtered[page * rowsPerPage + k]
  {
    assert page * rowsPerPage >= 0;
  }

  /** `Math.ceil(n / rowsPerPage)`. */
  function TotalPages(n: nat, rowsPerPage: int): (r: nat)
    requires rowsPerPage > 0
  {
    (n + rowsPerPage - 1) / rowsPerPage
  }

  /** The page count is the least number of pages of `rowsPerPage` rows that
      hold all `n` rows; zero rows give zero pages. */
  lemma TotalPagesIsCeiling(n: nat, rowsPerPage: int)
    requires rowsPerPage > 0
    ensures TotalPages(n, rowsPerPage) * rowsPerPage >= n
    ensures n > 0 ==> (TotalPages(n, rowsPerPage) - 1) * rowsPerPage < n
    ensures TotalPages(n, rowsPerPage) == 0 <==> n == 0
  {
    var r := TotalPages(n, rowsPerPage);
    var q, m := (n + rowsPerPage - 1) / rowsPerPage, (n + rowsPerPage - 1) % rowsPerPage;
    assert n + rowsPerPage - 1 == q * rowsPerPage + m;
    assert r * rowsPerPage == n + rowsPerPage - 1 - m;
    assert (r - 1) * rowsPerPage == r * rowsPerPage - rowsPerPage;
  }

  /** Every row lies on exactly one page: row `i` is shown on page `i / rpp`,
      and that page is below the page count. */
  lemma EveryRowOnAPage(filtered: seq<Record>, rowsPerPage: int, i: int)
    requires rowsPerPage > 0 && 0 <= i < |filtered|
    ensures 0 <= i / rowsPerPage < TotalPages(|filtered|, rowsPerPage)
    ensures var page := i / rowsPerPage;
            page * rowsPerPage <= i < page * rowsPerPage + |Paginated(filtered, page, rowsPerPage)|
            && Paginated(filtered, page, rowsPerPage)[i - page * rowsPerPage] == filtered[i]
  {
    var page := i / rowsPerPage;
    var m := i % rowsPerPage;
    assert i == page * rowsPerPage + m;
    TotalPagesIsCeiling(|filtered|, rowsPerPage);
    DivideOut(page, TotalPages(|filtered|, rowsPerPage), rowsPerPage);
    PaginatedWindow(filtered, page, rowsPerPage);
  }

  /** The `for` loop that lists the page indices `0 .. totalPages - 1`. */
  method PageNumbers(totalPages: nat) returns (pageNumbers: seq<int>)
    ensures |pageNumbers| == totalPages
    ensures forall i :: 0 <= i < totalPages ==> pageNumbers[i] == i
  {
    pageNumbers := [];
    var i := 0;
    while i < totalPages
      invariant 0 <= i <= totalPages
      invariant |pageNumbers| == i
      invariant forall k :: 0 <= k < i ==> pageNumbers[k] == k
    {
      pageNumbers := pageNumbers + [i];
      i := i + 1;
    }
  }

  /** The previous-page arrow is disabled on the first page. */
  predicate PrevDisabled(page: int) {
    page == 0
  }

  /** The next-page arrow is disabled from the last page on. */
  predicate NextDisabled(page: int, totalPages: int) {
    page >= totalPages - 1
  }

  /** With at most one page of rows both arrows are disabled on the first page;
      with more, an enabled arrow never leads outside `0 .. totalPages - 1`. */
  lemma ArrowsStayInRange(n: nat, rowsPerPage: int, page: int)
    requires rowsPerPage > 0
    ensures page == 0 && n <= rowsPerPage ==>
              PrevDisabled(page) && NextDisabled(page, TotalPages(n, rowsPerPage))
    ensures 0 <= page < TotalPages(n, rowsPerPage) ==>
              (!PrevDisabled(page) ==> 0 <= page - 1)
              && (!NextDisabled(page, TotalPages(n, rowsPerPage)) ==> page + 1 < TotalPages(n, rowsPerPage))
  {
    TotalPagesIsCeiling(n, rowsPerPage);
    if 0 < n <= rowsPerPage {
      DivideOut(TotalPages(n, rowsPerPage) - 1, 1, rowsPerPage);
    }
  }

  lemma DivideOut(a: int, b: int, c: int)
    requires c > 0 && a * c < b * c
    ensures a < b
  {
    assert (b - a) * c == b * c - a * c;
  }

  // ---------------------------------------------------------------------------
  // Page-button bar

  /** One control of the page bar: a numbered button (its label, the page it
      selects when clicked, whether it is drawn as the current page) or "...". */
  datatype PageItem = PageButton(number: int, target: Option<int>, current: bool) | Ellipsis

  function When(c: bool, item: PageItem): seq<PageItem> {
    if c then [item] else []
  }

  /** The bar between the arrows: one button per page for at most five pages,
      otherwise first / "..." / previous / current / next / "..." / last. */
  function PageControls(page: int, totalPages: nat): seq<PageItem> {
    if totalPages <= 5 then
      seq(totalPages, i requires 0 <= i < totalPages => PageButton(i + 1, Some(i), page == i))
    else
      When(page > 1, PageButton(1, Some(0), false))
      + When(page > 2, Ellipsis)
      + When(page > 0, PageButton(page, Some(page - 1), false))
      + [PageButton(page + 1, None, true)]
      + When(page < totalPages - 1, PageButton(page + 2, Some(page + 1), false))
      + When(page < totalPages - 3, Ellipsis)
      + When(page < totalPages - 2, PageButton(totalPages, Some(totalPages - 1), false))
  }

  /** With at most five pages there is exactly one button per page. */
  lemma FewPagesOneButtonEach(page: int, totalPages: nat)
    requires totalPages <= 5
    ensures |PageControls(page, totalPages)| == totalPages
    ensures forall i :: 0 <= i < totalPages ==>
              PageControls(page, totalPages)[i] == PageButton(i + 1, Some(i), page == i)
  {
  }

  /** With one to five pages and a page in range, the bar is well formed, has
      no "...", and its one current button is the page's own, labelled `page + 1`. */
  lemma FewPagesBar(page: int, totalPages: nat)
    requires 1 <= totalPages <= 5 && 0 <= page < totalPages
    ensures WellFormedBar(PageControls(page, totalPages), totalPages)
    ensures Ellipsis !in PageControls(page, totalPages)
    ensures forall i :: 0 <= i < |PageControls(page, totalPages)| ==>
              (PageControls(page, totalPages)[i].current <==> i == page)
    ensures PageControls(page, totalPages)[page].number == page + 1
  {
    FewPagesOneButtonEach(page, totalPages);
  }

  /** A bar is well formed for `totalPages` pages when it starts with the
      button "1" and ends with the button `totalPages`, labels strictly increase,
      neighbouring buttons have consecutive labels, an ellipsis stands only
      between two buttons whose labels skip at least one page, and each
      clickable button selects the page it shows. */
  ghost predicate WellFormedBar(items: seq<PageItem>, totalPages: int) {
    && |items| > 0
    && items[0].PageButton? && items[0].number == 1
    && items[|items| - 1].PageButton? && items[|items| - 1].number == totalPages
    && (forall i :: 0 <= i < |items| && items[i].Ellipsis? ==>
          0 < i < |items| - 1 && items[i - 1].PageButton? && items[i + 1].PageButton?
          && items[i + 1].number > items[i - 1].number + 1)
    && (forall i :: 0 <= i < |items| - 1 && items[i].PageButton? && items[i + 1].PageButton? ==>
          items[i + 1].number == items[i].number + 1)
    && (forall i :: 0 <= i < |items| && items[i].PageButton? && items[i].target.Some? ==>
          items[i].target.value == items[i].number - 1)
  }

  /** The bar is well formed, its one current button is labelled `page + 1`,
      the left "..." appears iff `page > 2` and the right one iff
      `page < totalPages - 3`. */
  ghost predicate BarFacts(items: seq<PageItem>, page: int, totalPages: int) {
    && WellFormedBar(items, totalPages)
    && (forall i :: 0 <= i < |items| ==>
          (items[i].PageButton? && items[i].current <==> items[i] == PageButton(page + 1, None, true)))
    && PageButton(page + 1, None, true) in items
    && |items| >= 2
    && ((page > 2) <==> items[1] == Ellipsis)
    && ((page < totalPages - 3) <==> items[|items| - 2] == Ellipsis)
  }

  /** With more than five pages and a page in range, the bar satisfies BarFacts. */
  lemma ManyPagesBar(page: int, totalPages: nat)
    requires totalPages > 5 && 0 <= page < totalPages
    ensures BarFacts(PageControls(page, totalPages), page, totalPages)
  {
    var r := PageControls(page, totalPages);
    var first := PageButton(1, Some(0), false);
    var prev := PageButton(page, Some(page - 1), false);
    var cur := PageButton(page + 1, None, true);
    var next := PageButton(page + 2, Some(page + 1), false);
    var last := PageButton(totalPages, Some(totalPages - 1), false);
    if page == 0 {
      assert r == [cur, next, Ellipsis, last];
      BarNearStart(page, totalPages);
    } else if page == 1 {
      assert r == [prev, cur, next, Ellipsis, last];
      BarNearStart(page, totalPages);
    } else if page == 2 {
      assert r == [first, prev, cur, next, Ellipsis, last];
      BarNearStart(page, totalPages);
    } else if page < totalPages - 3 {
      assert r == [first, Ellipsis, prev, cur, next, Ellipsis, last];
      BarInMiddle(page, totalPages);
    } else if page == totalPages - 3 {
      assert r == [first, Ellipsis, prev, cur, next, last];
      BarNearEnd(page, totalPages);
    } else if page == totalPages - 2 {
      assert r == [first, Ellipsis, prev, cur, next];
      BarNearEnd(page, totalPages);
    } else {
      assert r == [first, Ellipsis, prev, cur];
      BarNearEnd(page, totalPages);
    }
  }

  lemma BarNearStart(page: int, totalPages: int)
    requires totalPages > 5 && 0 <= page <= 2
    ensures page == 0 ==> BarFacts([PageButton(1, None, true), PageButton(2, Some(1), false), Ellipsis,
                                    PageButton(totalPages, Some(totalPages - 1), false)], page, totalPages)
    ensures page == 1 ==> BarFacts([PageButton(1, Some(0), false), PageButton(2, None, true),
                                    PageButton(3, Some(2), false), Ellipsis,
                                    PageButton(totalPages, Some(totalPages - 1), false)], page, totalPages)
    ensures page == 2 ==> BarFacts([PageButton(1, Some(0), false), PageButton(2, Some(1), false),
                                    PageButton(3, None, true), PageButton(4, Some(3), false), Ellipsis,
                                    PageButton(totalPages, Some(totalPages - 1), false)], page, totalPages)
  {
  }

  lemma BarInMiddle(page: int, totalPages: int)
    requires 3 <= page < totalPages - 3
    ensures BarFacts([PageButton(1, Some(0), false), Ellipsis, PageButton(page, Some(page - 1), false),
                      PageButton(page + 1, None, true), PageButton(page + 2, Some(page + 1), false), Ellipsis,
                      PageButton(totalPages, Some(totalPages - 1), false)], page, totalPages)
  {
  }

  lemma BarNearEnd(page: int, totalPages: int)
    requires totalPages > 5 && totalPages - 3 <= page < totalPages
    ensures page == totalPages - 3 ==>
              BarFacts([PageButton(1, Some(0), false), Ellipsis, PageButton(page, Some(page - 1), false),
                        PageButton(page + 1, None, true), PageButton(page + 2, Some(page + 1), false),
                        PageButton(totalPages, Some(totalPages - 1), false)], page, totalPages)
    ensures page == totalPages - 2 ==>
              BarFacts([PageButton(1, Some(0), false), Ellipsis, PageButton(page, Some(page - 1), false),
                        PageButton(page + 1, None, true), PageButton(page + 2, Some(page + 1), false)],
                       page, totalPages)
    ensures page == totalPages - 1 ==>
              BarFacts([PageButton(1, Some(0), false), Ellipsis, PageButton(page, Some(page - 1), false),
                        PageButton(page + 1, None, true)], page, totalPages)
  {
  }

  // ---------------------------------------------------------------------------
  // Page state

  /** The table's own state. The page is never clamped to the page count: it
      is whatever the last page button, arrow or page-size change set. */
  class ListState {
    var page: int
    var rowsPerPage: int
    var searchTerm: string

    ghost predicate Valid()
      reads this
    {
      rowsPerPage in RowsPerPageOptions
    }

    constructor ()
      ensures Valid()
      ensures page == 0 && rowsPerPage == DefaultRowsPerPage && searchTerm == ""
    {
      page := 0;
      rowsPerPage := DefaultRowsPerPage;
      searchTerm := "";
    }

    /** handleChangePage: the chosen page becomes the page, nothing else changes. */
    method ChangePage(newPage: int)
      requires Valid()
      modifies this
      ensures Valid()
      ensures page == newPage
      ensures rowsPerPage == old(rowsPerPage) && searchTerm == old(searchTerm)
    {
      page := newPage;
    }

    /** handleChangeRowsPerPage: a new page size always returns to the first page. */
    method ChangeRowsPerPage(value: int)
      requires Valid() && value in RowsPerPageOptions
      modifies this
      ensures Valid()
      ensures rowsPerPage == value && page == 0
      ensures searchTerm == old(searchTerm)
    {
      rowsPerPage := value;
      page := 0;
    }

    /** The search box: only the term changes; the page is kept as it was. */
    method ChangeSearchTerm(term: string)
      requires Valid()
      modifies this
      ensures Valid()
      ensures searchTerm == term
      ensures page == old(page) && rowsPerPage == old(rowsPerPage)
    {
      searchTerm := term;
    }

    /** What one render shows for `data`: the visible rows, the page count,
        the page indices and the page bar. */
    method View(data: seq<Record>, columns: seq<Column>)
      returns (visible: seq<Record>, totalPages: nat, pageNumbers: seq<int>, bar: seq<PageItem>)
      requires Valid()
      ensures visible == Paginated(FilteredData(data, columns, searchTerm), page, rowsPerPage)
      ensures totalPages == TotalPages(|FilteredData(data, columns, searchTerm)|, rowsPerPage)
      ensures |pageNumbers| == totalPages
      ensures forall i :: 0 <= i < totalPages ==> pageNumbers[i] == i
      ensures bar == PageControls(page, totalPages)
    {
      var filtered := FilteredData(data, columns, searchTerm);
      visible := Paginated(filtered, page, rowsPerPage);
      totalPages := TotalPages(|filtered|, rowsPerPage);
      pageNumbers := PageNumbers(totalPages);
      bar := PageControls(page, totalPages);
    }
  }

  /** Changing the search term while on a later page can leave the page past
      the end of the filtered rows: the table then shows no rows at all. */
  lemma SearchKeepsStalePage(data: seq<Record>, columns: seq<Column>, term: string, page: int, rowsPerPage: int)
    requires rowsPerPage > 0 && page >= 0
    requires page * rowsPerPage >= |FilteredData(data, columns, term)|
    ensures Paginated(FilteredData(data, columns, term), page, rowsPerPage) == []
  {
    PaginatedWindow(FilteredData(data, columns, term), page, rowsPerPage);
  }

  // ---------------------------------------------------------------------------
  // Footer "Showing a to b of n entries"

  datatype Range = Range(from: int, to: int, total: int)

  /** The footer as the table writes it. */
  function FooterAsWritten(page: int, rowsPerPage: int, n: nat): Range {
    Range(page * rowsPerPage + 1, Min((page + 1) * rowsPerPage, n), n)
  }

  /** On an empty table the footer reads "Showing 1 to 0 of 0 entries". */
  lemma FooterAsWrittenEmptyTable()
    ensures FooterAsWritten(0, DefaultRowsPerPage, 0) == Range(1, 0, 0)
  {
  }

  /** The footer with an empty range written "0 to 0". */
  function FooterRange(page: int, rowsPerPage: int, n: nat): Range {
    if page < 0 || page * rowsPerPage >= n then Range(0, 0, n)
    else FooterAsWritten(page, rowsPerPage, n)
  }

  /** The corrected footer counts exactly the rows on screen: `from..to` has as
      many numbers as there are visible rows, and they are the 1-based
      positions of those rows in the filtered list. */
  lemma FooterCountsVisibleRows(filtered: seq<Record>, page: int, rowsPerPage: int)
    requires rowsPerPage > 0 && page >= 0
    ensures var f := FooterRange(page, rowsPerPage, |filtered|);
            var visible := Paginated(filtered, page, rowsPerPage);
            f.total == |filtered|
            && (visible == [] ==> f.from == 0 && f.to == 0)
            && (visible != [] ==> f.from == page * rowsPerPage + 1 && f.to - f.from + 1 == |visible|
                                  && f.to <= |filtered|)
  {
    PaginatedWindow(filtered, page, rowsPerPage);
    assert (page + 1) * rowsPerPage == page * rowsPerPage + rowsPerPage;
  }

  // ---------------------------------------------------------------------------
  // Header and cells

  /** The header: one label per column, then "Acciones" when some row action exists. */
  function HeaderLabels(columns: seq<Column>, hasView: bool, hasEdit: bool, hasDelete: bool): (r: seq<string>)
    ensures |r| == |columns| + (if hasView || hasEdit || hasDelete then 1 else 0)
    ensures forall j :: 0 <= j < |columns| ==> r[j] == columns[j].caption
    ensures (hasView || hasEdit || hasDelete) <==> (|r| > |columns| && r[|columns|] == "Acciones")
  {
    seq(|columns|, j requires 0 <= j < |columns| => columns[j].caption)
      + (if hasView || hasEdit || hasDelete then ["Acciones"] else [])
  }

  /** A cell: `render(value, row)` when the column has a transform, else the raw value. */
  function CellContent(column: Column, row: Record): Value {
    match column.render
    case Some(render) => render(Get(row, column.id), row)
    case None => Get(row, column.id)
  }

  /** The body: one line per visible row, one cell per column. */
  function BodyCells(visible: seq<Record>, columns: seq<Column>): (r: seq<seq<Value>>)
    ensures |r| == |visible|
    ensures forall i :: 0 <= i < |visible| ==> |r[i]| == |columns|
    ensures forall i, j :: 0 <= i < |visible| && 0 <= j < |columns| ==>
              (columns[j].render.None? ==> r[i][j] == Get(visible[i], columns[j].id))
    ensures forall i, j :: 0 <= i < |visible| && 0 <= j < |columns| ==>
              (columns[j].render.Some? ==>
                 r[i][j] == columns[j].render.value(Get(visible[i], columns[j].id), visible[i]))
  {
    seq(|visible|, i requires 0 <= i < |visible| =>
      seq(|columns|, j requires 0 <= j < |columns| => CellContent(columns[j], visible[i])))
  }
}
