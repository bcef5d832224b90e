/** Splitting the rows of a query into pages, and the window of page links around the current one. */
module Paginations {
  import opened Wrappers
  import opened SearchExpressions
  import opened Sorting
  import opened Queries
  import opened PostQueries

  // ---------- Pages of a list ----------

  function Page<T>(s: seq<T>, i: nat, size: nat): seq<T> {
    Window(s, i * size, size)
  }

  // The first n pages, one after the other.
  function Pages<T>(s: seq<T>, n: nat, size: nat): seq<T> {
    if n == 0 then [] else Pages(s, n - 1, size) + Page(s, n - 1, size)
  }

  function NumberOfPages(rows: nat, size: nat): nat
    requires size > 0
  {
    rows / size + if rows % size != 0 then 1 else 0
  }

  // The pages are as few as can hold all rows.
  lemma PagesHoldTheRows(rows: nat, size: nat)
    requires size > 0
    ensures rows <= NumberOfPages(rows, size) * size < rows + size
  {
    var q, r := rows / size, rows % size;
    assert rows == q * size + r;
    assert (q + 1) * size == q * size + size;
  }

  lemma {:induction false} FirstPages<T>(s: seq<T>, n: nat, size: nat)
    ensures Pages(s, n, size) == if n * size <= |s| then s[..n * size] else s
  {
    if n > 0 {
      FirstPages(s, n - 1, size);
      assert n * size == (n - 1) * size + size;
      assert 0 <= (n - 1) * size;
    }
  }

  // The pages together are the whole list.
  lemma PagesAreTheWhole<T>(s: seq<T>, size: nat)
    requires size > 0
    ensures Pages(s, NumberOfPages(|s|, size), size) == s
  {
    PagesHoldTheRows(|s|, size);
    FirstPages(s, NumberOfPages(|s|, size), size);
  }

  lemma {:induction false} TimesKeepsOrder(i: nat, j: nat, size: nat)
    requires i <= j
    ensures i * size <= j * size
  {
    assert j * size == i * size + (j - i) * size;
  }

  lemma PageStarts(rows: nat, size: nat, i: nat)
    requires size > 0 && i < NumberOfPages(rows, size)
    ensures i * size < rows
    ensures i + 1 < NumberOfPages(rows, size) ==> i * size + size <= rows
  {
    var n := NumberOfPages(rows, size);
    PagesHoldTheRows(rows, size);
    TimesKeepsOrder(i, n - 1, size);
    assert (n - 1) * size == n * size - size;
    if i + 1 < n {
      TimesKeepsOrder(i + 1, n - 1, size);
      assert (i + 1) * size == i * size + size;
    }
  }

  // Every page but the last is full, and no page is empty.
  lemma PagesAreFull<T>(s: seq<T>, size: nat, i: nat)
    requires size > 0 && i < NumberOfPages(|s|, size)
    ensures i + 1 < NumberOfPages(|s|, size) ==> |Page(s, i, size)| == size
    ensures 0 < |Page(s, i, size)| <= size
  {
    PageStarts(|s|, size, i);
  }

  // ---------- The window of links ----------

  function Min(a: int, b: int): int { if a <= b then a else b }
  function Max(a: int, b: int): int { if a <= b then b else a }

  // The highest page the window would reach if there were enough pages.
  function Reach(current: int, links: nat): int {
    Max(current + links / 2, 2 * (links / 2))
  }

  function LowerBound(current: int, links: nat, pages: nat): int {
    Max(0, Min(current - links / 2, pages - 2 * (links / 2)))
  }

  function UpperBound(current: int, links: nat, pages: nat): int {
    Min(pages - 1, Reach(current, links))
  }

  // The window lies within the pages, contains the current one, and has as many links
  // as asked for: twice the half, at most one more, or all pages.
  lemma WindowShape(current: nat, links: nat, pages: nat)
    requires current < pages
    ensures 0 <= LowerBound(current, links, pages) <= current <= UpperBound(current, links, pages) <= pages - 1
    ensures Min(pages, 2 * (links / 2)) <=
            UpperBound(current, links, pages) - LowerBound(current, links, pages) + 1 <=
            Min(pages, 2 * (links / 2) + 1)
  {
  }

  // "More" is announced when the reach falls short of the page count. That is not quite
  // when pages lie beyond the window: it also happens when the window ends exactly on
  // the last page.
  lemma MoreIsWrongOnTheLastPageIff(current: nat, links: nat, pages: nat)
    requires current < pages
    ensures (Reach(current, links) < pages <==> UpperBound(current, links, pages) < pages - 1) <==>
            !(if current <= links / 2 then 2 * (links / 2) == pages - 1 else current + links / 2 == pages - 1)
  {
  }

  // ---------- The pagination object ----------

  class Pagination {
    const expressionList: ExpressionList?
    const pageSize: nat
    const rowCount: nat
    const numberOfLinksInNavigationBar: nat
    const postQueryFilters: seq<PostQueryFilter>
    const postQueryOrderBy: Option<Order<Row>>
    var numberOfPages: nat
    var currentPage: Option<nat>
    var lowerBound: int
    var upperBound: int
    var hasLess: bool
    var hasMore: bool

    ghost predicate Valid()
      reads this
    {
      && pageSize > 0 && numberOfPages == NumberOfPages(rowCount, pageSize)
      && (currentPage.Some? ==> currentPage.value < Max(1, numberOfPages))
      && (currentPage.Some? && hasLess ==> lowerBound > 0)
    }

    constructor (rowCount: nat, pageSize: nat, links: nat)
      requires pageSize > 0
      ensures Valid() && currentPage == None && hasLess && hasMore
      ensures this.rowCount == rowCount && this.pageSize == pageSize && numberOfLinksInNavigationBar == links
      ensures expressionList == null && postQueryFilters == [] && postQueryOrderBy == None
    {
      this.rowCount, this.pageSize, numberOfLinksInNavigationBar := rowCount, pageSize, links;
      expressionList, postQueryFilters, postQueryOrderBy := null, [], None;
      currentPage, lowerBound, upperBound, hasLess, hasMore := None, 0, 0, true, true;
      new;
      ComputeNumberOfPages();
    }

    constructor OfExpressionList(expressionList: ExpressionList, pageSize: nat, links: nat)
      requires pageSize > 0
      ensures Valid() && currentPage == None && hasLess && hasMore
      ensures this.expressionList == expressionList && this.pageSize == pageSize
      ensures numberOfLinksInNavigationBar == links
      ensures postQueryFilters == [] && postQueryOrderBy == None
      ensures rowCount == |Whole()|
    {
      this.pageSize, numberOfLinksInNavigationBar, this.expressionList := pageSize, links, expressionList;
      var n := expressionList.FindRowCount();
      rowCount, postQueryFilters, postQueryOrderBy := n, [], None;
      currentPage, lowerBound, upperBound, hasLess, hasMore := None, 0, 0, true, true;
      new;
      NoFilterPasses(expressionList.AllResults());
      ComputeNumberOfPages();
    }

    constructor OfPostQuery(rowCount: nat, expressionList: ExpressionList, postQueryFilters: seq<PostQueryFilter>,
                            postQueryOrderBy: Option<Order<Row>>, pageSize: nat, links: nat)
      requires pageSize > 0
      ensures Valid() && currentPage == None && hasLess && hasMore
      ensures this.rowCount == rowCount && this.pageSize == pageSize && numberOfLinksInNavigationBar == links
      ensures this.expressionList == expressionList
      ensures this.postQueryFilters == postQueryFilters && this.postQueryOrderBy == postQueryOrderBy
    {
      this.rowCount, this.pageSize, numberOfLinksInNavigationBar := rowCount, pageSize, links;
      this.expressionList := expressionList;
      this.postQueryFilters, this.postQueryOrderBy := postQueryFilters, postQueryOrderBy;
      currentPage, lowerBound, upperBound, hasLess, hasMore := None, 0, 0, true, true;
      new;
      ComputeNumberOfPages();
    }

    method ComputeNumberOfPages()
      requires pageSize > 0
      modifies this`numberOfPages
      ensures numberOfPages == NumberOfPages(rowCount, pageSize)
    {
      numberOfPages := rowCount / pageSize;
      if rowCount % pageSize != 0 {
        numberOfPages := numberOfPages + 1;
      }
    }

    // A page that does not exist becomes the first. The two flags are only ever cleared.
    method SetCurrentPage(page: int)
      requires Valid()
      modifies this`currentPage, this`lowerBound, this`upperBound, this`hasLess, this`hasMore
      ensures Valid()
      ensures currentPage == Some(if 0 <= page < numberOfPages then page else 0)
      ensures lowerBound == LowerBound(currentPage.value, numberOfLinksInNavigationBar, numberOfPages)
      ensures upperBound == UpperBound(currentPage.value, numberOfLinksInNavigationBar, numberOfPages)
      ensures hasLess == (old(hasLess) && lowerBound > 0)
      ensures hasMore == (old(hasMore) && Reach(currentPage.value, numberOfLinksInNavigationBar) < numberOfPages)
    {
      var current := page;
      if current < 0 {
        current := 0;
      }
      if current >= numberOfPages {
        current := 0;
      }
      var aLowerBound := current - numberOfLinksInNavigationBar / 2;
      var anUpperBound := current + numberOfLinksInNavigationBar / 2;
      if anUpperBound >= numberOfPages {
        lowerBound := aLowerBound - (anUpperBound - numberOfPages);
      } else {
        lowerBound := aLowerBound;
      }
      if lowerBound <= 0 {
        lowerBound := 0;
        hasLess := false;
      }
      if aLowerBound <= 0 {
        upperBound := anUpperBound - aLowerBound;
      } else {
        upperBound := anUpperBound;
      }
      if upperBound >= numberOfPages {
        upperBound := numberOfPages - 1;
        hasMore := false;
      }
      currentPage := Some(current);
    }

    // ---------- The rows of a page ----------

    ghost function Ordering(rows: seq<Row>): seq<Row> {
      if postQueryOrderBy.Some? then StableSort(postQueryOrderBy.value, rows) else rows
    }

    // All rows that the query and the filters let through, in their final order.
    ghost function Whole(): seq<Row>
      requires expressionList != null
      reads expressionList, postQueryFilters
    {
      Ordering(Passing(postQueryFilters, expressionList.AllResults()))
    }

    predicate InMemory() {
      postQueryFilters != [] || postQueryOrderBy.Some?
    }

    // The query is asked for all its results, where these are needed.
    ghost predicate Ready()
      reads this, expressionList
    {
      expressionList != null && (InMemory() || numberOfPages == 0 ==> expressionList.Unwindowed())
    }

    // None is an exception. The database cuts the page out of the query's results, unless
    // there are filters or an order that it cannot apply.
    method GetListOfObjects() returns (r: Option<seq<Row>>)
      requires Valid()
      modifies (if expressionList == null then {} else {expressionList})`firstRow
      modifies (if expressionList == null then {} else {expressionList})`maxRows
      ensures expressionList == null || currentPage.None? ==> r.None?
      ensures old(Ready()) && currentPage.Some? ==> Ready() && Whole() == old(Whole())
      ensures old(Ready()) && currentPage.Some? && numberOfPages == 0 ==> r == Some(Whole())
      ensures old(Ready()) && currentPage.Some? && numberOfPages > 0 ==>
                r == (if InMemory() && currentPage.value * pageSize > |Whole()| then None
                      else Some(Page(Whole(), currentPage.value, pageSize)))
    {
      if expressionList == null || currentPage.None? {
        return None;
      }
      if numberOfPages == 0 {
        var list := expressionList.FindList();
        list := ApplyAll(list);
        r := Some(list);
      } else {
        var fromIndex := currentPage.value * pageSize;
        if !InMemory() {
          NoFilterPasses(expressionList.AllResults());
          expressionList.SetWindow(fromIndex, pageSize);
          var list := expressionList.FindList();
          r := Some(list);
        } else {
          var list := expressionList.FindList();
          list := ApplyAll(list);
          r := SubList(list, fromIndex, fromIndex + pageSize);
        }
      }
    }

    static method SubList(list: seq<Row>, fromIndex: nat, toIndex: nat) returns (r: Option<seq<Row>>)
      requires fromIndex <= toIndex
      ensures r == if fromIndex > |list| then None else Some(Window(list, fromIndex, toIndex - fromIndex))
    {
      WindowIsSlice(list, fromIndex, toIndex);
      var end := if toIndex > |list| then |list| else toIndex;
      r := if fromIndex > end then None else Some(list[fromIndex..end]);
    }

    // When the row count is that of the whole list, the current page is always shown.
    lemma CurrentPageExists()
      requires Valid() && expressionList != null && currentPage.Some? && rowCount == |Whole()|
      ensures currentPage.value * pageSize <= |Whole()|
      ensures numberOfPages == 0 ==> Whole() == Page(Whole(), currentPage.value, pageSize)
    {
      if numberOfPages == 0 {
        PagesHoldTheRows(rowCount, pageSize);
      } else {
        PageStarts(rowCount, pageSize, currentPage.value);
      }
    }

    method ApplyAll(rows: seq<Row>) returns (r: seq<Row>)
      ensures r == Ordering(Passing(postQueryFilters, rows))
    {
      r := ApplyFilters(postQueryFilters, rows);
      if postQueryOrderBy.Some? {
        r := StableSort(postQueryOrderBy.value, r);
      }
    }

    // The page of a list that the caller holds; None is an exception.
    method GetEntriesForCurrentPage<T>(entries: seq<T>) returns (r: Option<seq<T>>)
      requires pageSize > 0
      ensures Valid() && currentPage.Some? && |entries| == rowCount ==>
                r == Some(Page(entries, currentPage.value, pageSize))
      ensures Valid() && currentPage.Some? && |entries| > rowCount ==>
                r == Some(Page(entries[..rowCount], currentPage.value, pageSize))
      ensures currentPage.Some? && currentPage.value * pageSize > rowCount ==> r == Some(entries)
      ensures r.None? <==>
              || currentPage.None?
              || (&& currentPage.value * pageSize <= rowCount
                  && |entries| < Min(currentPage.value * pageSize + pageSize, rowCount))
    {
      if currentPage.None? {
        return None;
      }
      var lower := currentPage.value * pageSize;
      var upper := if lower + pageSize > rowCount then rowCount else lower + pageSize;
      if lower <= upper {
        r := if upper > |entries| then None else Some(entries[lower..upper]);
      } else {
        r := Some(entries);
      }
      if Valid() && |entries| >= rowCount {
        if numberOfPages > 0 {
          PageStarts(rowCount, pageSize, currentPage.value);
        } else {
          PagesHoldTheRows(rowCount, pageSize);
        }
        WindowIsSlice(entries[..rowCount], lower, lower + pageSize);
        assert entries[..rowCount][lower..upper] == entries[lower..upper];
        assert |entries| == rowCount ==> entries[..rowCount] == entries;
      }
    }
  }
}
