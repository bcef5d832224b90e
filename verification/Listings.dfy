/**
 From the filter configuration to the pages on the screen: the row count, the filters
 and the slices agree, so that the pages show every row that was asked for once.
 */
module Listings {
  import opened FilterViews
  import opened FilterConfigs
  import opened Wrappers
  import opened SearchExpressions
  import opened Sorting
  import opened Queries
  import opened PostQueries
  import opened Paginations
  import SortClicks

  // How often a row occurs.
  function Count(row: Row, rows: seq<Row>): nat {
    multiset(rows)[row]
  }

  lemma {:induction false} PassingCount(filters: seq<PostQueryFilter>, rows: seq<Row>, row: Row)
    ensures Count(row, Passing(filters, rows)) == if Passes(filters, row) then Count(row, rows) else 0
  {
    if rows != [] {
      PassingCount(filters, rows[1..], row);
      assert rows == [rows[0]] + rows[1..];
    }
  }

  lemma {:induction false} SelectedCount(num: NumberOf, rows: seq<Row>, exprs: seq<Expr>, row: Row)
    ensures Count(row, Selected(num, rows, exprs)) == if HoldsAll(num, row, exprs) then Count(row, rows) else 0
  {
    if rows != [] {
      SelectedCount(num, rows[1..], exprs, row);
      assert rows == [rows[0]] + rows[1..];
    }
  }

  // The row count does not depend on the order, which may not be known yet when the rows
  // are counted.
  lemma CountIgnoresOrder(db: Database, exprs: seq<Expr>, terms: seq<OrderTerm>, terms': seq<OrderTerm>,
                          filters: seq<PostQueryFilter>)
    requires Rearranges(db)
    ensures |Passing(filters, Results(db, exprs, terms))| == |Passing(filters, Results(db, exprs, terms'))|
  {
    var a, b := Results(db, exprs, terms), Results(db, exprs, terms');
    assert multiset(a) == multiset(b);
    forall row
      ensures multiset(Passing(filters, a))[row] == multiset(Passing(filters, b))[row]
    {
      PassingCount(filters, a, row);
      PassingCount(filters, b, row);
    }
    assert multiset(Passing(filters, a)) == multiset(Passing(filters, b));
    assert |multiset(Passing(filters, a))| == |Passing(filters, a)|;
    assert |multiset(Passing(filters, b))| == |Passing(filters, b)|;
  }

  lemma OrderingKeepsCount(p: Pagination, rows: seq<Row>, row: Row)
    requires p.postQueryOrderBy.Some? ==> TotalPreorder(p.postQueryOrderBy.value)
    ensures Count(row, p.Ordering(rows)) == Count(row, rows) && |p.Ordering(rows)| == |rows|
  {
    if p.postQueryOrderBy.Some? {
      StableSortSorts(p.postQueryOrderBy.value, rows);
      StableSortLength(p.postQueryOrderBy.value, rows);
    }
  }

  // The whole list has each stored row that passes everything, as often as it is stored,
  // and is in the order of the comparator.
  lemma WholeHasWhatPasses(p: Pagination, row: Row)
    requires p.expressionList != null && Rearranges(p.expressionList.db)
    requires p.postQueryOrderBy.Some? ==> TotalPreorder(p.postQueryOrderBy.value)
    ensures Count(row, p.Whole()) ==
            if HoldsAll(p.expressionList.db.num, row, p.expressionList.exprs) && Passes(p.postQueryFilters, row)
            then Count(row, p.expressionList.db.rows) else 0
    ensures p.postQueryOrderBy.Some? ==> Ordered(p.postQueryOrderBy.value, p.Whole())
  {
    var list := p.expressionList;
    var selected, found := Selected(list.db.num, list.db.rows, list.exprs), list.AllResults();
    SelectedCount(list.db.num, list.db.rows, list.exprs, row);
    assert multiset(found) == multiset(selected);
    PassingCount(p.postQueryFilters, found, row);
    OrderingKeepsCount(p, Passing(p.postQueryFilters, found), row);
    if p.postQueryOrderBy.Some? {
      StableSortSorts(p.postQueryOrderBy.value, Passing(p.postQueryFilters, found));
    }
  }

  // The rows were counted as they are listed, in some order.
  ghost predicate Counted(p: Pagination)
    requires p.expressionList != null
    reads p, p.expressionList, p.postQueryFilters
  {
    exists terms ::
      p.rowCount == |Passing(p.postQueryFilters, Results(p.expressionList.db, p.expressionList.exprs, terms))|
  }

  lemma CountsTheWhole(p: Pagination)
    requires p.expressionList != null && Rearranges(p.expressionList.db) && Counted(p)
    requires p.postQueryOrderBy.Some? ==> TotalPreorder(p.postQueryOrderBy.value)
    ensures p.rowCount == |p.Whole()|
  {
    var list := p.expressionList;
    var terms :| p.rowCount == |Passing(p.postQueryFilters, Results(list.db, list.exprs, terms))|;
    CountIgnoresOrder(list.db, list.exprs, terms, list.orderTerms, p.postQueryFilters);
    OrderingKeepsCount(p, Passing(p.postQueryFilters, list.AllResults()), map[]);
  }

  lemma HoldsAllParts(num: NumberOf, row: Row, earlier: seq<Expr>, exprs: seq<Expr>)
    requires earlier <= exprs
    ensures HoldsAll(num, row, exprs) <==> HoldsAll(num, row, earlier) && HoldsAll(num, row, exprs[|earlier|..])
  {
    assert exprs == earlier + exprs[|earlier|..];
  }

  // The pages of a listing, one after the other, show every stored row that the query's
  // earlier expressions, the filtered columns and their predicates let through, as often as
  // it is stored, and no other; each page but the last is full.
  lemma PagesShowWhatPasses(slots: Slots, filters: Filters, earlier: seq<Expr>, p: Pagination, row: Row)
    requires p.Valid() && p.expressionList != null && Rearranges(p.expressionList.db)
    requires p.postQueryOrderBy.Some? ==> TotalPreorder(p.postQueryOrderBy.value)
    // The query and the predicates come from the columns.
    requires earlier <= p.expressionList.exprs && Selects(slots, slots.Keys, p.expressionList.exprs[|earlier|..])
    requires forall row :: Passes(p.postQueryFilters, row) <==> Lets(slots, filters, row)
    requires Counted(p)
    ensures p.rowCount == |p.Whole()|
    ensures Pages(p.Whole(), p.numberOfPages, p.pageSize) == p.Whole()
    ensures Count(row, p.Whole()) == if Wanted(slots, filters, earlier, p.expressionList.db.num, row)
                                     then Count(row, p.expressionList.db.rows) else 0
    ensures forall i: nat :: i + 1 < p.numberOfPages ==> |Page(p.Whole(), i, p.pageSize)| == p.pageSize
    ensures forall i: nat :: i < p.numberOfPages ==> 0 < |Page(p.Whole(), i, p.pageSize)| <= p.pageSize
  {
    var list := p.expressionList;
    CountsTheWhole(p);
    PagesAreTheWhole(p.Whole(), p.pageSize);
    WholeHasWhatPasses(p, row);
    HoldsAllParts(list.db.num, row, earlier, list.exprs);
    AllPagesAreFull(p.Whole(), p.pageSize);
  }

  lemma AllPagesAreFull(s: seq<Row>, size: nat)
    requires size > 0
    ensures forall i: nat :: i + 1 < NumberOfPages(|s|, size) ==> |Page(s, i, size)| == size
    ensures forall i: nat :: i < NumberOfPages(|s|, size) ==> 0 < |Page(s, i, size)| <= size
  {
    forall i: nat | i < NumberOfPages(|s|, size)
      ensures i + 1 < NumberOfPages(|s|, size) ==> |Page(s, i, size)| == size
      ensures 0 < |Page(s, i, size)| <= size
    {
      PagesAreFull(s, size, i);
    }
  }

  ghost predicate Wanted(slots: Slots, filters: Filters, earlier: seq<Expr>, num: NumberOf, row: Row) {
    HoldsAll(num, row, earlier) && KeptBy(slots, slots.Keys, num, row) && Lets(slots, filters, row)
  }

  // Where every filter value is faithful, the wanted rows are those that the query lets
  // through and that every filtered column is meant to keep: one that filters in memory by
  // its predicate, any other by its value.
  lemma WantedIsMeant(slots: Slots, filters: Filters, earlier: seq<Expr>, num: NumberOf, row: Row)
    requires Searched(slots)
    requires forall id :: id in slots && slots[id].column.filtered ==>
               && Faithful(slots[id].selectable.component, slots[id].column.value)
               && (slots[id].selectable.component.PostQuery? ==> id in filters)
    ensures Wanted(slots, filters, earlier, num, row) <==>
            && (forall e :: e in earlier ==> Eval(num, row, e))
            && forall id :: id in slots && slots[id].column.filtered ==>
                 if slots[id].selectable.component.PostQuery? then filters[id].keeps(slots[id].column.value, row)
                 else slots[id].Means(num, row)
  {
    forall id | id in slots && slots[id].column.filtered
      ensures Keeps(num, row, slots[id].Expression()) <==> slots[id].Means(num, row)
    {
      CompiledMeansMeant(num, slots[id].selectable.component, slots[id].column.value,
                         slots[id].selectable.fieldName, row);
    }
  }

  // Going through the pages, one after the other, gives the whole list and no exception.
  method AllPages(p: Pagination) returns (rows: seq<Row>)
    requires p.Valid() && p.Ready() && p.rowCount == |p.Whole()|
    modifies p, p.expressionList`firstRow, p.expressionList`maxRows
    ensures rows == old(p.Whole()) == p.Whole()
  {
    ghost var whole := p.Whole();
    rows := [];
    var i := 0;
    while i < p.numberOfPages
      invariant i <= p.numberOfPages == old(p.numberOfPages) && p.Valid() && p.Ready() && p.Whole() == whole
      invariant rows == Pages(whole, i, p.pageSize)
    {
      p.SetCurrentPage(i);
      p.CurrentPageExists();
      var page := p.GetListOfObjects();
      rows := rows + page.value;
      i := i + 1;
    }
    PagesAreTheWhole(whole, p.pageSize);
  }

  lemma ReversedIsTotal<T(!new)>(leq: Order<T>)
    requires TotalPreorder(leq)
    ensures TotalPreorder(Reversed(leq))
  {
  }

  // The query and the predicates of a configuration, and the order.
  method Ask(config: PostQueryFilterConfig, list: ExpressionList, ghost slots: Slots)
    returns (ghost ids: seq<string>, ghost last: Option<string>)
    requires config.Valid() && config.Unshared() && config.config.Searchable() && slots == config.config.SlotsNow()
    requires config.postQueryFilters == [] && config.postQueryOrderBy == None
    requires forall id :: id in config.comparators ==> TotalPreorder(config.comparators[id])
    modifies config`postQueryFilters, config`postQueryOrderBy, config.objects, list`exprs, list`orderTerms
    ensures old(list.exprs) <= list.exprs && Selects(slots, slots.Keys, list.exprs[|old(list.exprs)|..])
    ensures forall row :: Passes(config.postQueryFilters, row) <==> Lets(slots, config.filters, row)
    ensures config.postQueryOrderBy.Some? ==> TotalPreorder(config.postQueryOrderBy.value)
    ensures SortsInOrder(slots, slots.Keys, ids, list.orderTerms, old(list.orderTerms))
    ensures Orders(slots, config.comparators, slots.Keys, last, config.postQueryOrderBy, None)
  {
    AskFilters(config, list, slots);
    ids, last := AskOrder(config, list, slots);
  }

  method AskFilters(config: PostQueryFilterConfig, list: ExpressionList, ghost slots: Slots)
    requires config.Valid() && config.Unshared() && config.config.Searchable() && slots == config.config.SlotsNow()
    requires config.postQueryFilters == []
    modifies config`postQueryFilters, config.objects, list`exprs
    ensures old(list.exprs) <= list.exprs && Selects(slots, slots.Keys, list.exprs[|old(list.exprs)|..])
    ensures forall row :: Passes(config.postQueryFilters, row) <==> Lets(slots, config.filters, row)
  {
    config.UpdateWithSearchExpression(list);
    assert config.postQueryFilters[0..] == config.postQueryFilters;
  }

  method AskOrder(config: PostQueryFilterConfig, list: ExpressionList, ghost slots: Slots)
    returns (ghost ids: seq<string>, ghost last: Option<string>)
    requires config.Valid() && slots == config.config.SlotsNow() && config.postQueryOrderBy == None
    requires forall id :: id in config.comparators ==> TotalPreorder(config.comparators[id])
    modifies config`postQueryOrderBy, list`orderTerms
    ensures config.postQueryOrderBy.Some? ==> TotalPreorder(config.postQueryOrderBy.value)
    ensures SortsInOrder(slots, slots.Keys, ids, list.orderTerms, old(list.orderTerms))
    ensures Orders(slots, config.comparators, slots.Keys, last, config.postQueryOrderBy, None)
  {
    ids, last := config.UpdateWithSortExpression(list);
    if last.Some? {
      ReversedIsTotal(config.comparators[last.value]);
    }
  }

  method Paginate(config: PostQueryFilterConfig, list: ExpressionList, pageSize: nat, links: nat, ghost slots: Slots,
                  ghost earlier: seq<Expr>)
    returns (p: Pagination)
    requires earlier <= list.exprs && Selects(slots, slots.Keys, list.exprs[|earlier|..])
    requires forall row :: Passes(config.postQueryFilters, row) <==> Lets(slots, config.filters, row)
    requires config.postQueryOrderBy.Some? ==> TotalPreorder(config.postQueryOrderBy.value)
    requires list.Unwindowed() && Rearranges(list.db) && pageSize > 0
    ensures fresh(p) && p.expressionList == list && p.Valid() && p.Ready() && p.rowCount == |p.Whole()|
    ensures p.postQueryFilters == config.postQueryFilters && p.postQueryOrderBy == config.postQueryOrderBy
    ensures config.postQueryOrderBy.Some? ==> Ordered(config.postQueryOrderBy.value, p.Whole())
    ensures forall row :: Count(row, p.Whole()) ==
                          if Wanted(slots, config.filters, earlier, list.db.num, row)
                          then Count(row, list.db.rows) else 0
  {
    var size := config.GetSize(list);
    p := new Pagination.OfPostQuery(size, list, config.postQueryFilters, config.postQueryOrderBy, pageSize, links);
    forall row
      ensures p.rowCount == |p.Whole()|
      ensures Count(row, p.Whole()) ==
              if Wanted(slots, config.filters, earlier, list.db.num, row) then Count(row, list.db.rows) else 0
    {
      PagesShowWhatPasses(slots, config.filters, earlier, p, row);
    }
    PagesShowWhatPasses(slots, config.filters, earlier, p, map[]);
    WholeHasWhatPasses(p, map[]);
  }

  // A listing from end to end: the columns of a configuration, a query that may filter by
  // expressions of its own, the row count, and the pages.
  method ListRows(config: PostQueryFilterConfig, list: ExpressionList, pageSize: nat, links: nat)
    returns (rows: seq<Row>, ghost ids: seq<string>, ghost last: Option<string>)
    requires config.Valid() && config.Unshared() && config.config.Searchable()
    requires config.postQueryFilters == [] && config.postQueryOrderBy == None
    requires forall id :: id in config.comparators ==> TotalPreorder(config.comparators[id])
    requires list.Unwindowed() && Rearranges(list.db) && pageSize > 0
    modifies config`postQueryFilters, config`postQueryOrderBy, config.objects, list
    ensures forall row :: Count(row, rows) ==
                          if Wanted(old(config.config.SlotsNow()), config.filters, old(list.exprs), list.db.num, row)
                          then Count(row, list.db.rows) else 0
    // The terms and the comparator of the columns decide the order.
    ensures var slots := old(config.config.SlotsNow());
            && SortsInOrder(slots, slots.Keys, ids, list.orderTerms, old(list.orderTerms))
            && Orders(slots, config.comparators, slots.Keys, last, config.postQueryOrderBy, None)
    ensures match config.postQueryOrderBy
            case Some(order) => Ordered(order, rows)
            case None => rows == Passing(config.postQueryFilters, list.AllResults())
  {
    ghost var slots, earlier := config.config.SlotsNow(), list.exprs;
    ids, last := Ask(config, list, slots);
    var p := Paginate(config, list, pageSize, links, slots, earlier);
    rows := AllPages(p);
  }

  lemma {:induction false} PassingKeepsOrder(leq: Order<Row>, filters: seq<PostQueryFilter>, rows: seq<Row>)
    requires Ordered(leq, rows)
    ensures Ordered(leq, Passing(filters, rows))
    ensures forall row :: row in Passing(filters, rows) ==> row in rows
  {
    if rows != [] {
      var rest := Passing(filters, rows[1..]);
      PassingKeepsOrder(leq, filters, rows[1..]);
      forall j | 0 <= j < |rest|
        ensures leq(rows[0], rest[j])
      {
        assert rest[j] in rows[1..];
        var k :| 0 <= k < |rows[1..]| && rows[1..][k] == rest[j];
        assert rows[k + 1] == rest[j];
      }
    }
  }

  // One row may come before the other: by the first of these fields in which they differ.
  ghost predicate Precedes(leq: (Cell, Cell) -> bool, fields: seq<string>, r: Row, r': Row, ascending: bool) {
    fields != [] ==>
      var x, y := CellOf(r, fields[0]), CellOf(r', fields[0]);
      && (if ascending then leq(x, y) else leq(y, x))
      && ((if ascending then leq(y, x) else leq(x, y)) ==> Precedes(leq, fields[1..], r, r', ascending))
  }

  // What the user sees of the order that a column of the database has: its values, or the
  // labels of its values or of its sort fields.
  ghost predicate RowsInOrder(slot: Slot, c: Collation, r: Row, r': Row, ascending: bool) {
    match slot.selectable.component
    case NoFilter(_) => true
    case NoDb(_) => true
    case PostQuery(_) => true
    case Select(_, Some(fields)) => Precedes(c.byLabel, fields, r, r', ascending)
    case Autocomplete(Some(fields)) => Precedes(c.byLabel, fields, r, r', ascending)
    case Select(_, None) => Precedes(c.byLabel, [slot.selectable.fieldName], r, r', ascending)
    case Autocomplete(None) => Precedes(c.byLabel, [slot.selectable.fieldName], r, r', ascending)
    case _ => Precedes(c.byField, [slot.selectable.fieldName], r, r', ascending)
  }

  ghost predicate InOrderOf(slot: Slot, c: Collation, rows: seq<Row>, ascending: bool) {
    forall i, j :: 0 <= i < j < |rows| ==> RowsInOrder(slot, c, rows[i], rows[j], ascending)
  }

  lemma {:induction false} TermsDecide(c: Collation, fields: seq<string>, terms: seq<OrderTerm>, byLabel: bool,
                                       ascending: bool, r: Row, r': Row)
    requires |terms| == |fields|
    requires forall i :: 0 <= i < |fields| ==>
               terms[i] == if byLabel then ByLabel(fields[i], !ascending) else ByField(fields[i], !ascending)
    requires LexLeq(c, terms, r, r')
    ensures Precedes(if byLabel then c.byLabel else c.byField, fields, r, r', ascending)
  {
    if fields != [] && TermLeq(c, terms[0], r', r) {
      TermsDecide(c, fields[1..], terms[1..], byLabel, ascending, r, r');
    }
  }

  lemma SlotDecides(slot: Slot, c: Collation, r: Row, r': Row, ascending: bool)
    requires slot.column.sort == (if ascending then ASC else DESC)
    requires LexLeq(c, slot.Terms(), r, r')
    ensures RowsInOrder(slot, c, r, r', ascending)
  {
    var own, terms := [slot.selectable.fieldName], slot.Terms();
    match slot.selectable.component
    case NoFilter(_) =>
    case NoDb(_) =>
    case PostQuery(_) =>
    case Select(_, Some(fields)) => TermsDecide(c, fields, terms, true, ascending, r, r');
    case Autocomplete(Some(fields)) => TermsDecide(c, fields, terms, true, ascending, r, r');
    case Select(_, None) => TermsDecide(c, own, terms, true, ascending, r, r');
    case Autocomplete(None) => TermsDecide(c, own, terms, true, ascending, r, r');
    case _ => TermsDecide(c, own, terms, false, ascending, r, r');
  }

  // A database that honours its terms lists a column that sorts in the column's direction.
  lemma QueryIsInOrder(slot: Slot, db: Database, exprs: seq<Expr>, filters: seq<PostQueryFilter>, c: Collation)
    requires Honours(db, c) && slot.column.sort in {ASC, DESC}
    ensures InOrderOf(slot, c, Passing(filters, Results(db, exprs, slot.Terms())), slot.column.sort == ASC)
  {
    var order, found := LexOrder(c, slot.Terms()), Results(db, exprs, slot.Terms());
    PassingKeepsOrder(order, filters, found);
    var rows := Passing(filters, found);
    forall i, j | 0 <= i < j < |rows|
      ensures RowsInOrder(slot, c, rows[i], rows[j], slot.column.sort == ASC)
    {
      assert order(rows[i], rows[j]);
      SlotDecides(slot, c, rows[i], rows[j], slot.column.sort == ASC);
    }
  }

  // What is listed after clicks on the column headers comes in the order of the column
  // clicked last, ascending after an odd number of clicks in a row on it: in that of its
  // comparator, or in the one that the database gives its values or labels.
  method ListAfterClicks(config: PostQueryFilterConfig, list: ExpressionList, pageSize: nat, links: nat,
                         ghost sorts: SortClicks.SortTypes, ghost clicks: seq<string>, ghost collation: Collation)
    returns (rows: seq<Row>)
    requires config.Valid() && config.Unshared() && config.config.Searchable()
    requires config.postQueryFilters == [] && config.postQueryOrderBy == None
    requires forall id :: id in config.comparators ==> TotalPreorder(config.comparators[id])
    requires list.Unwindowed() && Rearranges(list.db) && pageSize > 0
    requires clicks != [] && SortClicks.Clickable(sorts, clicks)
    requires SortClicks.Shows(config.config.SlotsNow(), SortClicks.After(sorts, clicks))
    modifies config`postQueryFilters, config`postQueryOrderBy, config.objects, list
    ensures forall row :: Count(row, rows) ==
                          if Wanted(old(config.config.SlotsNow()), config.filters, old(list.exprs), list.db.num, row)
                          then Count(row, list.db.rows) else 0
    ensures var slots, id := old(config.config.SlotsNow()), clicks[|clicks| - 1];
            && id in slots && id in sorts
            && var ascending := SortClicks.EndsAscending(sorts, clicks);
               if slots[id].selectable.component.PostQuery?
               then id in config.comparators && InComparedOrder(config.comparators[id], rows, ascending)
               else Honours(list.db, collation) && old(list.orderTerms) == [] ==>
                      InOrderOf(slots[id], collation, rows, ascending)
  {
    ghost var slots, before := config.config.SlotsNow(), list.orderTerms;
    ghost var ids, last;
    rows, ids, last := ListRows(config, list, pageSize, links);
    OrderAfterClicks(sorts, clicks, slots, ids, list.orderTerms, before,
                     config.comparators, last, config.postQueryOrderBy);
    ghost var slot := slots[clicks[|clicks| - 1]];
    if !slot.selectable.component.PostQuery? && Honours(list.db, collation) && before == [] {
      assert before + slot.Terms() == slot.Terms();
      QueryIsInOrder(slot, list.db, list.exprs, config.postQueryFilters, collation);
    }
  }

  ghost predicate InComparedOrder(leq: Order<Row>, rows: seq<Row>, ascending: bool) {
    forall i, j :: 0 <= i < j < |rows| ==> if ascending then leq(rows[i], rows[j]) else leq(rows[j], rows[i])
  }

  lemma OrderAfterClicks(sorts: SortClicks.SortTypes, clicks: seq<string>, slots: Slots, ids: seq<string>,
                         terms: seq<OrderTerm>, before: seq<OrderTerm>,
                         comparators: map<string, Order<Row>>, last: Option<string>, order: Option<Order<Row>>)
    requires clicks != [] && SortClicks.Clickable(sorts, clicks)
    requires SortClicks.Shows(slots, SortClicks.After(sorts, clicks))
    requires SortsInOrder(slots, slots.Keys, ids, terms, before)
    requires Orders(slots, comparators, slots.Keys, last, order, None)
    ensures var id := clicks[|clicks| - 1];
            && id in slots && id in sorts
            && slots[id].column.sort == (if SortClicks.EndsAscending(sorts, clicks) then ASC else DESC)
            && if slots[id].selectable.component.PostQuery?
               then id in comparators && order.Some? && order == ComparatorOf(slots[id], comparators[id])
               else order.None? && terms == before + slots[id].Terms()
  {
    SortClicks.OrderByOneColumn(sorts, clicks, slots, ids, terms, before, comparators, last, order);
    SortClicks.DirectionAfterClicks(sorts, clicks);
  }
}
