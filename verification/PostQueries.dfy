/**
 Filters and an order that the database cannot apply: a configuration hands them out
 as predicates and a comparator, to be applied to the rows that the query found.
 */
module PostQueries {
  import opened Wrappers
  import opened FilterComponents
  import opened FilterViews
  import opened FilterConfigs
  import opened Queries
  import opened SearchExpressions
  import opened Sorting

  // A predicate whose value is overwritten whenever a configuration asks for it.
  class PostQueryFilter {
    const keeps: (Value, Row) -> bool
    var filterValue: Value

    constructor (keeps: (Value, Row) -> bool)
      ensures this.keeps == keeps && filterValue == VNull
    {
      this.keeps, filterValue := keeps, VNull;
    }

    predicate Test(row: Row)
      reads this
    {
      keeps(filterValue, row)
    }

    function Filter(rows: seq<Row>): seq<Row>
      reads this
    {
      if rows == [] then [] else (if Test(rows[0]) then [rows[0]] else []) + Filter(rows[1..])
    }
  }

  predicate Passes(filters: seq<PostQueryFilter>, row: Row)
    reads filters
  {
    forall f :: f in filters ==> f.Test(row)
  }

  function Passing(filters: seq<PostQueryFilter>, rows: seq<Row>): seq<Row>
    reads filters
  {
    if rows == [] then [] else (if Passes(filters, rows[0]) then [rows[0]] else []) + Passing(filters, rows[1..])
  }

  lemma {:induction false} NoFilterPasses(rows: seq<Row>)
    ensures Passing([], rows) == rows
  {
    if rows != [] {
      NoFilterPasses(rows[1..]);
    }
  }

  lemma {:induction false} OneMoreFilter(filters: seq<PostQueryFilter>, f: PostQueryFilter, rows: seq<Row>)
    ensures f.Filter(Passing(filters, rows)) == Passing(filters + [f], rows)
  {
    if rows != [] {
      var rest := Passing(filters, rows[1..]);
      OneMoreFilter(filters, f, rows[1..]);
      assert Passes(filters + [f], rows[0]) <==> Passes(filters, rows[0]) && f.Test(rows[0]);
      if Passes(filters, rows[0]) {
        assert Passing(filters, rows) == [rows[0]] + rest;
        assert ([rows[0]] + rest)[1..] == rest;
      } else {
        assert Passing(filters, rows) == rest;
      }
    }
  }

  // Each filter in turn runs over what the earlier ones left.
  method ApplyFilters(filters: seq<PostQueryFilter>, rows: seq<Row>) returns (r: seq<Row>)
    ensures r == Passing(filters, rows)
  {
    r := rows;
    NoFilterPasses(rows);
    var i := 0;
    while i < |filters|
      invariant i <= |filters|
      invariant r == Passing(filters[..i], rows)
    {
      OneMoreFilter(filters[..i], filters[i], rows);
      assert filters[..i + 1] == filters[..i] + [filters[i]];
      r := filters[i].Filter(r);
      i := i + 1;
    }
    assert filters[..i] == filters;
  }

  type Filters = map<string, PostQueryFilter>

  // The predicates handed out are those of the given columns, set to their values.
  ghost predicate Hands(slots: Slots, filters: Filters, ids: set<string>, added: seq<PostQueryFilter>)
    reads added
  {
    && (forall id :: id in ids && id in slots && slots[id].Asks() ==>
          id in filters && filters[id] in added && filters[id].filterValue == slots[id].column.value)
    && (forall f :: f in added ==>
          exists id :: id in ids && id in slots && slots[id].Asks() && id in filters && filters[id] == f)
  }

  lemma HandsNoMore(slots: Slots, filters: Filters, ids: set<string>, added: seq<PostQueryFilter>, id: string)
    requires Hands(slots, filters, ids, added) && (id in slots ==> !slots[id].Asks())
    ensures Hands(slots, filters, ids + {id}, added)
  {
  }

  // What the filtered post-query columns together let through.
  ghost predicate Lets(slots: Slots, filters: Filters, row: Row) {
    forall id :: id in slots && id in filters && slots[id].Asks() ==> filters[id].keeps(slots[id].column.value, row)
  }

  lemma HandedFiltersLet(slots: Slots, filters: Filters, added: seq<PostQueryFilter>)
    requires Hands(slots, filters, slots.Keys, added)
    ensures forall row :: Passes(added, row) <==> Lets(slots, filters, row)
  {
    forall row | Passes(added, row)
      ensures Lets(slots, filters, row)
    {
      forall id | id in slots && id in filters && slots[id].Asks()
        ensures filters[id].keeps(slots[id].column.value, row)
      {
        assert filters[id].Test(row);
      }
    }
  }

  // The comparator that a column's sort status asks for.
  function ComparatorOf(slot: Slot, comparator: Order<Row>): Option<Order<Row>> {
    match slot.column.sort
    case ASC => Some(comparator)
    case DESC => Some(Reversed(comparator))
    case _ => None
  }

  // The post-query columns that ask for an order.
  ghost function Comparing(slots: Slots): set<string> {
    set id | id in slots && slots[id].selectable.component.PostQuery? && slots[id].column.sort in {ASC, DESC}
  }

  // What one column leaves in force: its own comparator or, without one, what there was.
  function Imposed(slot: Slot, comparator: Order<Row>, before: Option<Order<Row>>): Option<Order<Row>> {
    if slot.selectable.component.PostQuery? && ComparatorOf(slot, comparator).Some?
    then ComparatorOf(slot, comparator) else before
  }

  // The order is that of the last of the given columns to ask for one, if any.
  ghost predicate Orders(slots: Slots, comparators: map<string, Order<Row>>, done: set<string>, last: Option<string>,
                         order: Option<Order<Row>>, before: Option<Order<Row>>)
  {
    if last.None? then Comparing(slots) !! done && order == before
    else
      && last.value in Comparing(slots) && last.value in done && last.value in comparators
      && order == ComparatorOf(slots[last.value], comparators[last.value])
  }

  lemma OrdersOneMore(slots: Slots, comparators: map<string, Order<Row>>, done: set<string>, last: Option<string>,
                      order: Option<Order<Row>>, before: Option<Order<Row>>, id: string)
    requires id in slots && (slots[id].selectable.component.PostQuery? ==> id in comparators)
    requires Orders(slots, comparators, done, last, order, before)
    ensures if id in Comparing(slots)
            then Orders(slots, comparators, done + {id}, Some(id), Imposed(slots[id], comparators[id], order), before)
            else Orders(slots, comparators, done + {id}, last, order, before)
  {
  }

  class PostQueryFilterConfig {
    const config: FilterConfig
    const filters: Filters
    const comparators: map<string, Order<Row>>
    ghost const objects: set<PostQueryFilter>
    var postQueryFilters: seq<PostQueryFilter>
    var postQueryOrderBy: Option<Order<Row>>

    // Each post-query column has a filter object and a comparator.
    ghost predicate Valid()
      reads config, config.selectableColumns, config.userColumnConfigurations.Values
    {
      && config.Valid()
      && (forall id ::
            id in config.userColumnConfigurations && config.selectableColumns.columns[id].component.PostQuery? ==>
              id in filters && filters[id] in objects && id in comparators)
    }

    // No two columns share a filter object.
    ghost predicate Unshared() {
      forall id, id' :: id in filters && id' in filters && filters[id] == filters[id'] ==> id == id'
    }

    constructor (config: FilterConfig, filters: Filters, comparators: map<string, Order<Row>>)
      ensures this.config == config && this.filters == filters && this.comparators == comparators
      ensures objects == filters.Values && postQueryFilters == [] && postQueryOrderBy == None
    {
      this.config, this.filters, this.comparators := config, filters, comparators;
      objects, postQueryFilters, postQueryOrderBy := filters.Values, [], None;
    }

    // Where needed, there is a filter and a comparator.
    ghost predicate Served(slots: Slots) {
      forall id :: id in slots && slots[id].selectable.component.PostQuery? ==>
        id in filters && filters[id] in objects && id in comparators
    }

    // Every filtered column goes to exactly one side: its expression to the query, or
    // its predicate to the list of filters.
    method UpdateWithSearchExpression(expression: ExpressionList)
      requires Valid() && Unshared() && config.Searchable()
      modifies expression`exprs, this`postQueryFilters, objects
      ensures old(expression.exprs) <= expression.exprs && old(postQueryFilters) <= postQueryFilters
      ensures forall num: NumberOf, row: Row ::
                HoldsAll(num, row, expression.exprs[|old(expression.exprs)|..]) <==> old(config.Admits(num, row))
      ensures forall row ::
                Passes(postQueryFilters[|old(postQueryFilters)|..], row) <==> Lets(old(config.SlotsNow()), filters, row)
    {
      ghost var m, slots := |postQueryFilters|, config.SlotsNow();
      UpdateForColumns(expression, slots, |expression.exprs|, m);
      HandedFiltersLet(slots, filters, postQueryFilters[m..]);
    }

    method UpdateForColumns(expression: ExpressionList, ghost slots: Slots, ghost n: nat, ghost m: nat)
      requires config.Mirrors(slots) && Served(slots) && Unshared() && Searched(slots)
      requires n == |expression.exprs| && m == |postQueryFilters|
      modifies expression`exprs, this`postQueryFilters, objects
      ensures old(expression.exprs) <= expression.exprs && old(postQueryFilters) <= postQueryFilters
      ensures Selects(slots, slots.Keys, expression.exprs[n..])
      ensures Hands(slots, filters, slots.Keys, postQueryFilters[m..])
    {
      var left := config.userColumnConfigurations.Keys;
      ghost var done := {};
      while left != {}
        invariant left !! done && left + done == slots.Keys
        invariant old(expression.exprs) <= expression.exprs && old(postQueryFilters) <= postQueryFilters
        invariant Selects(slots, done, expression.exprs[n..]) && Hands(slots, filters, done, postQueryFilters[m..])
      {
        var id :| id in left;
        SelectsOneMore(slots, done, expression.exprs[n..], id);
        UpdateForColumn(expression, id, slots, done, n, m);
        left, done := left - {id}, done + {id};
      }
    }

    method UpdateForColumn(expression: ExpressionList, id: string, ghost slots: Slots, ghost ids: set<string>,
                           ghost n: nat, ghost m: nat)
      requires id in config.userColumnConfigurations && id in config.selectableColumns.columns && Unshared()
      requires id in slots && slots[id] == config.SlotOf(id)
      requires slots[id].Asks() ==> id in filters && filters[id] in objects
      requires slots[id].column.filtered ==> Castable(slots[id].selectable.component, slots[id].column.value)
      requires n <= |expression.exprs| && m <= |postQueryFilters| && id !in ids
      requires Hands(slots, filters, ids, postQueryFilters[m..])
      modifies expression`exprs, this`postQueryFilters, objects
      ensures old(expression.exprs) <= expression.exprs && old(postQueryFilters) <= postQueryFilters
      ensures expression.exprs[n..] == old(expression.exprs)[n..] + OptionalSeq(slots[id].Expression())
      ensures Hands(slots, filters, ids + {id}, postQueryFilters[m..])
    {
      if config.userColumnConfigurations[id].isFiltered && config.selectableColumns.columns[id].component.PostQuery? {
        HandOut(id, slots, ids, m);
        assert expression.exprs[n..] + [] == expression.exprs[n..];
      } else {
        HandsNoMore(slots, filters, ids, postQueryFilters[m..], id);
        config.AddSearchExpression(expression, id, slots[id], n);
      }
    }

    method HandOut(id: string, ghost slots: Slots, ghost ids: set<string>, ghost m: nat)
      requires id in config.userColumnConfigurations && Unshared() && m <= |postQueryFilters| && id !in ids
      requires id in slots && slots[id].Asks()
      requires slots[id].column.value == config.userColumnConfigurations[id].filterValue
      requires id in filters && filters[id] in objects && Hands(slots, filters, ids, postQueryFilters[m..])
      modifies this`postQueryFilters, objects
      ensures old(postQueryFilters) <= postQueryFilters && Hands(slots, filters, ids + {id}, postQueryFilters[m..])
    {
      var filter := GetPredicate(id);
      postQueryFilters := postQueryFilters + [filter];
      assert postQueryFilters[m..] == old(postQueryFilters)[m..] + [filter];
    }

    // Fetching a column's predicate overwrites the value it tests with.
    method GetPredicate(id: string) returns (filter: PostQueryFilter)
      requires id in config.userColumnConfigurations && id in filters
      modifies filters[id]
      ensures filter == filters[id] && filter.filterValue == config.userColumnConfigurations[id].filterValue
    {
      filter := filters[id];
      filter.filterValue := config.userColumnConfigurations[id].filterValue;
    }

    // ---------- Sorting ----------

    // The last post-query column that asks for an order imposes it, in the order of a
    // hash map; the other columns add their terms to the query.
    method UpdateWithSortExpression(expression: ExpressionList)
      returns (ghost ids: seq<string>, ghost last: Option<string>)
      requires Valid()
      modifies expression`orderTerms, this`postQueryOrderBy
      ensures SortsInOrder(old(config.SlotsNow()), old(config.SlotsNow()).Keys, ids, expression.orderTerms,
                           old(expression.orderTerms))
      ensures Orders(old(config.SlotsNow()), comparators, old(config.SlotsNow()).Keys, last, postQueryOrderBy,
                     old(postQueryOrderBy))
    {
      ids, last := SortForColumns(expression, config.SlotsNow());
    }

    method SortForColumns(expression: ExpressionList, ghost slots: Slots)
      returns (ghost ids: seq<string>, ghost last: Option<string>)
      requires config.Mirrors(slots) && Served(slots)
      modifies expression`orderTerms, this`postQueryOrderBy
      ensures SortsInOrder(slots, slots.Keys, ids, expression.orderTerms, old(expression.orderTerms))
      ensures Orders(slots, comparators, slots.Keys, last, postQueryOrderBy, old(postQueryOrderBy))
    {
      var left := config.userColumnConfigurations.Keys;
      ghost var done := {};
      ids, last := [], None;
      while left != {}
        invariant left !! done && left + done == slots.Keys
        invariant SortsInOrder(slots, done, ids, expression.orderTerms, old(expression.orderTerms))
        invariant Orders(slots, comparators, done, last, postQueryOrderBy, old(postQueryOrderBy))
      {
        var id :| id in left;
        ids, last := SortForColumn(expression, id, slots, done, ids, last,
                                   old(expression.orderTerms), old(postQueryOrderBy));
        left, done := left - {id}, done + {id};
      }
    }

    method SortForColumn(expression: ExpressionList, id: string, ghost slots: Slots, ghost done: set<string>,
                         ghost ids: seq<string>, ghost last: Option<string>, ghost terms: seq<OrderTerm>,
                         ghost order: Option<Order<Row>>)
      returns (ghost ids': seq<string>, ghost last': Option<string>)
      requires id in config.userColumnConfigurations && id in config.selectableColumns.columns && id !in done
      requires id in slots && slots[id] == config.SlotOf(id)
      requires slots[id].selectable.component.PostQuery? ==> id in comparators
      requires SortsInOrder(slots, done, ids, expression.orderTerms, terms)
      requires Orders(slots, comparators, done, last, postQueryOrderBy, order)
      modifies expression`orderTerms, this`postQueryOrderBy
      ensures SortsInOrder(slots, done + {id}, ids', expression.orderTerms, terms)
      ensures Orders(slots, comparators, done + {id}, last', postQueryOrderBy, order)
    {
      SortsOneMore(slots, done, ids, expression.orderTerms, terms, id);
      OrdersOneMore(slots, comparators, done, last, postQueryOrderBy, order, id);
      SortByColumn(expression, id, slots[id]);
      ids', last' := WithSorting(slots, ids, id), if id in Comparing(slots) then Some(id) else last;
    }

    method SortByColumn(expression: ExpressionList, id: string, ghost slot: Slot)
      requires id in config.userColumnConfigurations && id in config.selectableColumns.columns
      requires slot == config.SlotOf(id)
      requires slot.selectable.component.PostQuery? ==> id in comparators
      modifies expression`orderTerms, this`postQueryOrderBy
      ensures expression.orderTerms == old(expression.orderTerms) + slot.Terms()
      ensures postQueryOrderBy == if id in comparators then Imposed(slot, comparators[id], old(postQueryOrderBy))
                                  else old(postQueryOrderBy)
    {
      if config.selectableColumns.columns[id].component.PostQuery? {
        var comparator := ComparatorOf(config.SlotOf(id), comparators[id]);
        if comparator.Some? {
          postQueryOrderBy := comparator;
        }
      } else {
        AddSortExpression(expression, SortTerms(config.selectableColumns.columns[id].component,
                                                config.userColumnConfigurations[id].sortStatusType,
                                                config.selectableColumns.columns[id].fieldName));
      }
    }

    // The number of rows found that pass every filter.
    method GetSize(expressionList: ExpressionList) returns (size: nat)
      ensures size == |Passing(postQueryFilters, expressionList.Found())|
    {
      var list := expressionList.FindList();
      if postQueryFilters != [] {
        var stream := ApplyFilters(postQueryFilters, list);
        size := |stream|;
      } else {
        NoFilterPasses(list);
        size := |list|;
      }
    }
  }
}
