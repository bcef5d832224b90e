/**
 The filter configuration object: a table of columns that copies share by reference,
 and one mutable record for each column that copies duplicate.
 */
module FilterConfigs {
  import opened Wrappers
  import opened Json
  import opened FilterComponents
  import opened FilterViews
  import opened Queries
  import opened SearchExpressions

  // A column that is neither ascending nor descending adds nothing, nor does one that
  // the database cannot sort by. Choices are sorted by label, on their own sort fields.
  function SortTerms(component: Component, sort: SortStatus, fieldName: string): seq<OrderTerm> {
    if sort == NONE || sort == UNSORTED then []
    else
      match component
      case Checkbox(_) => [ByField(fieldName, sort == DESC)]
      case TextField(_) => [ByField(fieldName, sort == DESC)]
      case NumericField(_, _) => [ByField(fieldName, sort == DESC)]
      case DateRange(_, _) => [ByField(fieldName, sort == DESC)]
      case Select(_, fieldsSort) => LabelTerms(fieldsSort, sort == DESC, fieldName)
      case Autocomplete(fieldsSort) => LabelTerms(fieldsSort, sort == DESC, fieldName)
      case _ => []
  }

  function LabelTerms(fieldsSort: Option<seq<string>>, descending: bool, fieldName: string): seq<OrderTerm> {
    match fieldsSort
    case None => [ByLabel(fieldName, descending)]
    case Some(fields) => seq(|fields|, i requires 0 <= i < |fields| => ByLabel(fields[i], descending))
  }

  // What a column holds, with its description.
  datatype Slot = Slot(selectable: SelectableColumn, column: Column) {
    ghost function Expression(): Option<Expr> {
      if column.filtered && Castable(selectable.component, column.value)
      then Compile(selectable.component, column.value, selectable.fieldName) else None
    }

    // The row is one that the user who set this filter wants to see.
    ghost predicate Means(num: NumberOf, row: Row)
      requires Castable(selectable.component, column.value)
    {
      Meant(num, selectable.component, column.value, CellOf(row, selectable.fieldName))
    }

    ghost function Terms(): seq<OrderTerm> {
      SortTerms(selectable.component, column.sort, selectable.fieldName)
    }

    predicate Asks() {
      column.filtered && selectable.component.PostQuery?
    }
  }

  type Slots = map<string, Slot>

  ghost function OptionalSeq<T>(o: Option<T>): seq<T> {
    if o.Some? then [o.value] else []
  }

  // No filtered column holds a value that its component cannot make an expression of.
  ghost predicate Searched(slots: Slots) {
    forall id :: id in slots && slots[id].column.filtered ==>
      Castable(slots[id].selectable.component, slots[id].column.value)
  }

  // What the given columns together let through.
  ghost predicate KeptBy(slots: Slots, ids: set<string>, num: NumberOf, row: Row) {
    forall id :: id in ids && id in slots ==> Keeps(num, row, slots[id].Expression())
  }

  // The expressions together keep what the given columns let through.
  ghost predicate Selects(slots: Slots, ids: set<string>, exprs: seq<Expr>) {
    forall num: NumberOf, row: Row :: HoldsAll(num, row, exprs) <==> KeptBy(slots, ids, num, row)
  }

  lemma SelectsOneMore(slots: Slots, ids: set<string>, exprs: seq<Expr>, id: string)
    requires id in slots && Selects(slots, ids, exprs)
    ensures Selects(slots, ids + {id}, exprs + OptionalSeq(slots[id].Expression()))
  {
    var e := OptionalSeq(slots[id].Expression());
    forall num: NumberOf, row: Row
      ensures HoldsAll(num, row, exprs + e) <==> KeptBy(slots, ids + {id}, num, row)
    {
      assert HoldsAll(num, row, exprs + e) <==> HoldsAll(num, row, exprs) && HoldsAll(num, row, e);
      assert HoldsAll(num, row, e) <==> Keeps(num, row, slots[id].Expression());
    }
  }

  // One expression that keeps what the given columns let through.
  ghost predicate SelectsBy(slots: Slots, ids: set<string>, r: Option<Expr>) {
    forall num: NumberOf, row: Row :: Keeps(num, row, r) <==> KeptBy(slots, ids, num, row)
  }

  lemma SelectsByOneMore(slots: Slots, ids: set<string>, r: Option<Expr>, r': Option<Expr>, id: string)
    requires id in slots && SelectsBy(slots, ids, r)
    requires var e := slots[id].Expression();
             r' == if e.None? then r else if r.None? then e else Some(And(r.value, e.value))
    ensures SelectsBy(slots, ids + {id}, r')
  {
    forall num: NumberOf, row: Row
      ensures Keeps(num, row, r') <==> KeptBy(slots, ids + {id}, num, row)
    {
      assert Keeps(num, row, r') <==> Keeps(num, row, r) && Keeps(num, row, slots[id].Expression());
    }
  }

  ghost function AllTerms(slots: Slots, ids: seq<string>): seq<OrderTerm>
    requires forall i :: 0 <= i < |ids| ==> ids[i] in slots
  {
    if ids == [] then [] else AllTerms(slots, ids[..|ids| - 1]) + slots[ids[|ids| - 1]].Terms()
  }

  // The terms are the earlier ones and then, in this order, those of the given columns
  // that have any.
  ghost predicate SortsInOrder(slots: Slots, done: set<string>, ids: seq<string>, terms: seq<OrderTerm>,
                               before: seq<OrderTerm>)
  {
    && (forall id :: id in ids <==> id in done && id in slots && slots[id].Terms() != [])
    && (forall i, j :: 0 <= i < j < |ids| ==> ids[i] != ids[j])
    && (forall i :: 0 <= i < |ids| ==> ids[i] in slots)
    && terms == before + AllTerms(slots, ids)
  }

  ghost function WithSorting(slots: Slots, ids: seq<string>, id: string): seq<string>
    requires id in slots
  {
    if slots[id].Terms() == [] then ids else ids + [id]
  }

  lemma AllTermsSnoc(slots: Slots, ids: seq<string>, id: string)
    requires id in slots && forall i :: 0 <= i < |ids| ==> ids[i] in slots
    ensures AllTerms(slots, ids + [id]) == AllTerms(slots, ids) + slots[id].Terms()
  {
    assert (ids + [id])[..|ids|] == ids;
  }

  lemma SortsOneMore(slots: Slots, done: set<string>, ids: seq<string>, terms: seq<OrderTerm>, before: seq<OrderTerm>,
                     id: string)
    requires id in slots && id !in done && SortsInOrder(slots, done, ids, terms, before)
    ensures SortsInOrder(slots, done + {id}, WithSorting(slots, ids, id), terms + slots[id].Terms(), before)
  {
    AllTermsSnoc(slots, ids, id);
    var more := slots[id].Terms();
    assert terms + more == before + (AllTerms(slots, ids) + more);
    assert more == [] ==> terms + more == terms;
    assert id !in ids;
  }

  method AddSortExpression(expression: ExpressionList, terms: seq<OrderTerm>)
    modifies expression`orderTerms
    ensures expression.orderTerms == old(expression.orderTerms) + terms
  {
    var i := 0;
    while i < |terms|
      invariant i <= |terms|
      invariant expression.orderTerms == old(expression.orderTerms) + terms[..i]
    {
      expression.Order(terms[i]);
      i := i + 1;
    }
  }

  class ColumnTable {
    var columns: map<string, SelectableColumn>

    constructor (columns: map<string, SelectableColumn>)
      ensures this.columns == columns
    {
      this.columns := columns;
    }
  }

  class UserColumnConfiguration {
    const columnId: string
    var sortStatusType: SortStatus
    var isDisplayed: bool
    var isFiltered: bool
    var filterValue: Value

    constructor (columnId: string, sortStatusType: SortStatus, isDisplayed: bool, isFiltered: bool, filterValue: Value)
      ensures this.columnId == columnId
      ensures AsColumn() == Column(sortStatusType, isDisplayed, isFiltered, filterValue)
    {
      this.columnId, this.sortStatusType := columnId, sortStatusType;
      this.isDisplayed, this.isFiltered, this.filterValue := isDisplayed, isFiltered, filterValue;
    }

    function AsColumn(): Column
      reads this
    {
      Column(sortStatusType, isDisplayed, isFiltered, filterValue)
    }

    method Copy() returns (r: UserColumnConfiguration)
      ensures fresh(r) && r.columnId == columnId && r.AsColumn() == AsColumn()
    {
      r := new UserColumnConfiguration(columnId, sortStatusType, isDisplayed, isFiltered, filterValue);
    }

    method Marshall(k: Codec, component: Component) returns (r: Option<Json>)
      ensures r == MarshallColumn(k, component, AsColumn())
    {
      var names := ["sortType", "isDisplayed", "isFiltered", "isKpi"];
      var fields := map["sortType" := JText(SortName(sortStatusType)), "isDisplayed" := JBool(isDisplayed),
                        "isFiltered" := JBool(isFiltered), "isKpi" := JBool(component.IsKpi())];
      match MarshallFilterValue(k, component, filterValue) {
        case Thrown => return None;
        case Nothing =>
          assert names + [] == names && fields + map[] == fields;
          return Some(JObject(names, fields));
        case Field(json) =>
          assert fields["filterValue" := json] == fields + map["filterValue" := json];
          return Some(JObject(names + ["filterValue"], fields["filterValue" := json]));
      }
    }

    // The fields are set one by one; an exception leaves the later ones as they were.
    method Unmarshall(k: Codec, component: Component, json: Json) returns (ok: bool)
      modifies this
      ensures ok <==> ParseColumn(k, component, json).Some?
      ensures ok ==> AsColumn() == ParseColumn(k, component, json).value
    {
      var displayed := Get(json, "isDisplayed");
      if displayed.None? {
        return false;
      }
      isDisplayed := AsBoolean(displayed.value);
      var filtered := Get(json, "isFiltered");
      if filtered.None? {
        return false;
      }
      isFiltered := AsBoolean(filtered.value);
      var sortType := Get(json, "sortType");
      if sortType.None? {
        return false;
      }
      var sort := SortOf(AsText(sortType.value));
      if sort.None? {
        return false;
      }
      sortStatusType := sort.value;
      var value := GetFilterValueFromJson(k, component, Get(json, "filterValue"));
      if value.None? {
        return false;
      }
      filterValue := value.value;
      return true;
    }
  }

  ghost function ColumnsOf(records: map<string, UserColumnConfiguration>): Columns
    reads records.Values
  {
    map id | id in records :: records[id].AsColumn()
  }

  // The columns after the fields of these names were read.
  ghost predicate ReadSoFar(k: Codec, selectable: Table, before: Columns, fields: map<string, Json>,
                            names: seq<string>, now: Columns)
  {
    && now.Keys == before.Keys <= selectable.Keys
    && forall id :: id in now ==>
         if id in names && id in fields then ParseColumn(k, selectable[id].component, fields[id]) == Some(now[id])
         else now[id] == before[id]
  }

  lemma ReadsOneMore(k: Codec, selectable: Table, before: Columns, fields: map<string, Json>,
                     names: seq<string>, now: Columns, id: string)
    requires ReadSoFar(k, selectable, before, fields, names, now) && id in fields
    ensures if id !in before then ReadSoFar(k, selectable, before, fields, names + [id], now)
            else
              var parsed := ParseColumn(k, selectable[id].component, fields[id]);
              parsed.Some? ==> ReadSoFar(k, selectable, before, fields, names + [id], now[id := parsed.value])
  {
  }

  lemma ReadsAll(k: Codec, selectable: Table, before: Columns, fields: map<string, Json>,
                 names: seq<string>, n: nat, now: Columns)
    requires n == |names| && (forall id :: id in names <==> id in fields)
    requires ReadSoFar(k, selectable, before, fields, names[..n], now)
    ensures ColumnsParse(k, selectable, before, fields) && now == ParsedColumns(k, selectable, before, fields)
  {
    assert names[..n] == names;
  }

  method CopyRecords(template: FilterConfig, ghost columns: Columns)
    returns (copies: map<string, UserColumnConfiguration>)
    requires template.Valid() && columns == template.ColumnsNow()
    ensures copies.Keys == template.userColumnConfigurations.Keys && fresh(copies.Values)
    ensures forall id :: id in copies ==> copies[id].columnId == id
    ensures ColumnsOf(copies) == columns
  {
    copies := map[];
    var left := template.userColumnConfigurations.Keys;
    while left != {}
      invariant left <= template.userColumnConfigurations.Keys
      invariant copies.Keys == template.userColumnConfigurations.Keys - left
      invariant forall id :: id in copies ==>
                  && fresh(copies[id]) && copies[id].columnId == id
                  && copies[id].AsColumn() == columns[id]
    {
      var id :| id in left;
      var userColumnConfig := template.userColumnConfigurations[id];
      var copy := userColumnConfig.Copy();
      copies := copies[userColumnConfig.columnId := copy];
      left := left - {id};
    }
  }

  class FilterConfig {
    var selectableColumns: ColumnTable
    var userColumnConfigurations: map<string, UserColumnConfiguration>
    var currentPage: Int32
    var selectedRows: Option<seq<string>>
    var selectedFilterConfiguration: Option<nat>

    // Each column has its own record, filed under its id.
    ghost predicate Valid()
      reads this`selectableColumns, this`userColumnConfigurations, selectableColumns, userColumnConfigurations.Values
    {
      && userColumnConfigurations.Keys <= selectableColumns.columns.Keys
      && (forall id :: id in userColumnConfigurations ==> userColumnConfigurations[id].columnId == id)
    }

    ghost function View(): (r: Config)
      requires Valid()
      reads this, selectableColumns, userColumnConfigurations.Values
      ensures Complete(r)
    {
      Config(selectableColumns.columns, ColumnsNow(), currentPage, selectedRows)
    }

    ghost function ColumnsNow(): Columns
      reads this`userColumnConfigurations, userColumnConfigurations.Values
    {
      ColumnsOf(userColumnConfigurations)
    }

    constructor ()
      ensures Valid() && fresh(selectableColumns)
      ensures View() == Config(map[], map[], 0, None) && HoldsDefaults(View())
    {
      selectableColumns := new ColumnTable(map[]);
      userColumnConfigurations := map[];
      currentPage, selectedRows, selectedFilterConfiguration := 0, None, None;
    }

    // The copy shares the column table unless it is deep; it has its own records, on the first page.
    constructor CopyOf(template: FilterConfig, selectedFilterConfiguration: Option<nat>, deepCopy: bool)
      requires template.Valid()
      ensures Valid() && fresh(userColumnConfigurations.Values)
      ensures if deepCopy then fresh(selectableColumns) else selectableColumns == template.selectableColumns
      ensures selectableColumns.columns == template.selectableColumns.columns
      ensures ColumnsNow() == old(template.ColumnsNow())
      ensures currentPage == 0 && selectedRows == None
      ensures this.selectedFilterConfiguration == selectedFilterConfiguration
    {
      ghost var columns := template.ColumnsNow();
      if deepCopy {
        selectableColumns := new ColumnTable(template.selectableColumns.columns);
      } else {
        selectableColumns := template.selectableColumns;
      }
      var copies := CopyRecords(template, columns);
      userColumnConfigurations := copies;
      currentPage, selectedRows := 0, None;
      this.selectedFilterConfiguration := selectedFilterConfiguration;
    }

    method AddColumnConfiguration(columnId: string, fieldName: string, meta: Json, component: Component,
                                  isDisplayed: bool, isFiltered: bool, sortStatusType: SortStatus)
      requires Valid()
      modifies this`userColumnConfigurations, selectableColumns
      ensures Valid()
      ensures selectableColumns.columns ==
              old(selectableColumns.columns)[columnId := SelectableColumn(columnId, fieldName, component, meta)]
      ensures ColumnsNow() ==
              old(ColumnsNow())[columnId := Column(sortStatusType, isDisplayed, isFiltered, DefaultValue(component))]
      ensures old(HoldsDefaults(View())) ==> HoldsDefaults(View())
    {
      var selectable := SelectableColumn(columnId, fieldName, component, meta);
      selectableColumns.columns := selectableColumns.columns[columnId := selectable];
      var column := new UserColumnConfiguration(columnId, sortStatusType, isDisplayed, isFiltered,
                                                DefaultValue(component));
      userColumnConfigurations := userColumnConfigurations[columnId := column];
    }

    // The new object is discarded when a column does not parse, so an exception leaves
    // no trace: neither outcome changes this template, its table or its records.
    method ParseResponse(k: Codec, json: Json, selectedFilterConfiguration: Option<nat>) returns (r: FilterConfig?)
      requires Valid() && NamesItsFields(json)
      ensures r == null <==> Parse(k, old(View()), json).None?
      ensures r != null ==>
                && fresh(r) && r.Valid() && fresh(r.userColumnConfigurations.Values)
                && r.selectableColumns == selectableColumns
                && Parse(k, old(View()), json) == Some(r.View())
                && r.selectedFilterConfiguration == selectedFilterConfiguration
    {
      ghost var view := View();
      var temp := new FilterConfig.CopyOf(this, selectedFilterConfiguration, false);
      assert temp.ColumnsNow() == view.columns && temp.selectableColumns.columns == view.selectable;
      var ok := temp.Unmarshall(k, json);
      if ok {
        r := temp;
      } else {
        r := null;
      }
    }

    method Unmarshall(k: Codec, json: Json) returns (ok: bool)
      requires Valid() && NamesItsFields(json)
      requires currentPage == 0 && selectedRows == None
      modifies this`currentPage, this`selectedRows, userColumnConfigurations.Values
      ensures ok <==> ColumnsParse(k, selectableColumns.columns, old(ColumnsNow()), UserNode(json))
      ensures ok ==> Valid()
      ensures ok ==> ColumnsNow() == ParsedColumns(k, selectableColumns.columns, old(ColumnsNow()), UserNode(json))
      ensures ok ==> currentPage == PageOf(k, json) && selectedRows == RowsOf(json)
    {
      UnmarshallPage(k, json);
      ok := UnmarshallUser(k, json);
      if ok {
        UnmarshallRows(json);
      }
    }

    method UnmarshallUser(k: Codec, json: Json) returns (ok: bool)
      requires Valid() && NamesItsFields(json)
      modifies userColumnConfigurations.Values
      ensures ok <==> ColumnsParse(k, selectableColumns.columns, old(ColumnsNow()), UserNode(json))
      ensures ok ==> Valid()
      ensures ok ==> ColumnsNow() == ParsedColumns(k, selectableColumns.columns, old(ColumnsNow()), UserNode(json))
    {
      var userConfigAsJson := Get(json, "userColumnConfiguration");
      if userConfigAsJson.Some? && userConfigAsJson.value.JObject? {
        ok := UnmarshallColumns(k, userConfigAsJson.value);
      } else {
        ok := true;
        assert ColumnsNow() == ParsedColumns(k, selectableColumns.columns, old(ColumnsNow()), map[]);
      }
    }

    method UnmarshallPage(k: Codec, json: Json)
      requires currentPage == 0
      modifies this`currentPage
      ensures currentPage == PageOf(k, json)
    {
      var currentPageNode := Get(json, "currentPage");
      if currentPageNode.Some? && currentPageNode.value.JNumber? {
        currentPage := ToInt(AsLong(currentPageNode.value, k.longOf));
      }
    }

    method UnmarshallRows(json: Json)
      requires selectedRows == None
      modifies this`selectedRows
      ensures selectedRows == RowsOf(json)
    {
      var rows := Get(json, "selectedRows");
      if rows.Some? && rows.value.JArray? {
        selectedRows := Some(Texts(rows.value.elements));
      }
    }

    method UnmarshallColumns(k: Codec, user: Json) returns (ok: bool)
      requires Valid() && user.JObject? && forall id :: id in user.names <==> id in user.fields
      modifies userColumnConfigurations.Values
      ensures ok <==> ColumnsParse(k, selectableColumns.columns, old(ColumnsNow()), user.fields)
      ensures ok ==>
                Valid() && ColumnsNow() == ParsedColumns(k, selectableColumns.columns, old(ColumnsNow()), user.fields)
    {
      ghost var selectable, before := selectableColumns.columns, ColumnsNow();
      var i := 0;
      while i < |user.names|
        invariant i <= |user.names| && Valid()
        invariant ReadSoFar(k, selectable, before, user.fields, user.names[..i], ColumnsNow())
      {
        var columnId := user.names[i];
        assert user.names[..i + 1] == user.names[..i] + [columnId];
        ReadsOneMore(k, selectable, before, user.fields, user.names[..i], ColumnsNow(), columnId);
        if columnId in userColumnConfigurations {
          ok := UnmarshallColumn(k, columnId, user.fields[columnId]);
          if !ok {
            return false;
          }
        }
        i := i + 1;
      }
      ReadsAll(k, selectable, before, user.fields, user.names, i, ColumnsNow());
      ok := true;
    }

    method UnmarshallColumn(k: Codec, columnId: string, json: Json) returns (ok: bool)
      requires Valid() && columnId in userColumnConfigurations
      modifies userColumnConfigurations.Values
      ensures var parsed := ParseColumn(k, selectableColumns.columns[columnId].component, json);
              && (ok <==> parsed.Some?)
              && (ok ==> ColumnsNow() == old(ColumnsNow())[columnId := parsed.value])
    {
      ok := userColumnConfigurations[columnId].Unmarshall(k, selectableColumns.columns[columnId].component, json);
    }

    // ---------- Printing ----------

    // None is the exception of a value that cannot be printed.
    method Marshall(k: Codec) returns (r: Option<Json>)
      requires Valid()
      ensures r.None? <==> !Printable(k, View())
      ensures r.Some? ==> IsMarshalled(k, View(), r.value)
    {
      var meta := MarshallTable();
      var user := MarshallUserColumns(k);
      if user.None? {
        ghost var id :| id in userColumnConfigurations && Printed(k, id).None?;
        assert MarshallColumn(k, View().selectable[id].component, View().columns[id]).None?;
        return None;
      }
      var rows := TextArray(if selectedRows.Some? then selectedRows.value else []);
      FieldsArePrinted(k, View(), user.value.fields);
      DocumentIsMarshalled(k, View(), meta, user.value);
      r := Some(Document(meta, user.value, currentPage, rows));
    }

    method MarshallTable() returns (json: Json)
      ensures json.JObject? && Lists(json.names, selectableColumns.columns.Keys)
      ensures json.fields == map id | id in selectableColumns.columns :: selectableColumns.columns[id].meta
    {
      var names, fields, left := [], map[], selectableColumns.columns.Keys;
      while left != {}
        invariant left <= selectableColumns.columns.Keys
        invariant Lists(names, selectableColumns.columns.Keys - left)
        invariant fields == map id | id in selectableColumns.columns.Keys - left :: selectableColumns.columns[id].meta
      {
        var id :| id in left;
        names, fields, left := names + [id], fields[id := selectableColumns.columns[id].meta], left - {id};
      }
      json := JObject(names, fields);
    }

    method MarshallUserColumns(k: Codec) returns (r: Option<Json>)
      requires Valid()
      ensures r.None? ==> exists id :: id in userColumnConfigurations && Printed(k, id).None?
      ensures r.Some? ==>
                && r.value.JObject? && Lists(r.value.names, userColumnConfigurations.Keys)
                && r.value.fields.Keys == userColumnConfigurations.Keys
                && forall id :: id in userColumnConfigurations ==> Printed(k, id) == Some(r.value.fields[id])
    {
      var names, fields, left := [], map[], userColumnConfigurations.Keys;
      while left != {}
        invariant left <= userColumnConfigurations.Keys
        invariant Lists(names, userColumnConfigurations.Keys - left)
        invariant fields.Keys == userColumnConfigurations.Keys - left
        invariant forall id :: id in fields ==> Printed(k, id) == Some(fields[id])
      {
        var id :| id in left;
        var column := userColumnConfigurations[id].Marshall(k, selectableColumns.columns[id].component);
        if column.None? {
          return None;
        }
        names, fields, left := names + [id], fields[id := column.value], left - {id};
      }
      r := Some(JObject(names, fields));
    }

    ghost function Printed(k: Codec, id: string): Option<Json>
      requires id in userColumnConfigurations && id in selectableColumns.columns
      reads this`selectableColumns, this`userColumnConfigurations, selectableColumns, userColumnConfigurations.Values
    {
      MarshallColumn(k, selectableColumns.columns[id].component, userColumnConfigurations[id].AsColumn())
    }

    // ---------- Searching and sorting ----------

    function SlotOf(id: string): Slot
      requires id in userColumnConfigurations && id in selectableColumns.columns
      reads this`selectableColumns, this`userColumnConfigurations, selectableColumns, userColumnConfigurations.Values
    {
      Slot(selectableColumns.columns[id], userColumnConfigurations[id].AsColumn())
    }

    ghost predicate Mirrors(slots: Slots)
      reads this`selectableColumns, this`userColumnConfigurations, selectableColumns, userColumnConfigurations.Values
    {
      && slots.Keys == userColumnConfigurations.Keys <= selectableColumns.columns.Keys
      && (forall id :: id in slots ==> slots[id] == SlotOf(id))
    }

    // The columns as values.
    ghost function SlotsNow(): (r: Slots)
      requires Valid()
      reads this`selectableColumns, this`userColumnConfigurations, selectableColumns, userColumnConfigurations.Values
      ensures Mirrors(r)
    {
      map id | id in userColumnConfigurations :: SlotOf(id)
    }

    // No filtered column holds a value of another kind or a null inside, where the code fails.
    ghost predicate Searchable()
      requires Valid()
      reads this`selectableColumns, this`userColumnConfigurations, selectableColumns, userColumnConfigurations.Values
    {
      Searched(SlotsNow())
    }

    // What every filtered column together lets through.
    ghost predicate Admits(num: NumberOf, row: Row)
      requires Valid()
      reads this`selectableColumns, this`userColumnConfigurations, selectableColumns, userColumnConfigurations.Values
    {
      KeptBy(SlotsNow(), SlotsNow().Keys, num, row)
    }

    // The columns come in the order of a hash map, that is in any order.
    method UpdateWithSearchExpression(expression: ExpressionList)
      requires Valid() && Searchable()
      modifies expression`exprs
      ensures old(expression.exprs) <= expression.exprs
      ensures forall num: NumberOf, row: Row ::
                HoldsAll(num, row, expression.exprs[|old(expression.exprs)|..]) <==> old(Admits(num, row))
    {
      UpdateForEach(expression, SlotsNow(), |expression.exprs|);
    }

    method UpdateForEach(expression: ExpressionList, ghost slots: Slots, ghost n: nat)
      requires Mirrors(slots) && Searched(slots) && n == |expression.exprs|
      modifies expression`exprs
      ensures old(expression.exprs) <= expression.exprs && Selects(slots, slots.Keys, expression.exprs[n..])
    {
      var left := userColumnConfigurations.Keys;
      ghost var done := {};
      while left != {}
        invariant left !! done && left + done == slots.Keys
        invariant old(expression.exprs) <= expression.exprs && Selects(slots, done, expression.exprs[n..])
      {
        var id :| id in left;
        SelectsOneMore(slots, done, expression.exprs[n..], id);
        AddSearchExpression(expression, id, slots[id], n);
        left, done := left - {id}, done + {id};
      }
    }

    method AddSearchExpression(expression: ExpressionList, id: string, ghost slot: Slot, ghost n: nat)
      requires id in userColumnConfigurations && id in selectableColumns.columns && slot == SlotOf(id)
      requires n <= |expression.exprs|
      requires slot.column.filtered ==> Castable(slot.selectable.component, slot.column.value)
      modifies expression`exprs
      ensures old(expression.exprs) <= expression.exprs
      ensures expression.exprs[n..] == old(expression.exprs)[n..] + OptionalSeq(slot.Expression())
    {
      if userColumnConfigurations[id].isFiltered {
        var column := selectableColumns.columns[id];
        var temp := Compile(column.component, userColumnConfigurations[id].filterValue, column.fieldName);
        if temp.Some? {
          expression.Add(temp.value);
        }
      }
    }

    // The conjunction of the columns' expressions; none if no column gives one.
    method GetSearchExpression() returns (r: Option<Expr>)
      requires Valid() && Searchable()
      ensures forall num: NumberOf, row: Row :: Keeps(num, row, r) <==> Admits(num, row)
    {
      var left := userColumnConfigurations.Keys;
      ghost var slots, done := SlotsNow(), {};
      r := None;
      while left != {}
        invariant left !! done && left + done == slots.Keys
        invariant SelectsBy(slots, done, r)
      {
        var id :| id in left;
        ghost var before := r;
        if userColumnConfigurations[id].isFiltered {
          var column := selectableColumns.columns[id];
          var temp := Compile(column.component, userColumnConfigurations[id].filterValue, column.fieldName);
          if r.None? {
            r := temp;
          } else if temp.Some? {
            r := Some(And(r.value, temp.value));
          }
        }
        SelectsByOneMore(slots, done, before, r, id);
        left, done := left - {id}, done + {id};
      }
    }

    // When every filtered column is faithful, the rows kept are those its users mean.
    lemma AdmitsWhatIsMeant(num: NumberOf, row: Row)
      requires Valid() && Searchable()
      requires forall id :: id in SlotsNow() && SlotsNow()[id].column.filtered ==>
                 Faithful(SlotsNow()[id].selectable.component, SlotsNow()[id].column.value)
      ensures Admits(num, row) <==>
              forall id :: id in SlotsNow() && SlotsNow()[id].column.filtered ==> SlotsNow()[id].Means(num, row)
    {
      var slots := SlotsNow();
      forall id | id in slots && slots[id].column.filtered
        ensures Keeps(num, row, slots[id].Expression()) <==> slots[id].Means(num, row)
      {
        var selectable := slots[id].selectable;
        CompiledMeansMeant(num, selectable.component, slots[id].column.value, selectable.fieldName, row);
      }
    }

    // Each sorting column adds its terms, in the order of a hash map.
    method UpdateWithSortExpression(expression: ExpressionList) returns (ghost ids: seq<string>)
      requires Valid()
      modifies expression`orderTerms
      ensures SortsInOrder(old(SlotsNow()), old(SlotsNow()).Keys, ids, expression.orderTerms,
                           old(expression.orderTerms))
    {
      var left := userColumnConfigurations.Keys;
      ghost var slots, done := SlotsNow(), {};
      ids := [];
      while left != {}
        invariant left !! done && left + done == slots.Keys
        invariant SortsInOrder(slots, done, ids, expression.orderTerms, old(expression.orderTerms))
      {
        var id :| id in left;
        SortsOneMore(slots, done, ids, expression.orderTerms, old(expression.orderTerms), id);
        AddSortExpression(expression, SortTerms(selectableColumns.columns[id].component,
                                                userColumnConfigurations[id].sortStatusType,
                                                selectableColumns.columns[id].fieldName));
        ids := WithSorting(slots, ids, id);
        left, done := left - {id}, done + {id};
      }
    }

    method SetCurrentPage(page: Int32)
      modifies this`currentPage
      ensures currentPage == page
    {
      currentPage := page;
    }
  }
}
