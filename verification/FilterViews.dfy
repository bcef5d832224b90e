/** A filter configuration as a value, with its printed form and the parser that reads it back. */
module FilterViews {
  import opened Wrappers
  import opened Json
  import opened FilterComponents

  datatype SortStatus = ASC | DESC | UNSORTED | NONE

  // `meta` is the printed static description of the column; it is never read back.
  datatype SelectableColumn = SelectableColumn(columnId: string, fieldName: string, component: Component, meta: Json)

  datatype Column = Column(sort: SortStatus, displayed: bool, filtered: bool, value: Value)

  datatype Config = Config(selectable: map<string, SelectableColumn>, columns: map<string, Column>,
                           currentPage: Int32, selectedRows: Option<seq<string>>)

  ghost predicate Complete(c: Config) {
    c.columns.Keys <= c.selectable.Keys
  }

  ghost predicate WellTypedConfig(c: Config)
    requires Complete(c)
  {
    forall id :: id in c.columns ==> WellTyped(c.selectable[id].component, c.columns[id].value)
  }

  function SortName(s: SortStatus): string {
    match s
    case ASC => "ASC"
    case DESC => "DESC"
    case UNSORTED => "UNSORTED"
    case NONE => "NONE"
  }

  function SortOf(name: string): Option<SortStatus> {
    if name == "ASC" then Some(ASC)
    else if name == "DESC" then Some(DESC)
    else if name == "UNSORTED" then Some(UNSORTED)
    else if name == "NONE" then Some(NONE)
    else None
  }

  // ---------- One column ----------

  function ColumnFields(k: Codec, c: Component, col: Column): map<string, Json> {
    map["sortType" := JText(SortName(col.sort)), "isDisplayed" := JBool(col.displayed),
        "isFiltered" := JBool(col.filtered), "isKpi" := JBool(c.IsKpi())]
    + match MarshallFilterValue(k, c, col.value)
      case Field(json) => map["filterValue" := json]
      case _ => map[]
  }

  function ColumnNames(k: Codec, c: Component, col: Column): seq<string> {
    ["sortType", "isDisplayed", "isFiltered", "isKpi"]
    + if MarshallFilterValue(k, c, col.value).Field? then ["filterValue"] else []
  }

  // None stands for the exception of a value that cannot be printed.
  function MarshallColumn(k: Codec, c: Component, col: Column): Option<Json> {
    if MarshallFilterValue(k, c, col.value).Thrown? then None
    else Some(JObject(ColumnNames(k, c, col), ColumnFields(k, c, col)))
  }

  function ParseColumn(k: Codec, c: Component, json: Json): Option<Column> {
    if Get(json, "isDisplayed").None? || Get(json, "isFiltered").None? || Get(json, "sortType").None? then None
    else
      var sort := SortOf(AsText(Get(json, "sortType").value));
      var value := GetFilterValueFromJson(k, c, Get(json, "filterValue"));
      if sort.None? || value.None? then None
      else Some(Column(sort.value, AsBoolean(Get(json, "isDisplayed").value),
                       AsBoolean(Get(json, "isFiltered").value), value.value))
  }

  lemma PrintedParts(k: Codec, c: Component, col: Column)
    ensures var json := JObject(ColumnNames(k, c, col), ColumnFields(k, c, col));
            && Get(json, "filterValue") == FieldOf(MarshallFilterValue(k, c, col.value))
            && Get(json, "sortType") == Some(JText(SortName(col.sort)))
            && Get(json, "isDisplayed") == Some(JBool(col.displayed))
            && Get(json, "isFiltered") == Some(JBool(col.filtered))
  {
    assert ColumnFields(k, c, col).Keys ==
           {"sortType", "isDisplayed", "isFiltered", "isKpi"}
           + if MarshallFilterValue(k, c, col.value).Field? then {"filterValue"} else {};
  }

  // A printed column lists each of its fields once.
  lemma PrintedNames(k: Codec, c: Component, col: Column)
    requires MarshallColumn(k, c, col).Some?
    ensures MarshallColumn(k, c, col).value.JObject?
    ensures Lists(MarshallColumn(k, c, col).value.names, MarshallColumn(k, c, col).value.fields.Keys)
  {
    var names := ColumnNames(k, c, col);
    assert names[0] == "sortType" && names[1] == "isDisplayed" && names[2] == "isFiltered" && names[3] == "isKpi";
    assert |names| == 5 ==> names[4] == "filterValue";
  }

  // The fields and names that the page and older stored documents know a column by.
  lemma PrintedColumnFormat(k: Codec, c: Component, col: Column)
    requires MarshallColumn(k, c, col).Some?
    ensures var json := MarshallColumn(k, c, col).value;
            && Get(json, "isDisplayed") == Some(JBool(col.displayed))
            && Get(json, "isFiltered") == Some(JBool(col.filtered))
            && (col.sort == ASC ==> Get(json, "sortType") == Some(JText("ASC")))
            && (col.sort == DESC ==> Get(json, "sortType") == Some(JText("DESC")))
            && (col.sort == UNSORTED ==> Get(json, "sortType") == Some(JText("UNSORTED")))
            && (col.sort == NONE ==> Get(json, "sortType") == Some(JText("NONE")))
            && Get(json, "filterValue") == FieldOf(MarshallFilterValue(k, c, col.value))
            && (c.NoFilter? ==> Get(json, "isKpi") == Some(JBool(c.kpi)))
            && (!c.NoFilter? && !c.NoDb? && !c.PostQuery? ==> Get(json, "isKpi") == Some(JBool(false)))
  {
    PrintedParts(k, c, col);
  }

  // A printed column reads back as itself, up to its normalised value, if and only if its value does.
  lemma ColumnRoundTrip(k: Codec, c: Component, col: Column)
    ensures MarshallColumn(k, c, col).None? <==> Unprintable(c, col.value)
    ensures !Unprintable(c, col.value) ==>
              (ParseColumn(k, c, MarshallColumn(k, c, col).value) == Some(col.(value := Normal(c, col.value)))
               <==> ReadsBack(k, c, col.value))
  {
    ValueRoundTrip(k, c, col.value);
    PrintedParts(k, c, col);
    assert SortOf(SortName(col.sort)) == Some(col.sort);
  }

  lemma ParsedColumnIsWellTyped(k: Codec, c: Component, json: Json)
    ensures ParseColumn(k, c, json).Some? ==> WellTyped(c, ParseColumn(k, c, json).value.value)
  {
    ReadIsWellTyped(k, c, Get(json, "filterValue"));
  }

  // ---------- The whole configuration ----------

  ghost predicate Printable(k: Codec, c: Config)
    requires Complete(c)
  {
    forall id {:trigger MarshallColumn(k, c.selectable[id].component, c.columns[id])} ::
      id in c.columns ==> MarshallColumn(k, c.selectable[id].component, c.columns[id]).Some?
  }

  ghost function UserFields(k: Codec, c: Config): map<string, Json>
    requires Complete(c) && Printable(k, c)
  {
    map id | id in c.columns :: MarshallColumn(k, c.selectable[id].component, c.columns[id]).value
  }

  // No selected rows print as an empty list.
  function RowsShown(c: Config): seq<string> {
    if c.selectedRows.Some? then c.selectedRows.value else []
  }

  // The document has the four parts; the order of its columns is that of a hash map.
  ghost predicate IsMarshalled(k: Codec, c: Config, json: Json)
    requires Complete(c)
  {
    && Printable(k, c)
    && json.JObject?
    && json.names == ["selectableColumns", "userColumnConfiguration", "currentPage", "selectedRows"]
    && json.fields.Keys == {"selectableColumns", "userColumnConfiguration", "currentPage", "selectedRows"}
    && (var meta := json.fields["selectableColumns"];
        && meta.JObject?
        && meta.fields == (map id | id in c.selectable :: c.selectable[id].meta)
        && Lists(meta.names, c.selectable.Keys))
    && (var user := json.fields["userColumnConfiguration"];
        && user.JObject?
        && user.fields == UserFields(k, c)
        && Lists(user.names, c.columns.Keys))
    && json.fields["currentPage"] == JNumber(c.currentPage)
    && json.fields["selectedRows"] == TextArray(RowsShown(c))
  }

  function Document(meta: Json, user: Json, currentPage: Int32, rows: Json): Json {
    JObject(["selectableColumns", "userColumnConfiguration", "currentPage", "selectedRows"],
            map["selectableColumns" := meta, "userColumnConfiguration" := user,
                "currentPage" := JNumber(currentPage), "selectedRows" := rows])
  }

  lemma FieldsArePrinted(k: Codec, c: Config, fields: map<string, Json>)
    requires Complete(c) && fields.Keys == c.columns.Keys
    requires forall id :: id in c.columns ==>
               MarshallColumn(k, c.selectable[id].component, c.columns[id]) == Some(fields[id])
    ensures Printable(k, c) && fields == UserFields(k, c)
  {
  }

  lemma DocumentIsMarshalled(k: Codec, c: Config, meta: Json, user: Json)
    requires Complete(c) && meta.JObject? && user.JObject?
    requires meta.fields == map id | id in c.selectable :: c.selectable[id].meta
    requires Lists(meta.names, c.selectable.Keys)
    requires Printable(k, c) && user.fields == UserFields(k, c) && Lists(user.names, c.columns.Keys)
    ensures IsMarshalled(k, c, Document(meta, user, c.currentPage, TextArray(RowsShown(c))))
  {
    var json := Document(meta, user, c.currentPage, TextArray(RowsShown(c)));
    assert json.fields["selectableColumns"] == meta && json.fields["userColumnConfiguration"] == user;
  }

  // Every element once.
  ghost predicate Lists(s: seq<string>, all: set<string>) {
    && (forall x :: x in s <==> x in all)
    && (forall i, j :: 0 <= i < j < |s| ==> s[i] != s[j])
  }

  // The columns that the document lists are the ones it has.
  ghost predicate NamesItsFields(json: Json) {
    match Get(json, "userColumnConfiguration")
    case Some(node) => node.JObject? ==> forall id :: id in node.names <==> id in node.fields
    case None => true
  }

  ghost function UserNode(json: Json): map<string, Json> {
    match Get(json, "userColumnConfiguration")
    case Some(node) => if node.JObject? then node.fields else map[]
    case None => map[]
  }

  function PageOf(k: Codec, json: Json): Int32 {
    match Get(json, "currentPage")
    case Some(node) => if node.JNumber? then ToInt(AsLong(node, k.longOf)) else 0
    case None => 0
  }

  function RowsOf(json: Json): Option<seq<string>> {
    match Get(json, "selectedRows")
    case Some(node) => if node.JArray? then Some(Texts(node.elements)) else None
    case None => None
  }

  type Table = map<string, SelectableColumn>
  type Columns = map<string, Column>

  ghost predicate ColumnsParse(k: Codec, selectable: Table, columns: Columns, fields: map<string, Json>)
    requires columns.Keys <= selectable.Keys
  {
    forall id {:trigger ParseColumn(k, selectable[id].component, fields[id])} ::
      id in columns && id in fields ==> ParseColumn(k, selectable[id].component, fields[id]).Some?
  }

  ghost function ParsedColumns(k: Codec, selectable: Table, columns: Columns, fields: map<string, Json>): Columns
    requires columns.Keys <= selectable.Keys && ColumnsParse(k, selectable, columns, fields)
  {
    map id | id in columns ::
      if id in fields then ParseColumn(k, selectable[id].component, fields[id]).value else columns[id]
  }

  // A copy of the template takes each column that the document has and ignores columns
  // it does not know; a column that does not parse makes the whole document unusable.
  ghost function Parse(k: Codec, template: Config, json: Json): (r: Option<Config>)
    requires Complete(template)
    ensures r.Some? ==> r.value.selectable == template.selectable && r.value.columns.Keys == template.columns.Keys
  {
    if !ColumnsParse(k, template.selectable, template.columns, UserNode(json)) then None
    else Some(Config(template.selectable, ParsedColumns(k, template.selectable, template.columns, UserNode(json)),
                     PageOf(k, json), RowsOf(json)))
  }

  ghost function Normalised(c: Config): Config
    requires Complete(c)
  {
    Config(c.selectable,
           map id | id in c.columns :: c.columns[id].(value := Normal(c.selectable[id].component, c.columns[id].value)),
           c.currentPage, Some(RowsShown(c)))
  }

  lemma LongIsKept(n: Int32)
    ensures ToInt(ToLong(n)) == n
  {
  }

  // A configuration can be printed unless one of its values cannot.
  lemma PrintableIff(k: Codec, c: Config)
    requires Complete(c)
    ensures Printable(k, c) <==>
            forall id :: id in c.columns ==> !Unprintable(c.selectable[id].component, c.columns[id].value)
  {
    forall id | id in c.columns
      ensures MarshallColumn(k, c.selectable[id].component, c.columns[id]).Some? <==>
              !Unprintable(c.selectable[id].component, c.columns[id].value)
    {
      ColumnRoundTrip(k, c.selectable[id].component, c.columns[id]);
    }
  }

  // ---------- Templates ----------

  // A configuration that was only given columns: each has the default of its component.
  ghost predicate HoldsDefaults(c: Config)
    requires Complete(c)
  {
    forall id :: id in c.columns ==> c.columns[id].value == DefaultValue(c.selectable[id].component)
  }

  lemma {:induction false} DefaultPrintsIff(c: Component)
    ensures Unprintable(c, DefaultValue(c)) <==> HasNullDate(c)
  {
    match c
    case NoDb(w) => DefaultPrintsIff(w);
    case PostQuery(w) => DefaultPrintsIff(w);
    case _ =>
  }

  // Such a configuration prints unless a date range has a null date, and its own text can
  // be read if and only if its printed dates can.
  lemma TemplatePrintsIff(k: Codec, c: Config)
    requires Complete(c) && HoldsDefaults(c)
    ensures Printable(k, c) <==> forall id :: id in c.columns ==> !HasNullDate(c.selectable[id].component)
    ensures Printable(k, c) ==>
              (Rereads(k, c) <==>
               forall id :: id in c.columns ==> DatesParse(k, c.selectable[id].component, c.columns[id].value))
  {
    PrintableIff(k, c);
    forall id | id in c.columns
      ensures Unprintable(c.selectable[id].component, c.columns[id].value) <==>
              HasNullDate(c.selectable[id].component)
    {
      DefaultPrintsIff(c.selectable[id].component);
    }
    if Printable(k, c) {
      RereadsIff(k, c);
    }
  }

  lemma ColumnParsesIff(k: Codec, c: Component, col: Column)
    requires MarshallColumn(k, c, col).Some?
    ensures ParseColumn(k, c, MarshallColumn(k, c, col).value).Some? <==> DatesParse(k, c, col.value)
  {
    ColumnRoundTrip(k, c, col);
    ValueParsesIff(k, c, col.value);
    PrintedParts(k, c, col);
    assert SortOf(SortName(col.sort)) == Some(col.sort);
  }

  // The only texts that a configuration prints and may fail to read are dates.
  lemma RereadsIff(k: Codec, c: Config)
    requires Complete(c) && Printable(k, c)
    ensures Rereads(k, c) <==>
            forall id :: id in c.columns ==> DatesParse(k, c.selectable[id].component, c.columns[id].value)
  {
    forall id | id in c.columns
      ensures ParseColumn(k, c.selectable[id].component, UserFields(k, c)[id]).Some? <==>
              DatesParse(k, c.selectable[id].component, c.columns[id].value)
    {
      assert MarshallColumn(k, c.selectable[id].component, c.columns[id]).Some?;
      ColumnParsesIff(k, c.selectable[id].component, c.columns[id]);
    }
  }

  // ---------- Round trips ----------

  // All values of the configuration read back.
  ghost predicate AllReadBack(k: Codec, c: Config)
    requires Complete(c)
  {
    forall id :: id in c.columns ==> ReadsBack(k, c.selectable[id].component, c.columns[id].value)
  }

  // The texts that the configuration prints can at least be read.
  ghost predicate Rereads(k: Codec, c: Config)
    requires Complete(c) && Printable(k, c)
  {
    ColumnsParse(k, c.selectable, c.columns, UserFields(k, c))
  }

  // What reading its own text makes of a configuration.
  ghost function Reread(k: Codec, c: Config): (r: Config)
    requires Complete(c) && Printable(k, c) && Rereads(k, c)
    ensures Complete(r)
  {
    Config(c.selectable, ParsedColumns(k, c.selectable, c.columns, UserFields(k, c)), c.currentPage,
           Some(RowsShown(c)))
  }

  lemma PrintedRestRoundTrip(k: Codec, c: Config, json: Json)
    requires Complete(c) && IsMarshalled(k, c, json)
    ensures PageOf(k, json) == c.currentPage
    ensures RowsOf(json) == Some(RowsShown(c))
    ensures UserNode(json) == UserFields(k, c)
  {
    LongIsKept(c.currentPage);
    TextArrayRoundTrip(RowsShown(c));
  }

  // Whatever order its parts were printed in, a document reads as the same configuration,
  // against any template with the same columns.
  lemma PrintedParses(k: Codec, c: Config, json: Json, template: Config)
    requires Complete(c) && IsMarshalled(k, c, json)
    requires template.selectable == c.selectable && template.columns.Keys == c.columns.Keys
    ensures Parse(k, template, json) == if Rereads(k, c) then Some(Reread(k, c)) else None
  {
    PrintedRestRoundTrip(k, c, json);
    SameColumns(k, c.selectable, template.columns, c.columns, UserFields(k, c));
  }

  // Where the document has all columns, it does not matter what the template held.
  lemma SameColumns(k: Codec, selectable: Table, columns: Columns, columns': Columns, fields: map<string, Json>)
    requires columns.Keys == columns'.Keys == fields.Keys <= selectable.Keys
    ensures ColumnsParse(k, selectable, columns, fields) <==> ColumnsParse(k, selectable, columns', fields)
    ensures ColumnsParse(k, selectable, columns, fields) ==>
              ParsedColumns(k, selectable, columns, fields) == ParsedColumns(k, selectable, columns', fields)
  {
  }

  ghost predicate ParsesTo(k: Codec, selectable: Table, fields: map<string, Json>, r: Columns)
    requires r.Keys == fields.Keys <= selectable.Keys
  {
    forall id :: id in r ==> ParseColumn(k, selectable[id].component, fields[id]) == Some(r[id])
  }

  lemma ParsedColumnsAre(k: Codec, selectable: Table, columns: Columns, fields: map<string, Json>, r: Columns)
    requires r.Keys == columns.Keys == fields.Keys <= selectable.Keys
    ensures ColumnsParse(k, selectable, columns, fields) && ParsedColumns(k, selectable, columns, fields) == r
            <==> ParsesTo(k, selectable, fields, r)
  {
    if ColumnsParse(k, selectable, columns, fields) && ParsedColumns(k, selectable, columns, fields) == r {
      forall id | id in r
        ensures ParseColumn(k, selectable[id].component, fields[id]) == Some(r[id])
      {
        assert ParsedColumns(k, selectable, columns, fields)[id] == r[id];
      }
    }
  }

  lemma PrintedColumnsIff(k: Codec, c: Config)
    requires Complete(c) && Printable(k, c)
    ensures ParsesTo(k, c.selectable, UserFields(k, c), Normalised(c).columns) <==> AllReadBack(k, c)
  {
    forall id | id in c.columns
      ensures ParseColumn(k, c.selectable[id].component, UserFields(k, c)[id]) == Some(Normalised(c).columns[id])
              <==> ReadsBack(k, c.selectable[id].component, c.columns[id].value)
    {
      ColumnRoundTrip(k, c.selectable[id].component, c.columns[id]);
    }
  }

  lemma RereadIff(k: Codec, c: Config)
    requires Complete(c) && Printable(k, c)
    ensures Rereads(k, c) && Reread(k, c) == Normalised(c) <==> AllReadBack(k, c)
  {
    PrintedColumnsIff(k, c);
    ParsedColumnsAre(k, c.selectable, c.columns, UserFields(k, c), Normalised(c).columns);
  }

  // Whatever a configuration prints reads back, against any template with the same
  // columns, as the configuration itself, with defaults for values of the wrong kind and
  // with an empty list where no rows were selected: if and only if all its values do.
  lemma ConfigRoundTrip(k: Codec, c: Config, json: Json, template: Config)
    requires Complete(c) && IsMarshalled(k, c, json)
    requires template.selectable == c.selectable && template.columns.Keys == c.columns.Keys
    ensures Parse(k, template, json) == Some(Normalised(c)) <==> AllReadBack(k, c)
  {
    PrintedParses(k, c, json, template);
    RereadIff(k, c);
  }

  lemma NormalisedIsItself(c: Config)
    requires Complete(c) && WellTypedConfig(c)
    ensures Normalised(c).columns == c.columns
  {
    forall id | id in c.columns
      ensures Normalised(c).columns[id] == c.columns[id]
    {
      assert WellTyped(c.selectable[id].component, c.columns[id].value);
    }
  }

  // For well-typed values that read back nothing is lost at all.
  lemma WellTypedRoundTrip(k: Codec, c: Config, json: Json, template: Config)
    requires Complete(c) && WellTypedConfig(c) && IsMarshalled(k, c, json)
    requires template.selectable == c.selectable && template.columns.Keys == c.columns.Keys
    ensures Parse(k, template, json) == Some(c.(selectedRows := Some(RowsShown(c))))
            <==> AllReadBack(k, c)
  {
    ConfigRoundTrip(k, c, json, template);
    NormalisedIsItself(c);
  }

  // Reading never yields a value of the wrong kind.
  lemma ParsedIsWellTyped(k: Codec, template: Config, json: Json)
    requires Complete(template) && WellTypedConfig(template)
    ensures Parse(k, template, json).Some? ==> WellTypedConfig(Parse(k, template, json).value)
  {
    if Parse(k, template, json).Some? {
      forall id | id in template.columns && id in UserNode(json)
        ensures WellTyped(template.selectable[id].component, Parse(k, template, json).value.columns[id].value)
      {
        ParsedColumnIsWellTyped(k, template.selectable[id].component, UserNode(json)[id]);
      }
    }
  }
}
