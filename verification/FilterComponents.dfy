/** The filter components: how each prints its filter value as JSON and reads it back. */
module FilterComponents {
  import opened Wrappers
  import opened Json

  // The library conversions that the components rely on, and the current time.
  datatype Codec = Codec(format: int -> string, parse: string -> Option<int>, longOf: string -> Long, now: int)

  datatype Component =
    | Checkbox(checked: bool)
    | TextField(text: Option<string>)
    | NumericField(value: Option<string>, comparator: Option<string>)
    | DateRange(from: Option<int>, to: Option<int>)
    | Select(selected: seq<string>, fieldsSort: Option<seq<string>>)
    | Autocomplete(fieldsSort: Option<seq<string>>)
    | NoFilter(kpi: bool)
    | NoDb(wrapped: Component)
    | PostQuery(wrapped: Component)
  {
    predicate IsKpi() {
      match this
      case NoFilter(kpi) => kpi
      case NoDb(w) => w.IsKpi()
      case PostQuery(w) => w.IsKpi()
      case _ => false
    }
  }

  // The runtime kinds of a filter value: Boolean, String, String[], Date[], List and Object[].
  datatype Value =
    | VNull
    | VBool(b: bool)
    | VText(s: string)
    | VNumeric(value: Option<string>, comparator: Option<string>)
    | VDates(from: Option<int>, to: Option<int>)
    | VList(items: seq<string>)
    | VChoice(id: Option<Long>, content: Option<string>)

  function DefaultValue(c: Component): Value {
    match c
    case Checkbox(b) => VBool(b)
    case TextField(text) => if text.Some? then VText(text.value) else VNull
    case NumericField(v, cmp) => VNumeric(v, cmp)
    case DateRange(from, to) => VDates(from, to)
    case Select(items, _) => VList(items)
    case Autocomplete(_) => VChoice(Some(0), Some(""))
    case NoFilter(_) => VNull
    case NoDb(w) => DefaultValue(w)
    case PostQuery(w) => DefaultValue(w)
  }

  predicate WellTyped(c: Component, v: Value) {
    match c
    case Checkbox(_) => v.VBool?
    case TextField(_) => v.VText?
    case NumericField(_, _) => v.VNumeric?
    case DateRange(_, _) => v.VDates?
    case Select(_, _) => v.VList?
    case Autocomplete(_) => v.VChoice?
    case NoFilter(_) => v.VNull?
    case NoDb(w) => WellTyped(w, v)
    case PostQuery(w) => WellTyped(w, v)
  }

  // What printing and reading back is meant to make of a value.
  function Normal(c: Component, v: Value): Value {
    if WellTyped(c, v) then v else DefaultValue(c)
  }

  // A null date cannot be formatted. An autocomplete field takes any array for its own
  // pair, and then fails to cast the elements of a String[] or a Date[].
  predicate Unprintable(c: Component, v: Value) {
    match c
    case DateRange(from, to) => if v.VDates? then v.from.None? || v.to.None? else from.None? || to.None?
    case Autocomplete(_) => v.VNumeric? || v.VDates?
    case NoDb(w) => Unprintable(w, v)
    case PostQuery(w) => Unprintable(w, v)
    case _ => false
  }

  function Pair(name: string, value: Json, name': string, value': Json): Json {
    JObject([name, name'], map[name := value, name' := value'])
  }

  datatype Printed = Nothing | Field(json: Json) | Thrown

  function TextOrNull(text: Option<string>): Json {
    if text.Some? then JText(text.value) else JNull
  }

  function MarshallDates(k: Codec, from: Option<int>, to: Option<int>): Printed {
    if from.None? || to.None? then Thrown
    else Field(Pair("from", JText(k.format(from.value)), "to", JText(k.format(to.value))))
  }

  function MarshallFilterValue(k: Codec, c: Component, v: Value): Printed {
    match c
    case Checkbox(b) => Field(JBool(if v.VBool? then v.b else b))
    case TextField(text) => Field(if v.VText? then JText(v.s) else TextOrNull(text))
    case NumericField(value, comparator) =>
      if v.VNumeric? then Field(Pair("value", TextOrNull(v.value), "comparator", TextOrNull(v.comparator)))
      else Field(Pair("value", TextOrNull(value), "comparator", TextOrNull(comparator)))
    case DateRange(from, to) =>
      if v.VDates? then MarshallDates(k, v.from, v.to) else MarshallDates(k, from, to)
    case Select(selected, _) => Field(TextArray(if v.VList? then v.items else selected))
    case Autocomplete(_) =>
      if v.VChoice?
      then Field(Pair("value", if v.id.Some? then JNumber(v.id.value) else JNull, "content", TextOrNull(v.content)))
      else if v.VNumeric? || v.VDates? then Thrown
      else Field(Pair("value", JNumber(0), "content", JText("")))
    case NoFilter(_) => Nothing
    case NoDb(w) => MarshallFilterValue(k, w, v)
    case PostQuery(w) => MarshallFilterValue(k, w, v)
  }

  // A date text of "null" stands for the current time.
  function DateFromText(k: Codec, s: string): Option<int> {
    if s == "null" then Some(k.now) else k.parse(s)
  }

  // None is an exception: a null node is dereferenced or a date does not parse.
  function GetFilterValueFromJson(k: Codec, c: Component, json: Option<Json>): Option<Value> {
    match c
    case Checkbox(_) => if json.None? then None else Some(VBool(AsBoolean(json.value)))
    case TextField(_) => if json.None? then None else Some(VText(AsText(json.value)))
    case NumericField(_, _) =>
      if json.None? || Get(json.value, "value").None? || Get(json.value, "comparator").None? then None
      else
        var comparator := AsText(Get(json.value, "comparator").value);
        Some(VNumeric(Some(AsText(Get(json.value, "value").value)), Some(comparator)))
    case DateRange(_, _) =>
      if json.None? || Get(json.value, "from").None? || Get(json.value, "to").None? then None
      else
        var from := DateFromText(k, AsText(Get(json.value, "from").value));
        var to := DateFromText(k, AsText(Get(json.value, "to").value));
        if from.None? || to.None? then None else Some(VDates(from, to))
    case Select(_, _) => if json.None? then None else Some(VList(Texts(Elements(json.value))))
    case Autocomplete(_) =>
      if json.None? || Get(json.value, "value").None? || Get(json.value, "content").None? then None
      else
        var id := AsLong(Get(json.value, "value").value, k.longOf);
        Some(VChoice(Some(id), Some(AsText(Get(json.value, "content").value))))
    case NoFilter(_) => Some(VNull)
    case NoDb(w) => GetFilterValueFromJson(k, w, json)
    case PostQuery(w) => GetFilterValueFromJson(k, w, json)
  }

  function FieldOf(p: Printed): Option<Json> {
    if p.Field? then Some(p.json) else None
  }

  predicate ReadsDate(k: Codec, d: Option<int>) {
    d.Some? ==> DateFromText(k, k.format(d.value)) == d
  }

  // The printed dates read back, and no null is printed: it would come back as a zero or as
  // the text "null".
  predicate ReadsBack(k: Codec, c: Component, v: Value) {
    match c
    case TextField(text) => v.VText? || text.Some?
    case NumericField(value, comparator) =>
      if v.VNumeric? then v.value.Some? && v.comparator.Some? else value.Some? && comparator.Some?
    case Autocomplete(_) => v.VChoice? ==> v.id.Some? && v.content.Some?
    case DateRange(from, to) =>
      if v.VDates? then ReadsDate(k, v.from) && ReadsDate(k, v.to) else ReadsDate(k, from) && ReadsDate(k, to)
    case NoDb(w) => ReadsBack(k, w, v)
    case PostQuery(w) => ReadsBack(k, w, v)
    case _ => true
  }

  lemma {:induction false} ReadIsWellTyped(k: Codec, c: Component, json: Option<Json>)
    ensures var r := GetFilterValueFromJson(k, c, json); r.Some? ==> WellTyped(c, r.value)
  {
    match c
    case NoDb(w) => ReadIsWellTyped(k, w, json);
    case PostQuery(w) => ReadIsWellTyped(k, w, json);
    case _ =>
  }

  // When printing fails. What is printed reads back as the value itself, or
  // as the component's default when the value has the wrong kind, if and only if the
  // printed dates and nulls allow it.
  lemma {:induction false} ValueRoundTrip(k: Codec, c: Component, v: Value)
    ensures MarshallFilterValue(k, c, v).Thrown? <==> Unprintable(c, v)
    ensures !Unprintable(c, v) ==>
              (GetFilterValueFromJson(k, c, FieldOf(MarshallFilterValue(k, c, v))) == Some(Normal(c, v))
               <==> ReadsBack(k, c, v))
  {
    match c
    case Select(selected, _) =>
      TextArrayRoundTrip(if v.VList? then v.items else selected);
    case NoDb(w) => ValueRoundTrip(k, w, v);
    case PostQuery(w) => ValueRoundTrip(k, w, v);
    case _ =>
  }

  // What is printed can at least be read if and only if its dates can.
  predicate DatesParse(k: Codec, c: Component, v: Value) {
    match c
    case DateRange(from, to) =>
      if v.VDates? then DateParses(k, v.from) && DateParses(k, v.to) else DateParses(k, from) && DateParses(k, to)
    case NoDb(w) => DatesParse(k, w, v)
    case PostQuery(w) => DatesParse(k, w, v)
    case _ => true
  }

  predicate DateParses(k: Codec, d: Option<int>) {
    d.Some? ==> DateFromText(k, k.format(d.value)).Some?
  }

  lemma {:induction false} ValueParsesIff(k: Codec, c: Component, v: Value)
    requires !Unprintable(c, v)
    ensures GetFilterValueFromJson(k, c, FieldOf(MarshallFilterValue(k, c, v))).Some? <==> DatesParse(k, c, v)
  {
    match c
    case NoDb(w) => ValueParsesIff(k, w, v);
    case PostQuery(w) => ValueParsesIff(k, w, v);
    case _ =>
  }

  predicate HasNullDate(c: Component) {
    match c
    case DateRange(from, to) => from.None? || to.None?
    case NoDb(w) => HasNullDate(w)
    case PostQuery(w) => HasNullDate(w)
    case _ => false
  }

  // The fields that the page and older stored documents know these values by.
  lemma PrintedValueFormat(k: Codec, c: Component, v: Value)
    requires WellTyped(c, v) && !Unprintable(c, v) && !c.NoDb? && !c.PostQuery?
    ensures var printed := MarshallFilterValue(k, c, v);
            match v
            case VNull => printed == Nothing
            case VBool(b) => printed == Field(JBool(b))
            case VText(s) => printed == Field(JText(s))
            case VList(items) =>
              printed.Field? && printed.json.JArray? && |printed.json.elements| == |items| &&
              forall i :: 0 <= i < |items| ==> printed.json.elements[i] == JText(items[i])
            case VDates(from, to) =>
              && printed.Field? && Get(printed.json, "from") == Some(JText(k.format(from.value)))
              && Get(printed.json, "to") == Some(JText(k.format(to.value)))
            case VNumeric(value, comparator) =>
              && printed.Field?
              && (value.Some? ==> Get(printed.json, "value") == Some(JText(value.value)))
              && (comparator.Some? ==> Get(printed.json, "comparator") == Some(JText(comparator.value)))
            case VChoice(id, content) =>
              && printed.Field?
              && (id.Some? ==> Get(printed.json, "value") == Some(JNumber(id.value)))
              && (content.Some? ==> Get(printed.json, "content") == Some(JText(content.value)))
  {
  }

  // A date whose text is "null" reads as the current time, under either field.
  lemma NullDatesReadAsNow(k: Codec, c: Component, json: Json, text: string, date: int)
    requires c.DateRange? && json.JObject? && {"from", "to"} <= json.fields.Keys
    requires text != "null" && k.parse(text) == Some(date)
    ensures json.fields["from"] == JText("null") && json.fields["to"] == JText(text) ==>
              GetFilterValueFromJson(k, c, Some(json)) == Some(VDates(Some(k.now), Some(date)))
    ensures json.fields["to"] == JText("null") && json.fields["from"] == JText(text) ==>
              GetFilterValueFromJson(k, c, Some(json)) == Some(VDates(Some(date), Some(k.now)))
  {
  }
}
