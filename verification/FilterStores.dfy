/**
 The stored filters of all users and the steps that the filter actions take on them.
 A user has, for each data type, a default filter that holds what was last seen, and
 named filters of which one may be selected.
 */
module FilterStores {
  import opened Wrappers
  import opened Json
  import opened FilterComponents
  import opened FilterViews

  datatype Record = Record(deleted: bool, principal: string, dataType: string, name: string, configuration: Json,
                           isSelected: bool, isDefault: bool, sharedKey: Option<string>, version: nat)
  {
    predicate Defaults(uid: string, dataType': string) {
      !deleted && principal == uid && dataType == dataType' && isDefault
    }

    predicate Selects(uid: string, dataType': string) {
      !deleted && principal == uid && dataType == dataType' && isSelected
    }
  }

  type Rows = map<nat, Record>

  datatype Store = Store(rows: Rows, next: nat)

  // Whether saving always writes the whole record, or only the fields changed since it was
  // read, and nothing when there are none.
  datatype SavePolicy = WholeRecord | ChangedFields

  // A write counts the version up, and is refused when somebody wrote since the record was
  // read: None is that exception.
  function Saved(policy: SavePolicy, row: Record, read: Record, now: Record): Option<Record> {
    if policy == ChangedFields && now == read then Some(row)
    else if row.version != read.version then None
    else Some(now.(version := row.version + 1))
  }

  // Two objects that read the same record cannot both change it: once the first was saved
  // with a change, the second is refused or writes nothing.
  lemma NoLostUpdate(policy: SavePolicy, row: Record, first: Record, second: Record)
    requires policy == WholeRecord || first != row
    ensures var saved := Saved(policy, row, row, first);
            && saved.Some? && saved.value == first.(version := row.version + 1)
            && Saved(policy, saved.value, row, second) ==
               (if policy == ChangedFields && second == row then Some(saved.value) else None)
  {
  }

  function Put(s: Store, id: nat, r: Record): Store {
    s.(rows := s.rows[id := r])
  }

  // Saving a record that was just read.
  function Update(policy: SavePolicy, s: Store, id: nat, r: Record): Store
    requires id in s.rows
  {
    if policy == ChangedFields && r == s.rows[id] then s else Put(s, id, r.(version := s.rows[id].version + 1))
  }

  function Insert(s: Store, r: Record): Store {
    Store(s.rows[s.next := r], s.next + 1)
  }

  // ---------- Queries that expect one result at most ----------

  datatype Found = Nobody | One(id: nat) | Many

  ghost predicate AtMostOne(ids: set<nat>) {
    forall i, j :: i in ids && j in ids ==> i == j
  }

  ghost function Unique(ids: set<nat>): (r: Found)
    ensures r == Nobody <==> ids == {}
    ensures r.One? ==> ids == {r.id}
    ensures r == Many <==> !AtMostOne(ids)
  {
    if ids == {} then Nobody
    else if AtMostOne(ids) then
      var id :| id in ids;
      assert forall i :: i in ids ==> i == id;
      One(id)
    else Many
  }

  function DefaultIds(rows: Rows, uid: string, dataType: string): set<nat> {
    set id | id in rows && rows[id].Defaults(uid, dataType)
  }

  function SelectedIds(rows: Rows, uid: string, dataType: string): set<nat> {
    set id | id in rows && rows[id].Selects(uid, dataType)
  }

  function SharedIds(rows: Rows, key: string, dataType: string): set<nat> {
    set id | id in rows && rows[id].sharedKey == Some(key) && rows[id].dataType == dataType
  }

  ghost function Default(s: Store, uid: string, dataType: string): Found {
    Unique(DefaultIds(s.rows, uid, dataType))
  }

  // The selected filter or, without one, the default filter.
  ghost function Selected(s: Store, uid: string, dataType: string): Found {
    var found := Unique(SelectedIds(s.rows, uid, dataType));
    if found == Nobody then Default(s, uid, dataType) else found
  }

  predicate Live(s: Store, id: nat) {
    id in s.rows && !s.rows[id].deleted
  }

  // ---------- The steps ----------

  datatype Op =
    | GetCurrent(uid: string, dataType: string, sharedKey: string, k: Codec, template: Config, printed: Json)
    | Persist(uid: string, dataType: string, json: Json, k: Codec, template: Config, printed: Json)
    | Create(uid: string, dataType: string, name: string, newKey: string)
    | Save(uid: string, id: nat)
    | Clear(uid: string, dataType: string)
    | Change(uid: string, id: nat)
    | Edit(uid: string, id: nat, name: string)
    | Delete(uid: string, id: nat)

  datatype Reply =
    | Rendered(id: nat)
    | Done
    | Forbidden
    | ServerError
    | Exception
    | Loaded(config: Option<Config>, shown: nat, isNotCompatible: bool, sharedNotExisting: bool)
    | Persisted(config: Option<Config>)

  // The template prints some text, which can be read back, and documents are such as a
  // JSON parser gives.
  ghost predicate Legal(op: Op) {
    match op
    case GetCurrent(_, _, _, k, template, printed) => IsPrinted(k, template, printed)
    case Persist(_, _, json, k, template, printed) => IsPrinted(k, template, printed) && NamesItsFields(json)
    case _ => true
  }

  ghost predicate IsPrinted(k: Codec, template: Config, printed: Json) {
    Complete(template) && IsMarshalled(k, template, printed) && Rereads(k, template)
  }

  function DefaultRecord(uid: string, dataType: string, printed: Json): Record {
    Record(false, uid, dataType, "object.filter_configuration.name.default.label", printed, false, true, None, 0)
  }

  function NewRecord(op: Op, configuration: Json): Record
    requires op.Create?
  {
    Record(false, op.uid, op.dataType, op.name, configuration, true, false, Some(op.newKey), 0)
  }

  ghost function Deselect(policy: SavePolicy, s: Store, found: Found): Store
    requires found.One? ==> found.id in s.rows
  {
    if found.One? then Update(policy, s, found.id, s.rows[found.id].(isSelected := false)) else s
  }

  // A selected filter with a name is deselected, the default filter never is selected.
  ghost function DeselectNamed(policy: SavePolicy, s: Store, found: Found): Store
    requires found.One? ==> found.id in s.rows
  {
    if found.One? && s.rows[found.id].isDefault then s else Deselect(policy, s, found)
  }

  ghost function WithConfiguration(policy: SavePolicy, s: Store, id: nat, json: Json): Store
    requires id in s.rows
  {
    Update(policy, s, id, s.rows[id].(configuration := json))
  }

  // A user without a default filter gets one that holds the template.
  ghost function WithDefault(s: Store, uid: string, dataType: string, printed: Json): Store {
    if Default(s, uid, dataType) == Nobody then Insert(s, DefaultRecord(uid, dataType, printed)) else s
  }

  ghost function GetCurrentStep(policy: SavePolicy, s0: Store, op: Op): (Store, Reply)
    requires op.GetCurrent? && Complete(op.template)
  {
    var s := WithDefault(s0, op.uid, op.dataType, op.printed);
    var default := Default(s, op.uid, op.dataType);
    if default.One? then LoadStep(policy, s, op, default.id) else (s, Exception)
  }

  ghost function LoadStep(policy: SavePolicy, s: Store, op: Op, default: nat): (Store, Reply)
    requires op.GetCurrent? && Complete(op.template) && default in s.rows
  {
    var shared := if op.sharedKey == "" then Nobody else Unique(SharedIds(s.rows, op.sharedKey, op.dataType));
    match shared
    case Many => (s, Exception)
    case One(id) => LoadShared(policy, s, op, default, id)
    case Nobody => LoadDefault(policy, s, op, default)
  }

  // A shared filter replaces what the default filter holds, unless it has been deleted.
  // One that does not fit is passed over for the template, but stays stored.
  ghost function LoadShared(policy: SavePolicy, s: Store, op: Op, default: nat, shared: nat): (Store, Reply)
    requires op.GetCurrent? && Complete(op.template) && default in s.rows && shared in s.rows
  {
    var s1 := if s.rows[shared].deleted then s else WithConfiguration(policy, s, default, s.rows[shared].configuration);
    var selected := Selected(s1, op.uid, op.dataType);
    if !s.rows[shared].deleted && selected == Many then (s1, Exception)
    else
      var s2 := if s.rows[shared].deleted then s1 else Deselect(policy, s1, selected);
      var parsed := Parse(op.k, op.template, s1.rows[default].configuration);
      var config := if parsed.Some? then parsed else Parse(op.k, op.template, op.printed);
      (s2, Loaded(config, default, parsed.None?, s.rows[shared].deleted))
  }

  // A default filter that does not fit is overwritten with the template.
  ghost function LoadDefault(policy: SavePolicy, s: Store, op: Op, default: nat): (Store, Reply)
    requires op.GetCurrent? && Complete(op.template) && default in s.rows
  {
    var selected := Selected(s, op.uid, op.dataType);
    if selected == Many then (s, Exception)
    else
      var parsed := Parse(op.k, op.template, s.rows[default].configuration);
      if parsed.Some? then (s, Loaded(parsed, if selected.One? then selected.id else default, false, false))
      else
        var config := Parse(op.k, op.template, op.printed);
        (WithConfiguration(policy, s, default, op.printed), Loaded(config, default, true, false))
  }

  ghost function PersistStep(policy: SavePolicy, s: Store, op: Op): (Store, Reply)
    requires op.Persist? && Complete(op.template)
  {
    var default := Default(s, op.uid, op.dataType);
    if !default.One? then (s, Exception)
    else
      var parsed := Parse(op.k, op.template, op.json);
      var s1 := WithConfiguration(policy, s, default.id, op.json);
      (if parsed.Some? then s1 else WithConfiguration(policy, s1, default.id, op.printed), Persisted(parsed))
  }

  ghost function CreateStep(policy: SavePolicy, s: Store, op: Op): (Store, Reply)
    requires op.Create?
  {
    var selected := Selected(s, op.uid, op.dataType);
    if selected == Many then (s, ServerError)
    else
      var s1 := Deselect(policy, s, selected);
      var default := Default(s1, op.uid, op.dataType);
      if !default.One? then (s1, ServerError)
      else
        (Insert(s1, NewRecord(op, s1.rows[default.id].configuration)), Rendered(s1.next))
  }

  // The live filter must be the user's own and not the default.
  function Denied(s: Store, uid: string, id: nat): Option<Reply> {
    if !Live(s, id) then Some(ServerError)
    else if s.rows[id].principal != uid || s.rows[id].isDefault then Some(Forbidden)
    else None
  }

  ghost function SaveStep(policy: SavePolicy, s: Store, op: Op): (Store, Reply)
    requires op.Save?
  {
    var denied := Denied(s, op.uid, op.id);
    if denied.Some? then (s, denied.value)
    else
      var default := Default(s, op.uid, s.rows[op.id].dataType);
      if !default.One? then (s, ServerError)
      else (WithConfiguration(policy, s, op.id, s.rows[default.id].configuration), Rendered(op.id))
  }

  // A filter that is not selected is not saved.
  ghost function ClearStep(policy: SavePolicy, s: Store, op: Op): (Store, Reply)
    requires op.Clear?
  {
    var selected := Selected(s, op.uid, op.dataType);
    if !selected.One? then (s, Exception)
    else
      var s1 := Deselect(ChangedFields, s, selected);
      var default := Default(s1, op.uid, op.dataType);
      if !default.One? then (s1, Exception)
      else (Update(policy, s1, default.id, s1.rows[default.id].(deleted := true)), Done)
  }

  // The filter is read before the old selection is cleared and saved after: when the two
  // are the same filter, that depends on the policy.
  ghost function ChangeStep(policy: SavePolicy, s: Store, op: Op): (Store, Reply)
    requires op.Change?
  {
    if !Live(s, op.id) then (s, ServerError)
    else if s.rows[op.id].principal != op.uid then (s, Forbidden)
    else
      var f := s.rows[op.id];
      var selected := Selected(s, op.uid, f.dataType);
      if !selected.One? then (s, ServerError)
      else
        var s1 := DeselectNamed(policy, s, selected);
        if f.isDefault then (s1, Rendered(op.id))
        else
          var saved := Saved(policy, s1.rows[op.id], f, f.(isSelected := true));
          if saved.None? then (s1, ServerError)
          else
            var s2 := Put(s1, op.id, saved.value);
            var default := Default(s2, op.uid, f.dataType);
            if !default.One? then (s2, ServerError)
            else (WithConfiguration(policy, s2, default.id, f.configuration), Rendered(op.id))
  }

  ghost function EditStep(policy: SavePolicy, s: Store, op: Op): (Store, Reply)
    requires op.Edit?
  {
    var denied := Denied(s, op.uid, op.id);
    if denied.Some? then (s, denied.value)
    else (Update(policy, s, op.id, s.rows[op.id].(name := op.name)), Rendered(op.id))
  }

  // What is rendered is the default filter, which may not exist.
  ghost function DeleteStep(policy: SavePolicy, s: Store, op: Op): (Store, Reply)
    requires op.Delete?
  {
    var denied := Denied(s, op.uid, op.id);
    if denied.Some? then (s, denied.value)
    else
      var default := Default(s, op.uid, s.rows[op.id].dataType);
      if default == Many then (s, ServerError)
      else
        var s1 := Update(policy, s, op.id, s.rows[op.id].(deleted := true));
        (s1, if default.One? then Rendered(default.id) else ServerError)
  }

  ghost function Step(policy: SavePolicy, s: Store, op: Op): (Store, Reply)
    requires Legal(op)
  {
    match op
    case GetCurrent(_, _, _, _, _, _) => GetCurrentStep(policy, s, op)
    case Persist(_, _, _, _, _, _) => PersistStep(policy, s, op)
    case Create(_, _, _, _) => CreateStep(policy, s, op)
    case Save(_, _) => SaveStep(policy, s, op)
    case Clear(_, _) => ClearStep(policy, s, op)
    case Change(_, _) => ChangeStep(policy, s, op)
    case Edit(_, _, _) => EditStep(policy, s, op)
    case Delete(_, _) => DeleteStep(policy, s, op)
  }
}
