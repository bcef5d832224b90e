/** What the filter actions keep, over all runs and users, and what they promise. */
module FilterStoreLaws {
  import opened Json
  import opened FilterComponents
  import opened FilterViews
  import opened FilterStores

  // ---------- The invariant ----------

  // One user's filters for one data type: at most one default and at most one selected;
  // the default is never selected, and nothing is selected without a default.
  ghost predicate Scoped(rows: Rows, uid: string, dataType: string) {
    var defaults, selected := DefaultIds(rows, uid, dataType), SelectedIds(rows, uid, dataType);
    AtMostOne(defaults) && AtMostOne(selected) && defaults !! selected && (selected != {} ==> defaults != {})
  }

  ghost predicate Inv(s: Store) {
    && (forall id :: id in s.rows ==> id < s.next)
    && (forall uid, dataType :: Scoped(s.rows, uid, dataType))
    && (forall id :: id in s.rows ==> NamesItsFields(s.rows[id].configuration))
  }

  lemma PutIds(rows: Rows, id: nat, r: Record, uid: string, dataType: string)
    ensures DefaultIds(rows[id := r], uid, dataType) ==
            DefaultIds(rows, uid, dataType) - {id} + if r.Defaults(uid, dataType) then {id} else {}
    ensures SelectedIds(rows[id := r], uid, dataType) ==
            SelectedIds(rows, uid, dataType) - {id} + if r.Selects(uid, dataType) then {id} else {}
  {
  }

  lemma UpdateIds(policy: SavePolicy, s: Store, id: nat, r: Record, uid: string, dataType: string)
    requires id in s.rows
    ensures var t := Update(policy, s, id, r);
            && DefaultIds(t.rows, uid, dataType) ==
               DefaultIds(s.rows, uid, dataType) - {id} + (if r.Defaults(uid, dataType) then {id} else {})
            && SelectedIds(t.rows, uid, dataType) ==
               SelectedIds(s.rows, uid, dataType) - {id} + (if r.Selects(uid, dataType) then {id} else {})
  {
    PutIds(s.rows, id, r, uid, dataType);
    PutIds(s.rows, id, r.(version := s.rows[id].version + 1), uid, dataType);
    assert r == s.rows[id] ==> s.rows[id := r] == s.rows;
  }

  // Neither the configuration nor the name matters for which filters are default or selected.
  ghost predicate SameRole(r: Record, r': Record) {
    r.deleted == r'.deleted && r.principal == r'.principal && r.dataType == r'.dataType
    && r.isSelected == r'.isSelected && r.isDefault == r'.isDefault
  }

  lemma UpdateSameRole(policy: SavePolicy, s: Store, id: nat, r: Record)
    requires id in s.rows && SameRole(s.rows[id], r)
    ensures var t := Update(policy, s, id, r);
            && (forall uid, dataType :: DefaultIds(t.rows, uid, dataType) == DefaultIds(s.rows, uid, dataType))
            && (forall uid, dataType :: SelectedIds(t.rows, uid, dataType) == SelectedIds(s.rows, uid, dataType))
            && (Inv(s) && NamesItsFields(r.configuration) ==> Inv(t))
  {
    var t := Update(policy, s, id, r);
    forall uid, dataType
      ensures DefaultIds(t.rows, uid, dataType) == DefaultIds(s.rows, uid, dataType)
      ensures SelectedIds(t.rows, uid, dataType) == SelectedIds(s.rows, uid, dataType)
      ensures Inv(s) ==> Scoped(t.rows, uid, dataType)
    {
      UpdateIds(policy, s, id, r, uid, dataType);
      assert Inv(s) ==> Scoped(s.rows, uid, dataType);
    }
  }

  lemma UpdateKeepsInv(policy: SavePolicy, s: Store, id: nat, r: Record)
    requires Inv(s) && id in s.rows && NamesItsFields(r.configuration)
    requires forall uid, dataType :: Scoped(Update(policy, s, id, r).rows, uid, dataType)
    ensures Inv(Update(policy, s, id, r))
  {
  }

  lemma InsertKeepsInv(s: Store, r: Record)
    requires Inv(s) && NamesItsFields(r.configuration)
    requires forall uid, dataType :: Scoped(Insert(s, r).rows, uid, dataType)
    ensures Inv(Insert(s, r))
  {
  }

  lemma PrintedNamesItsFields(k: Codec, c: Config, json: Json)
    requires Complete(c) && IsMarshalled(k, c, json)
    ensures NamesItsFields(json)
  {
  }

  lemma DeselectKeepsInv(policy: SavePolicy, s: Store, uid: string, dataType: string)
    requires Inv(s)
    ensures var s1 := Deselect(policy, s, Selected(s, uid, dataType));
            && Inv(s1) && s1.next == s.next && SelectedIds(s1.rows, uid, dataType) == {}
            && DefaultIds(s1.rows, uid, dataType) == DefaultIds(s.rows, uid, dataType)
            && Default(s1, uid, dataType) == Default(s, uid, dataType)
  {
    assert Scoped(s.rows, uid, dataType);
    var found := Selected(s, uid, dataType);
    if found.One? {
      var r := s.rows[found.id].(isSelected := false);
      var s1 := Update(policy, s, found.id, r);
      forall u, d
        ensures Scoped(s1.rows, u, d)
      {
        assert Scoped(s.rows, u, d);
        UpdateIds(policy, s, found.id, r, u, d);
      }
      UpdateIds(policy, s, found.id, r, uid, dataType);
      UpdateKeepsInv(policy, s, found.id, r);
    }
  }

  lemma DefaultKeepsInv(s: Store, uid: string, dataType: string, printed: Json)
    requires Inv(s) && NamesItsFields(printed) && Default(s, uid, dataType) == Nobody
    ensures var s1 := Insert(s, DefaultRecord(uid, dataType, printed));
            Inv(s1) && DefaultIds(s1.rows, uid, dataType) == {s.next}
  {
    var r := DefaultRecord(uid, dataType, printed);
    var s1 := Insert(s, r);
    forall u, d
      ensures Scoped(s1.rows, u, d)
    {
      assert Scoped(s.rows, u, d);
      PutIds(s.rows, s.next, r, u, d);
    }
    PutIds(s.rows, s.next, r, uid, dataType);
    InsertKeepsInv(s, r);
  }

  lemma WithDefaultKeepsInv(s: Store, uid: string, dataType: string, printed: Json)
    requires Inv(s) && NamesItsFields(printed)
    ensures var s1 := WithDefault(s, uid, dataType, printed);
            Inv(s1) && Default(s1, uid, dataType).One? && (Default(s, uid, dataType).One? ==> s1 == s)
    ensures Default(s, uid, dataType) == Nobody ==>
              Default(WithDefault(s, uid, dataType, printed), uid, dataType) == One(s.next)
  {
    assert Scoped(s.rows, uid, dataType);
    if Default(s, uid, dataType) == Nobody {
      DefaultKeepsInv(s, uid, dataType, printed);
    }
  }

  lemma WithDefaultKeepsInvFor(s: Store, uid: string, dataType: string, k: Codec, template: Config, printed: Json)
    requires Inv(s) && Complete(template) && IsMarshalled(k, template, printed)
    ensures var s1 := WithDefault(s, uid, dataType, printed);
            Inv(s1) && Default(s1, uid, dataType).One? && (Default(s, uid, dataType).One? ==> s1 == s)
    ensures Default(s, uid, dataType) == Nobody ==>
              Default(WithDefault(s, uid, dataType, printed), uid, dataType) == One(s.next)
  {
    PrintedNamesItsFields(k, template, printed);
    WithDefaultKeepsInv(s, uid, dataType, printed);
  }

  lemma LoadSharedKeepsInv(policy: SavePolicy, s: Store, op: Op, default: nat, shared: nat)
    requires Inv(s) && op.GetCurrent? && Complete(op.template) && default in s.rows && shared in s.rows
    ensures Inv(LoadShared(policy, s, op, default, shared).0)
  {
    var json := s.rows[shared].configuration;
    UpdateSameRole(policy, s, default, s.rows[default].(configuration := json));
    DeselectKeepsInv(policy, WithConfiguration(policy, s, default, json), op.uid, op.dataType);
  }

  lemma LoadKeepsInv(policy: SavePolicy, s: Store, op: Op, default: nat)
    requires Inv(s) && op.GetCurrent? && Complete(op.template) && NamesItsFields(op.printed) && default in s.rows
    ensures Inv(LoadStep(policy, s, op, default).0)
  {
    UpdateSameRole(policy, s, default, s.rows[default].(configuration := op.printed));
    var shared := Unique(SharedIds(s.rows, op.sharedKey, op.dataType));
    if shared.One? {
      LoadSharedKeepsInv(policy, s, op, default, shared.id);
    }
  }

  lemma GetCurrentKeepsInv(policy: SavePolicy, s: Store, op: Op)
    requires Inv(s) && op.GetCurrent? && Legal(op)
    ensures Inv(GetCurrentStep(policy, s, op).0)
  {
    PrintedNamesItsFields(op.k, op.template, op.printed);
    WithDefaultKeepsInv(s, op.uid, op.dataType, op.printed);
    var s1 := WithDefault(s, op.uid, op.dataType, op.printed);
    assert Default(s1, op.uid, op.dataType).id in DefaultIds(s1.rows, op.uid, op.dataType);
    LoadKeepsInv(policy, s1, op, Default(s1, op.uid, op.dataType).id);
  }

  lemma CreateKeepsInv(policy: SavePolicy, s: Store, op: Op)
    requires Inv(s) && op.Create?
    ensures Inv(CreateStep(policy, s, op).0)
  {
    DeselectKeepsInv(policy, s, op.uid, op.dataType);
    var s1 := Deselect(policy, s, Selected(s, op.uid, op.dataType));
    var default := Default(s1, op.uid, op.dataType);
    if default.One? {
      var r := NewRecord(op, s1.rows[default.id].configuration);
      var s2 := Insert(s1, r);
      forall u, d
        ensures Scoped(s2.rows, u, d)
      {
        assert Scoped(s1.rows, u, d);
        PutIds(s1.rows, s1.next, r, u, d);
      }
      InsertKeepsInv(s1, r);
    }
  }

  lemma ClearKeepsInv(policy: SavePolicy, s: Store, op: Op)
    requires Inv(s) && op.Clear?
    ensures Inv(ClearStep(policy, s, op).0)
  {
    DeselectKeepsInv(ChangedFields, s, op.uid, op.dataType);
    var s1 := Deselect(ChangedFields, s, Selected(s, op.uid, op.dataType));
    var default := Default(s1, op.uid, op.dataType);
    if default.One? {
      var r := s1.rows[default.id].(deleted := true);
      var s2 := Update(policy, s1, default.id, r);
      forall u, d
        ensures Scoped(s2.rows, u, d)
      {
        assert Scoped(s1.rows, u, d);
        UpdateIds(policy, s1, default.id, r, u, d);
      }
      UpdateKeepsInv(policy, s1, default.id, r);
    }
  }

  lemma DeleteKeepsInv(policy: SavePolicy, s: Store, op: Op)
    requires Inv(s) && op.Delete?
    ensures Inv(DeleteStep(policy, s, op).0)
  {
    if Denied(s, op.uid, op.id).None? {
      var r := s.rows[op.id].(deleted := true);
      var s1 := Update(policy, s, op.id, r);
      forall u, d
        ensures Scoped(s1.rows, u, d)
      {
        assert Scoped(s.rows, u, d);
        UpdateIds(policy, s, op.id, r, u, d);
      }
      UpdateKeepsInv(policy, s, op.id, r);
    }
  }

  lemma DeselectNamedKeepsInv(policy: SavePolicy, s: Store, uid: string, dataType: string)
    requires Inv(s)
    ensures var s1 := DeselectNamed(policy, s, Selected(s, uid, dataType));
            && Inv(s1) && SelectedIds(s1.rows, uid, dataType) == {}
            && Default(s1, uid, dataType) == Default(s, uid, dataType)
  {
    assert Scoped(s.rows, uid, dataType);
    DeselectKeepsInv(policy, s, uid, dataType);
    var found := Selected(s, uid, dataType);
    if found.One? && s.rows[found.id].isDefault {
      assert found.id !in SelectedIds(s.rows, uid, dataType) by {
        assert found.id in DefaultIds(s.rows, uid, dataType) + SelectedIds(s.rows, uid, dataType);
      }
    }
  }

  // The filter that an action changes to: one of the user's named filters.
  ghost predicate IsTarget(s: Store, op: Op) {
    && op.Change? && Live(s, op.id) && s.rows[op.id].principal == op.uid && !s.rows[op.id].isDefault
    && Default(s, op.uid, s.rows[op.id].dataType).One?
  }

  lemma SelectKeepsInv(policy: SavePolicy, s: Store, id: nat)
    requires Inv(s) && Live(s, id) && !s.rows[id].isDefault
    requires SelectedIds(s.rows, s.rows[id].principal, s.rows[id].dataType) == {}
    requires DefaultIds(s.rows, s.rows[id].principal, s.rows[id].dataType) != {}
    ensures var f := s.rows[id];
            var t := Update(policy, s, id, f.(isSelected := true));
            && Inv(t) && SelectedIds(t.rows, f.principal, f.dataType) == {id}
            && Default(t, f.principal, f.dataType) == Default(s, f.principal, f.dataType)
  {
    var f := s.rows[id];
    var r := f.(isSelected := true);
    var t := Update(policy, s, id, r);
    forall u, d
      ensures Scoped(t.rows, u, d)
    {
      assert Scoped(s.rows, u, d);
      UpdateIds(policy, s, id, r, u, d);
    }
    UpdateIds(policy, s, id, r, f.principal, f.dataType);
    assert id !in DefaultIds(s.rows, f.principal, f.dataType);
    assert DefaultIds(t.rows, f.principal, f.dataType) == DefaultIds(s.rows, f.principal, f.dataType);
    UpdateKeepsInv(policy, s, id, r);
  }

  // The states that changing to a filter that is not selected goes through.
  lemma ChangeSelects(policy: SavePolicy, s: Store, op: Op)
    requires Inv(s) && IsTarget(s, op) && !s.rows[op.id].isSelected
    ensures var f := s.rows[op.id];
            var s1 := DeselectNamed(policy, s, Selected(s, op.uid, f.dataType));
            var s2 := Update(policy, s1, op.id, f.(isSelected := true));
            && op.id in s1.rows && s1.rows[op.id] == f
            && Inv(s2) && Default(s2, op.uid, f.dataType) == Default(s, op.uid, f.dataType)
            && SelectedIds(s2.rows, op.uid, f.dataType) == {op.id}
            && ChangeStep(policy, s, op) ==
               (WithConfiguration(policy, s2, Default(s, op.uid, f.dataType).id, f.configuration), Rendered(op.id))
  {
    var f := s.rows[op.id];
    assert Scoped(s.rows, op.uid, f.dataType);
    DeselectNamedKeepsInv(policy, s, op.uid, f.dataType);
    var selected := Selected(s, op.uid, f.dataType);
    assert selected.One? && selected.id != op.id by {
      assert op.id !in SelectedIds(s.rows, op.uid, f.dataType) + DefaultIds(s.rows, op.uid, f.dataType);
      assert Unique(SelectedIds(s.rows, op.uid, f.dataType)) != Many;
    }
    var s1 := DeselectNamed(policy, s, selected);
    assert s1.rows[op.id] == f;
    SelectKeepsInv(policy, s1, op.id);
  }

  // Changing to the filter that is selected already first deselects it, and then either
  // finds nothing to write or is refused.
  lemma ChangeDeselects(policy: SavePolicy, s: Store, op: Op)
    requires Inv(s) && IsTarget(s, op) && s.rows[op.id].isSelected
    ensures var f := s.rows[op.id];
            var s1 := DeselectNamed(policy, s, One(op.id));
            && Selected(s, op.uid, f.dataType) == One(op.id)
            && Inv(s1) && Default(s1, op.uid, f.dataType) == Default(s, op.uid, f.dataType)
            && SelectedIds(s1.rows, op.uid, f.dataType) == {}
            && ChangeStep(policy, s, op) ==
               match policy
               case WholeRecord => (s1, ServerError)
               case ChangedFields =>
                 (WithConfiguration(policy, s1, Default(s, op.uid, f.dataType).id, f.configuration), Rendered(op.id))
  {
    var f := s.rows[op.id];
    assert Scoped(s.rows, op.uid, f.dataType);
    assert op.id in SelectedIds(s.rows, op.uid, f.dataType);
    DeselectNamedKeepsInv(policy, s, op.uid, f.dataType);
    var s1 := DeselectNamed(policy, s, One(op.id));
    assert s1.rows[op.id].version == f.version + 1;
    assert Put(s1, op.id, s1.rows[op.id]) == s1;
  }

  lemma ChangeKeepsInv(policy: SavePolicy, s: Store, op: Op)
    requires Inv(s) && op.Change?
    ensures Inv(ChangeStep(policy, s, op).0)
  {
    if Live(s, op.id) && s.rows[op.id].principal == op.uid {
      var f := s.rows[op.id];
      assert Scoped(s.rows, op.uid, f.dataType);
      DeselectNamedKeepsInv(policy, s, op.uid, f.dataType);
      if IsTarget(s, op) {
        var default := Default(s, op.uid, f.dataType).id;
        var s1 := DeselectNamed(policy, s, Selected(s, op.uid, f.dataType));
        if f.isSelected {
          ChangeDeselects(policy, s, op);
          UpdateSameRole(policy, s1, default, s1.rows[default].(configuration := f.configuration));
        } else {
          ChangeSelects(policy, s, op);
          var s2 := Update(policy, s1, op.id, f.(isSelected := true));
          UpdateSameRole(policy, s2, default, s2.rows[default].(configuration := f.configuration));
        }
      }
    }
  }

  // No action of any user breaks the invariant.
  lemma StepKeepsInv(policy: SavePolicy, s: Store, op: Op)
    requires Inv(s) && Legal(op)
    ensures Inv(Step(policy, s, op).0)
  {
    match op
    case GetCurrent(_, _, _, _, _, _) => GetCurrentKeepsInv(policy, s, op);
    case Persist(_, _, _, k, template, printed) =>
      PrintedNamesItsFields(k, template, printed);
      var default := Default(s, op.uid, op.dataType);
      if default.One? {
        UpdateSameRole(policy, s, default.id, s.rows[default.id].(configuration := op.json));
        var s1 := WithConfiguration(policy, s, default.id, op.json);
        UpdateSameRole(policy, s1, default.id, s1.rows[default.id].(configuration := printed));
      }
    case Create(_, _, _, _) => CreateKeepsInv(policy, s, op);
    case Save(_, id) =>
      if Denied(s, op.uid, id).None? {
        var default := Default(s, op.uid, s.rows[id].dataType);
        if default.One? {
          UpdateSameRole(policy, s, id, s.rows[id].(configuration := s.rows[default.id].configuration));
        }
      }
    case Clear(_, _) => ClearKeepsInv(policy, s, op);
    case Change(_, _) => ChangeKeepsInv(policy, s, op);
    case Edit(_, id, name) =>
      if Denied(s, op.uid, id).None? {
        UpdateSameRole(policy, s, id, s.rows[id].(name := name));
      }
    case Delete(_, _) => DeleteKeepsInv(policy, s, op);
  }

  // ---------- Runs ----------

  ghost predicate AllLegal(ops: seq<Op>) {
    forall i :: 0 <= i < |ops| ==> Legal(ops[i])
  }

  ghost function Run(policy: SavePolicy, s: Store, ops: seq<Op>): Store
    requires AllLegal(ops)
    decreases |ops|
  {
    if ops == [] then s else Run(policy, Step(policy, s, ops[0]).0, ops[1..])
  }

  lemma {:induction false} RunKeepsInv(policy: SavePolicy, s: Store, ops: seq<Op>)
    requires Inv(s) && AllLegal(ops)
    ensures Inv(Run(policy, s, ops))
    decreases |ops|
  {
    if ops != [] {
      StepKeepsInv(policy, s, ops[0]);
      RunKeepsInv(policy, Step(policy, s, ops[0]).0, ops[1..]);
    }
  }

  // The filters of all other users are as they were, and none is taken away from anyone.
  ghost predicate OnlyTouches(s: Store, s': Store, uid: string) {
    && (forall id :: id in s.rows ==>
          && id in s'.rows && s'.rows[id].principal == s.rows[id].principal
          && (s.rows[id].principal != uid ==> s'.rows[id] == s.rows[id]))
    && (forall id :: id in s'.rows && id !in s.rows ==> s'.rows[id].principal == uid)
  }

  lemma TouchesTwice(s: Store, s1: Store, s2: Store, uid: string)
    requires OnlyTouches(s, s1, uid) && OnlyTouches(s1, s2, uid)
    ensures OnlyTouches(s, s2, uid)
  {
  }

  lemma UpdateOnlyTouches(policy: SavePolicy, s: Store, id: nat, r: Record, uid: string)
    requires id in s.rows && s.rows[id].principal == r.principal == uid
    ensures OnlyTouches(s, Update(policy, s, id, r), uid)
  {
  }

  lemma InsertOnlyTouches(s: Store, r: Record)
    requires s.next !in s.rows
    ensures OnlyTouches(s, Insert(s, r), r.principal)
  {
  }

  lemma DefaultIsOwn(s: Store, uid: string, dataType: string)
    ensures Default(s, uid, dataType).One? ==>
              Default(s, uid, dataType).id in s.rows && s.rows[Default(s, uid, dataType).id].principal == uid
  {
    assert Default(s, uid, dataType).One? ==> Default(s, uid, dataType).id in DefaultIds(s.rows, uid, dataType);
  }

  // Every found filter is the user's own.
  lemma FoundIsOwn(policy: SavePolicy, s: Store, uid: string, dataType: string)
    ensures Selected(s, uid, dataType).One? ==>
              Selected(s, uid, dataType).id in s.rows && s.rows[Selected(s, uid, dataType).id].principal == uid
    ensures OnlyTouches(s, Deselect(policy, s, Selected(s, uid, dataType)), uid)
  {
    DefaultIsOwn(s, uid, dataType);
    var found := Unique(SelectedIds(s.rows, uid, dataType));
    assert found.One? ==> found.id in SelectedIds(s.rows, uid, dataType);
  }

  lemma LoadSharedOnlyTouches(policy: SavePolicy, s: Store, op: Op, default: nat, shared: nat)
    requires op.GetCurrent? && Complete(op.template) && shared in s.rows && default in s.rows
    requires s.rows[default].principal == op.uid
    ensures OnlyTouches(s, LoadShared(policy, s, op, default, shared).0, op.uid)
  {
    var s1 := WithConfiguration(policy, s, default, s.rows[shared].configuration);
    FoundIsOwn(policy, s1, op.uid, op.dataType);
    TouchesTwice(s, s1, Deselect(policy, s1, Selected(s1, op.uid, op.dataType)), op.uid);
  }

  lemma LoadDefaultOnlyTouches(policy: SavePolicy, s: Store, op: Op, default: nat)
    requires op.GetCurrent? && Complete(op.template) && default in s.rows && s.rows[default].principal == op.uid
    ensures OnlyTouches(s, LoadDefault(policy, s, op, default).0, op.uid)
  {
    UpdateOnlyTouches(policy, s, default, s.rows[default].(configuration := op.printed), op.uid);
  }

  lemma LoadOnlyTouches(policy: SavePolicy, s: Store, op: Op, default: nat)
    requires op.GetCurrent? && Complete(op.template) && default in s.rows && s.rows[default].principal == op.uid
    ensures OnlyTouches(s, LoadStep(policy, s, op, default).0, op.uid)
  {
    LoadDefaultOnlyTouches(policy, s, op, default);
    var shared := Unique(SharedIds(s.rows, op.sharedKey, op.dataType));
    if shared.One? {
      LoadSharedOnlyTouches(policy, s, op, default, shared.id);
    }
  }

  lemma GetCurrentOnlyTouches(policy: SavePolicy, s: Store, op: Op)
    requires Inv(s) && op.GetCurrent? && Legal(op)
    ensures OnlyTouches(s, GetCurrentStep(policy, s, op).0, op.uid)
  {
    var s1 := WithDefault(s, op.uid, op.dataType, op.printed);
    InsertOnlyTouches(s, DefaultRecord(op.uid, op.dataType, op.printed));
    DefaultIsOwn(s1, op.uid, op.dataType);
    var default := Default(s1, op.uid, op.dataType);
    if default.One? {
      LoadOnlyTouches(policy, s1, op, default.id);
      TouchesTwice(s, s1, LoadStep(policy, s1, op, default.id).0, op.uid);
    }
  }

  lemma CreateOnlyTouches(policy: SavePolicy, s: Store, op: Op)
    requires Inv(s) && op.Create?
    ensures OnlyTouches(s, CreateStep(policy, s, op).0, op.uid)
  {
    var s1 := Deselect(policy, s, Selected(s, op.uid, op.dataType));
    FoundIsOwn(policy, s, op.uid, op.dataType);
    DeselectKeepsInv(policy, s, op.uid, op.dataType);
    TouchesTwice(s, s1, CreateStep(policy, s, op).0, op.uid);
  }

  lemma ClearOnlyTouches(policy: SavePolicy, s: Store, op: Op)
    requires op.Clear?
    ensures OnlyTouches(s, ClearStep(policy, s, op).0, op.uid)
  {
    var s1 := Deselect(ChangedFields, s, Selected(s, op.uid, op.dataType));
    FoundIsOwn(ChangedFields, s, op.uid, op.dataType);
    DefaultIsOwn(s1, op.uid, op.dataType);
    var default := Default(s1, op.uid, op.dataType);
    if default.One? {
      var r := s1.rows[default.id].(deleted := true);
      UpdateOnlyTouches(policy, s1, default.id, r, op.uid);
      TouchesTwice(s, s1, Update(policy, s1, default.id, r), op.uid);
    }
  }

  lemma ChangeOnlyTouches(policy: SavePolicy, s: Store, op: Op)
    requires Inv(s) && op.Change?
    ensures OnlyTouches(s, ChangeStep(policy, s, op).0, op.uid)
  {
    if Live(s, op.id) && s.rows[op.id].principal == op.uid {
      var f := s.rows[op.id];
      assert Scoped(s.rows, op.uid, f.dataType);
      FoundIsOwn(policy, s, op.uid, f.dataType);
      var s1 := DeselectNamed(policy, s, Selected(s, op.uid, f.dataType));
      if IsTarget(s, op) {
        var default := Default(s, op.uid, f.dataType).id;
        var s2 := s1;
        if f.isSelected {
          ChangeDeselects(policy, s, op);
        } else {
          ChangeSelects(policy, s, op);
          s2 := Update(policy, s1, op.id, f.(isSelected := true));
          UpdateOnlyTouches(policy, s1, op.id, f.(isSelected := true), op.uid);
          TouchesTwice(s, s1, s2, op.uid);
        }
        DefaultIsOwn(s2, op.uid, f.dataType);
        UpdateOnlyTouches(policy, s2, default, s2.rows[default].(configuration := f.configuration), op.uid);
        TouchesTwice(s, s2, WithConfiguration(policy, s2, default, f.configuration), op.uid);
      }
    }
  }

  lemma PersistOnlyTouches(policy: SavePolicy, s: Store, op: Op)
    requires op.Persist? && Complete(op.template)
    ensures OnlyTouches(s, PersistStep(policy, s, op).0, op.uid)
  {
    DefaultIsOwn(s, op.uid, op.dataType);
    var default := Default(s, op.uid, op.dataType);
    if default.One? {
      var s1 := WithConfiguration(policy, s, default.id, op.json);
      UpdateOnlyTouches(policy, s, default.id, s.rows[default.id].(configuration := op.json), op.uid);
      UpdateOnlyTouches(policy, s1, default.id, s1.rows[default.id].(configuration := op.printed), op.uid);
      TouchesTwice(s, s1, WithConfiguration(policy, s1, default.id, op.printed), op.uid);
    }
  }

  lemma SaveOnlyTouches(policy: SavePolicy, s: Store, op: Op)
    requires op.Save?
    ensures OnlyTouches(s, SaveStep(policy, s, op).0, op.uid)
  {
    if Denied(s, op.uid, op.id).None? {
      var default := Default(s, op.uid, s.rows[op.id].dataType);
      if default.One? {
        var json := s.rows[default.id].configuration;
        UpdateOnlyTouches(policy, s, op.id, s.rows[op.id].(configuration := json), op.uid);
      }
    }
  }

  // A step of one user changes nothing of any other user's.
  lemma StepOnlyTouchesOwn(policy: SavePolicy, s: Store, op: Op)
    requires Inv(s) && Legal(op)
    ensures OnlyTouches(s, Step(policy, s, op).0, op.uid)
  {
    match op
    case GetCurrent(_, _, _, _, _, _) => GetCurrentOnlyTouches(policy, s, op);
    case Persist(_, _, _, _, _, _) => PersistOnlyTouches(policy, s, op);
    case Create(_, _, _, _) => CreateOnlyTouches(policy, s, op);
    case Save(_, _) => SaveOnlyTouches(policy, s, op);
    case Clear(_, _) => ClearOnlyTouches(policy, s, op);
    case Change(_, _) => ChangeOnlyTouches(policy, s, op);
    case Edit(uid, id, name) =>
      if Denied(s, uid, id).None? {
        UpdateOnlyTouches(policy, s, id, s.rows[id].(name := name), uid);
      }
    case Delete(uid, id) =>
      if Denied(s, uid, id).None? {
        UpdateOnlyTouches(policy, s, id, s.rows[id].(deleted := true), uid);
      }
  }

  // Whatever other users do, a user's filters stay.
  lemma {:induction false} OthersCannotTouch(policy: SavePolicy, s: Store, ops: seq<Op>, id: nat)
    requires Inv(s) && AllLegal(ops) && id in s.rows
    requires forall i :: 0 <= i < |ops| ==> ops[i].uid != s.rows[id].principal
    ensures id in Run(policy, s, ops).rows && Run(policy, s, ops).rows[id] == s.rows[id]
    decreases |ops|
  {
    if ops != [] {
      StepKeepsInv(policy, s, ops[0]);
      StepOnlyTouchesOwn(policy, s, ops[0]);
      OthersCannotTouch(policy, Step(policy, s, ops[0]).0, ops[1..], id);
    }
  }

  // ---------- Answers ----------

  predicate Failed(r: Reply) {
    r.Forbidden? || r.ServerError? || r.Exception?
  }

  // The filter to change to is selected already and would be written a second time.
  predicate IsRefused(policy: SavePolicy, f: Record) {
    policy == WholeRecord && f.isSelected && !f.isDefault
  }

  // A live filter of the user's own that is not the default.
  predicate IsOwnNamed(s: Store, uid: string, id: nat) {
    id in s.rows && !s.rows[id].deleted && s.rows[id].principal == uid && !s.rows[id].isDefault
  }

  // The answer "forbidden" is for live filters only: another user's, or the default
  // filter unless it is only selected.
  predicate IsForbidden(s: Store, op: Op) {
    match op
    case Change(uid, id) => id in s.rows && !s.rows[id].deleted && s.rows[id].principal != uid
    case Save(uid, id) => IsForeignOrDefault(s, uid, id)
    case Edit(uid, id, _) => IsForeignOrDefault(s, uid, id)
    case Delete(uid, id) => IsForeignOrDefault(s, uid, id)
    case _ => false
  }

  predicate IsForeignOrDefault(s: Store, uid: string, id: nat) {
    id in s.rows && !s.rows[id].deleted && (s.rows[id].principal != uid || s.rows[id].isDefault)
  }

  lemma ForbiddenIff(policy: SavePolicy, s: Store, op: Op)
    requires Legal(op)
    ensures Step(policy, s, op).1 == Forbidden <==> IsForbidden(s, op)
  {
  }

  // What an action needs to answer well.
  ghost predicate Answers(policy: SavePolicy, s: Store, op: Op) {
    match op
    case GetCurrent(_, dataType, key, _, _, _) => key == "" || Unique(SharedIds(s.rows, key, dataType)) != Many
    case Persist(uid, dataType, _, _, _, _) => Default(s, uid, dataType).One?
    case Create(uid, dataType, _, _) => Default(s, uid, dataType).One?
    case Clear(uid, dataType) => Default(s, uid, dataType).One?
    case Edit(uid, id, _) => IsOwnNamed(s, uid, id)
    case Change(uid, id) =>
      && Live(s, id) && s.rows[id].principal == uid && Default(s, uid, s.rows[id].dataType).One?
      && !IsRefused(policy, s.rows[id])
    case Save(uid, id) => IsOwnNamed(s, uid, id) && Default(s, uid, s.rows[id].dataType).One?
    case Delete(uid, id) => IsOwnNamed(s, uid, id) && Default(s, uid, s.rows[id].dataType).One?
  }

  // The three failures that leave something behind: deleting a filter after the default
  // filter was cleared, a first load with an ambiguous key, and a refused change.
  ghost predicate FailsLate(policy: SavePolicy, s: Store, op: Op) {
    match op
    case GetCurrent(uid, dataType, _, _, _, _) => !Answers(policy, s, op) && Default(s, uid, dataType) == Nobody
    case Delete(uid, id) => IsOwnNamed(s, uid, id) && Default(s, uid, s.rows[id].dataType) == Nobody
    case Change(uid, id) => IsTarget(s, op) && IsRefused(policy, s.rows[id])
    case _ => false
  }

  // An action fails exactly when it lacks what it needs, and a failure changes nothing
  // but for the three late ones.
  lemma FailsIff(policy: SavePolicy, s: Store, op: Op)
    requires Inv(s) && Legal(op)
    ensures Failed(Step(policy, s, op).1) <==> !Answers(policy, s, op)
    ensures Failed(Step(policy, s, op).1) ==> (Step(policy, s, op).0 != s <==> FailsLate(policy, s, op))
  {
    match op
    case GetCurrent(_, _, _, _, _, _) => GetCurrentFailsIff(policy, s, op);
    case Persist(uid, dataType, _, _, _, _) => assert Scoped(s.rows, uid, dataType);
    case Create(uid, dataType, _, _) =>
      assert Scoped(s.rows, uid, dataType);
      DeselectKeepsInv(policy, s, uid, dataType);
    case Save(uid, id) =>
      if Denied(s, uid, id).None? {
        assert Scoped(s.rows, uid, s.rows[id].dataType);
      }
    case Clear(uid, dataType) =>
      assert Scoped(s.rows, uid, dataType);
      DeselectKeepsInv(policy, s, uid, dataType);
    case Change(uid, id) => ChangeFailsIff(policy, s, op);
    case Edit(_, _, _) =>
    case Delete(uid, id) =>
      if Denied(s, uid, id).None? {
        assert Scoped(s.rows, uid, s.rows[id].dataType);
        assert DeleteStep(policy, s, op).0.rows[id].deleted;
      }
  }

  lemma ChangeFailsIff(policy: SavePolicy, s: Store, op: Op)
    requires Inv(s) && op.Change?
    ensures Failed(ChangeStep(policy, s, op).1) <==> !Answers(policy, s, op)
    ensures Failed(ChangeStep(policy, s, op).1) ==> (ChangeStep(policy, s, op).0 != s <==> FailsLate(policy, s, op))
  {
    if Live(s, op.id) && s.rows[op.id].principal == op.uid {
      assert Scoped(s.rows, op.uid, s.rows[op.id].dataType);
      if IsTarget(s, op) {
        if s.rows[op.id].isSelected {
          ChangeDeselects(policy, s, op);
          assert !DeselectNamed(policy, s, One(op.id)).rows[op.id].isSelected;
        } else {
          ChangeSelects(policy, s, op);
        }
      }
    }
  }

  lemma LoadFailsIff(policy: SavePolicy, s: Store, op: Op, default: nat)
    requires Inv(s) && op.GetCurrent? && Legal(op) && Default(s, op.uid, op.dataType) == One(default)
    ensures var shared := Unique(SharedIds(s.rows, op.sharedKey, op.dataType));
            var (s1, reply) := LoadStep(policy, s, op, default);
            && (Failed(reply) <==> op.sharedKey != "" && shared == Many)
            && (Failed(reply) ==> s1 == s)
  {
    assert Scoped(s.rows, op.uid, op.dataType);
    var shared := Unique(SharedIds(s.rows, op.sharedKey, op.dataType));
    if shared.One? {
      var s1 := WithConfiguration(policy, s, default, s.rows[shared.id].configuration);
      UpdateSameRole(policy, s, default, s.rows[default].(configuration := s.rows[shared.id].configuration));
      assert Scoped(s1.rows, op.uid, op.dataType);
    }
  }

  lemma GetCurrentFailsIff(policy: SavePolicy, s: Store, op: Op)
    requires Inv(s) && op.GetCurrent? && Legal(op)
    ensures Failed(GetCurrentStep(policy, s, op).1) <==> !Answers(policy, s, op)
    ensures Failed(GetCurrentStep(policy, s, op).1) ==>
              (GetCurrentStep(policy, s, op).0 != s <==> FailsLate(policy, s, op))
  {
    assert Scoped(s.rows, op.uid, op.dataType);
    WithDefaultKeepsInvFor(s, op.uid, op.dataType, op.k, op.template, op.printed);
    var s1 := WithDefault(s, op.uid, op.dataType, op.printed);
    assert SharedIds(s1.rows, op.sharedKey, op.dataType) == SharedIds(s.rows, op.sharedKey, op.dataType);
    LoadFailsIff(policy, s1, op, Default(s1, op.uid, op.dataType).id);
  }
}
