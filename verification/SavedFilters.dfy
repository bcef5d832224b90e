/** What users rely on: saved filters come back, and a stored filter that no longer fits heals. */
module SavedFilters {
  import opened Wrappers
  import opened Json
  import opened FilterViews
  import opened FilterStores
  import opened FilterStoreLaws

  // ---------- Saved filters survive ----------

  // A named filter that still holds this configuration.
  ghost predicate Holds(s: Store, id: nat, uid: string, dataType: string, json: Json) {
    && Live(s, id) && !s.rows[id].isDefault
    && s.rows[id].principal == uid && s.rows[id].dataType == dataType && s.rows[id].configuration == json
  }

  predicate Spares(op: Op, id: nat) {
    !(op.Save? && op.id == id) && !(op.Delete? && op.id == id)
  }

  lemma UpdateHolds(policy: SavePolicy, s: Store, i: nat, r: Record,
                    id: nat, uid: string, dataType: string, json: Json)
    requires Holds(s, id, uid, dataType, json) && i in s.rows
    requires i == id ==> r == s.rows[id].(name := r.name, isSelected := r.isSelected)
    ensures Holds(Update(policy, s, i, r), id, uid, dataType, json)
  {
  }

  lemma InsertHolds(s: Store, r: Record, id: nat, uid: string, dataType: string, json: Json)
    requires Inv(s) && Holds(s, id, uid, dataType, json)
    ensures Holds(Insert(s, r), id, uid, dataType, json)
  {
  }

  lemma DeselectHolds(policy: SavePolicy, s: Store, found: Found, id: nat, uid: string, dataType: string, json: Json)
    requires Holds(s, id, uid, dataType, json) && (found.One? ==> found.id in s.rows)
    ensures Holds(Deselect(policy, s, found), id, uid, dataType, json)
  {
    if found.One? {
      UpdateHolds(policy, s, found.id, s.rows[found.id].(isSelected := false), id, uid, dataType, json);
    }
  }

  lemma DefaultIsNotNamed(s: Store, id: nat, uid: string, dataType: string)
    requires Default(s, uid, dataType).One? && id in s.rows && !s.rows[id].isDefault
    ensures Default(s, uid, dataType).id != id && Default(s, uid, dataType).id in s.rows
  {
    assert Default(s, uid, dataType).id in DefaultIds(s.rows, uid, dataType);
  }

  lemma LoadSharedHolds(policy: SavePolicy, s: Store, op: Op, default: nat, shared: nat,
                        id: nat, uid: string, dataType: string, json: Json)
    requires op.GetCurrent? && Complete(op.template) && default in s.rows && shared in s.rows && default != id
    requires Holds(s, id, uid, dataType, json)
    ensures Holds(LoadShared(policy, s, op, default, shared).0, id, uid, dataType, json)
  {
    var s2 := WithConfiguration(policy, s, default, s.rows[shared].configuration);
    DeselectHolds(policy, s2, Selected(s2, op.uid, op.dataType), id, uid, dataType, json);
  }

  lemma LoadHolds(policy: SavePolicy, s: Store, op: Op, default: nat,
                  id: nat, uid: string, dataType: string, json: Json)
    requires op.GetCurrent? && Complete(op.template) && default in s.rows && default != id
    requires Holds(s, id, uid, dataType, json)
    ensures Holds(LoadStep(policy, s, op, default).0, id, uid, dataType, json)
  {
    UpdateHolds(policy, s, default, s.rows[default].(configuration := op.printed), id, uid, dataType, json);
    var shared := Unique(SharedIds(s.rows, op.sharedKey, op.dataType));
    if shared.One? {
      LoadSharedHolds(policy, s, op, default, shared.id, id, uid, dataType, json);
    }
  }

  lemma GetCurrentHolds(policy: SavePolicy, s: Store, op: Op, id: nat, uid: string, dataType: string, json: Json)
    requires Inv(s) && op.GetCurrent? && Legal(op) && Holds(s, id, uid, dataType, json)
    ensures Holds(GetCurrentStep(policy, s, op).0, id, uid, dataType, json)
  {
    var s1 := WithDefault(s, op.uid, op.dataType, op.printed);
    InsertHolds(s, DefaultRecord(op.uid, op.dataType, op.printed), id, uid, dataType, json);
    var default := Default(s1, op.uid, op.dataType);
    if default.One? {
      DefaultIsNotNamed(s1, id, op.uid, op.dataType);
      LoadHolds(policy, s1, op, default.id, id, uid, dataType, json);
    }
  }

  lemma PersistHolds(policy: SavePolicy, s: Store, op: Op, id: nat, uid: string, dataType: string, json: Json)
    requires op.Persist? && Complete(op.template) && Holds(s, id, uid, dataType, json)
    ensures Holds(PersistStep(policy, s, op).0, id, uid, dataType, json)
  {
    var default := Default(s, op.uid, op.dataType);
    if default.One? {
      DefaultIsNotNamed(s, id, op.uid, op.dataType);
      UpdateHolds(policy, s, default.id, s.rows[default.id].(configuration := op.json), id, uid, dataType, json);
      var s1 := WithConfiguration(policy, s, default.id, op.json);
      UpdateHolds(policy, s1, default.id, s1.rows[default.id].(configuration := op.printed), id, uid, dataType, json);
    }
  }

  lemma CreateHolds(policy: SavePolicy, s: Store, op: Op, id: nat, uid: string, dataType: string, json: Json)
    requires Inv(s) && op.Create? && Holds(s, id, uid, dataType, json)
    ensures Holds(CreateStep(policy, s, op).0, id, uid, dataType, json)
  {
    var s1 := Deselect(policy, s, Selected(s, op.uid, op.dataType));
    DeselectHolds(policy, s, Selected(s, op.uid, op.dataType), id, uid, dataType, json);
    DeselectKeepsInv(policy, s, op.uid, op.dataType);
    var default := Default(s1, op.uid, op.dataType);
    if default.One? {
      DefaultIsNotNamed(s1, id, op.uid, op.dataType);
      InsertHolds(s1, NewRecord(op, s1.rows[default.id].configuration), id, uid, dataType, json);
    }
  }

  lemma ClearHolds(policy: SavePolicy, s: Store, op: Op, id: nat, uid: string, dataType: string, json: Json)
    requires op.Clear? && Holds(s, id, uid, dataType, json)
    ensures Holds(ClearStep(policy, s, op).0, id, uid, dataType, json)
  {
    var s1 := Deselect(ChangedFields, s, Selected(s, op.uid, op.dataType));
    DeselectHolds(ChangedFields, s, Selected(s, op.uid, op.dataType), id, uid, dataType, json);
    var default := Default(s1, op.uid, op.dataType);
    if default.One? {
      DefaultIsNotNamed(s1, id, op.uid, op.dataType);
      UpdateHolds(policy, s1, default.id, s1.rows[default.id].(deleted := true), id, uid, dataType, json);
    }
  }

  lemma ChangeHolds(policy: SavePolicy, s: Store, op: Op, id: nat, uid: string, dataType: string, json: Json)
    requires Inv(s) && op.Change? && Holds(s, id, uid, dataType, json)
    ensures Holds(ChangeStep(policy, s, op).0, id, uid, dataType, json)
  {
    if Live(s, op.id) && s.rows[op.id].principal == op.uid {
      var f := s.rows[op.id];
      assert Scoped(s.rows, op.uid, f.dataType);
      var s1 := DeselectNamed(policy, s, Selected(s, op.uid, f.dataType));
      DeselectHolds(policy, s, Selected(s, op.uid, f.dataType), id, uid, dataType, json);
      if IsTarget(s, op) {
        var s2 := s1;
        if f.isSelected {
          ChangeDeselects(policy, s, op);
        } else {
          ChangeSelects(policy, s, op);
          s2 := Update(policy, s1, op.id, f.(isSelected := true));
          UpdateHolds(policy, s1, op.id, f.(isSelected := true), id, uid, dataType, json);
        }
        DefaultIsNotNamed(s2, id, op.uid, f.dataType);
        var default := Default(s, op.uid, f.dataType).id;
        UpdateHolds(policy, s2, default, s2.rows[default].(configuration := f.configuration), id, uid, dataType, json);
      }
    }
  }

  // No step takes a named filter away or alters what it holds, but saving or deleting it.
  lemma StepHolds(policy: SavePolicy, s: Store, op: Op, id: nat, uid: string, dataType: string, json: Json)
    requires Inv(s) && Legal(op) && Spares(op, id) && Holds(s, id, uid, dataType, json)
    ensures Holds(Step(policy, s, op).0, id, uid, dataType, json)
  {
    match op
    case GetCurrent(_, _, _, _, _, _) => GetCurrentHolds(policy, s, op, id, uid, dataType, json);
    case Persist(_, _, _, _, _, _) => PersistHolds(policy, s, op, id, uid, dataType, json);
    case Create(_, _, _, _) => CreateHolds(policy, s, op, id, uid, dataType, json);
    case Clear(_, _) => ClearHolds(policy, s, op, id, uid, dataType, json);
    case Change(_, _) => ChangeHolds(policy, s, op, id, uid, dataType, json);
    case _ =>
  }

  lemma {:induction false} RunHolds(policy: SavePolicy, s: Store, ops: seq<Op>,
                                    id: nat, uid: string, dataType: string, json: Json)
    requires Inv(s) && AllLegal(ops) && Holds(s, id, uid, dataType, json)
    requires forall i :: 0 <= i < |ops| ==> Spares(ops[i], id)
    ensures Holds(Run(policy, s, ops), id, uid, dataType, json)
    decreases |ops|
  {
    if ops != [] {
      StepKeepsInv(policy, s, ops[0]);
      StepHolds(policy, s, ops[0], id, uid, dataType, json);
      RunHolds(policy, Step(policy, s, ops[0]).0, ops[1..], id, uid, dataType, json);
    }
  }

  // Changing to a named filter, in full: what it holds goes into the default filter and it
  // becomes the only selected filter. One that was selected already is deselected instead:
  // with nothing else amiss where only changed fields are written, and with an error and
  // the default filter as it was where whole records are.
  lemma ChangedTo(policy: SavePolicy, s: Store, uid: string, id: nat)
    requires Inv(s) && Live(s, id) && s.rows[id].principal == uid && !s.rows[id].isDefault
    requires Default(s, uid, s.rows[id].dataType).One?
    ensures var f, default := s.rows[id], Default(s, uid, s.rows[id].dataType);
            var (t, reply) := ChangeStep(policy, s, Change(uid, id));
            && reply == (if IsRefused(policy, f) then ServerError else Rendered(id))
            && Inv(t) && Default(t, uid, f.dataType) == default && default.id in t.rows && default.id in s.rows
            && t.rows[default.id].configuration ==
               (if IsRefused(policy, f) then s.rows[default.id].configuration else f.configuration)
            && SelectedIds(t.rows, uid, f.dataType) == (if f.isSelected then {} else {id})
  {
    var f, op := s.rows[id], Change(uid, id);
    var default := Default(s, uid, f.dataType).id;
    DefaultIsNotNamed(s, id, uid, f.dataType);
    ChangeKeepsInv(policy, s, op);
    var s1 := DeselectNamed(policy, s, Selected(s, uid, f.dataType));
    var s2 := s1;
    if f.isSelected {
      ChangeDeselects(policy, s, op);
    } else {
      ChangeSelects(policy, s, op);
      s2 := Update(policy, s1, id, f.(isSelected := true));
    }
    assert default in DefaultIds(s2.rows, uid, f.dataType);
    UpdateSameRole(policy, s2, default, s2.rows[default].(configuration := f.configuration));
  }

  // After saving, the filter holds what the default filter holds.
  lemma SavedHolds(policy: SavePolicy, s: Store, uid: string, id: nat)
    requires Inv(s) && SaveStep(policy, s, Save(uid, id)).1 == Rendered(id)
    ensures id in s.rows
    ensures var dataType := s.rows[id].dataType;
            var saved, s1 := Default(s, uid, dataType), SaveStep(policy, s, Save(uid, id)).0;
            && Inv(s1) && saved.One? && saved.id in s.rows
            && Holds(s1, id, uid, dataType, s.rows[saved.id].configuration)
  {
    DefaultIsNotNamed(s, id, uid, s.rows[id].dataType);
    StepKeepsInv(policy, s, Save(uid, id));
  }

  // After saving a filter, and whatever all users then do but save or delete it, changing
  // to it while there is a default filter puts what was saved in the default filter, and
  // selects it, if and only if it was not selected already.
  lemma SavedFilterSurvives(policy: SavePolicy, s: Store, uid: string, id: nat, ops: seq<Op>)
    requires Inv(s) && AllLegal(ops) && SaveStep(policy, s, Save(uid, id)).1 == Rendered(id)
    requires forall i :: 0 <= i < |ops| ==> Spares(ops[i], id)
    requires var s2 := Run(policy, SaveStep(policy, s, Save(uid, id)).0, ops);
             id in s.rows && Default(s2, uid, s.rows[id].dataType).One?
    ensures var dataType := s.rows[id].dataType;
            var saved := Default(s, uid, dataType);
            var s2 := Run(policy, SaveStep(policy, s, Save(uid, id)).0, ops);
            var default := Default(s2, uid, dataType);
            var (s3, reply) := ChangeStep(policy, s2, Change(uid, id));
            && saved.One? && saved.id in s.rows && id in s2.rows && default.id in s2.rows && Inv(s3)
            && Default(s3, uid, dataType) == default && default.id in s3.rows
            && var refused := IsRefused(policy, s2.rows[id]);
               && reply == (if refused then ServerError else Rendered(id))
               && s3.rows[default.id].configuration ==
                  (if refused then s2.rows[default.id].configuration else s.rows[saved.id].configuration)
               && SelectedIds(s3.rows, uid, dataType) == (if s2.rows[id].isSelected then {} else {id})
  {
    var dataType := s.rows[id].dataType;
    SavedHolds(policy, s, uid, id);
    var s1, json := SaveStep(policy, s, Save(uid, id)).0, s.rows[Default(s, uid, dataType).id].configuration;
    RunHolds(policy, s1, ops, id, uid, dataType, json);
    RunKeepsInv(policy, s1, ops);
    HeldIsChangedTo(policy, Run(policy, s1, ops), uid, id, dataType, json);
  }

  lemma HeldIsChangedTo(policy: SavePolicy, s: Store, uid: string, id: nat, dataType: string, json: Json)
    requires Inv(s) && Holds(s, id, uid, dataType, json) && Default(s, uid, dataType).One?
    ensures var default := Default(s, uid, dataType);
            var (t, reply) := ChangeStep(policy, s, Change(uid, id));
            && default.id in s.rows && Inv(t) && Default(t, uid, dataType) == default && default.id in t.rows
            && var refused := IsRefused(policy, s.rows[id]);
               && reply == (if refused then ServerError else Rendered(id))
               && t.rows[default.id].configuration == (if refused then s.rows[default.id].configuration else json)
               && SelectedIds(t.rows, uid, dataType) == (if s.rows[id].isSelected then {} else {id})
  {
    ChangedTo(policy, s, uid, id);
  }

  // ---------- Loading ----------

  // The key of the request, where it has one, finds no filter.
  ghost predicate FindsNone(s: Store, op: Op)
    requires op.GetCurrent?
  {
    op.sharedKey == "" || SharedIds(s.rows, op.sharedKey, op.dataType) == {}
  }

  lemma DefaultIsNotShared(s: Store, op: Op)
    requires Inv(s) && op.GetCurrent?
    ensures SharedIds(WithDefault(s, op.uid, op.dataType, op.printed).rows, op.sharedKey, op.dataType)
            == SharedIds(s.rows, op.sharedKey, op.dataType)
  {
  }

  lemma LoadsDefault(policy: SavePolicy, s: Store, op: Op)
    requires Inv(s) && op.GetCurrent? && Legal(op) && FindsNone(s, op)
    ensures var s1 := WithDefault(s, op.uid, op.dataType, op.printed);
            var default := Default(s1, op.uid, op.dataType);
            && Inv(s1) && default.One? && default.id in s1.rows
            && GetCurrentStep(policy, s, op) == LoadDefault(policy, s1, op, default.id)
  {
    PrintedNamesItsFields(op.k, op.template, op.printed);
    WithDefaultKeepsInv(s, op.uid, op.dataType, op.printed);
    DefaultIsNotShared(s, op);
    var s1 := WithDefault(s, op.uid, op.dataType, op.printed);
    assert Default(s1, op.uid, op.dataType).id in DefaultIds(s1.rows, op.uid, op.dataType);
  }

  // Where the default filter fits, loading changes nothing and shows it.
  lemma FittingLoads(policy: SavePolicy, s: Store, op: Op, default: nat)
    requires Inv(s) && op.GetCurrent? && Legal(op) && FindsNone(s, op)
    requires Default(s, op.uid, op.dataType) == One(default) && default in s.rows
    ensures var parsed := Parse(op.k, op.template, s.rows[default].configuration);
            var (t, reply) := GetCurrentStep(policy, s, op);
            parsed.Some? ==> t == s && reply.Loaded? && reply.config == parsed && !reply.isNotCompatible
  {
    assert Scoped(s.rows, op.uid, op.dataType);
    LoadsDefault(policy, s, op);
  }

  lemma StoringKeepsDefault(policy: SavePolicy, s: Store, uid: string, dataType: string, default: nat, json: Json)
    requires default in s.rows && Default(s, uid, dataType) == One(default)
    ensures var t := WithConfiguration(policy, s, default, json);
            && Default(t, uid, dataType) == One(default) && default in t.rows && t.rows[default].configuration == json
  {
    UpdateIds(policy, s, default, s.rows[default].(configuration := json), uid, dataType);
    assert default in DefaultIds(s.rows, uid, dataType);
  }

  lemma StoringKeepsKeys(policy: SavePolicy, s: Store, id: nat, json: Json, key: string, dataType: string)
    requires id in s.rows
    ensures SharedIds(WithConfiguration(policy, s, id, json).rows, key, dataType) == SharedIds(s.rows, key, dataType)
  {
  }

  lemma LoadStores(policy: SavePolicy, s: Store, op: Op, default: nat)
    requires Inv(s) && op.GetCurrent? && Legal(op)
    requires Default(s, op.uid, op.dataType) == One(default) && default in s.rows
    ensures var (t, reply) := LoadDefault(policy, s, op, default);
            && Default(t, op.uid, op.dataType) == One(default) && default in t.rows
            && reply.Loaded? && reply.config.Some?
            && Parse(op.k, op.template, t.rows[default].configuration) == reply.config
            && (reply.isNotCompatible ==> reply.config == Some(Reread(op.k, op.template)))
            && SharedIds(t.rows, op.sharedKey, op.dataType) == SharedIds(s.rows, op.sharedKey, op.dataType)
  {
    assert Scoped(s.rows, op.uid, op.dataType);
    PrintedParses(op.k, op.template, op.printed, op.template);
    StoringKeepsDefault(policy, s, op.uid, op.dataType, default, op.printed);
    StoringKeepsKeys(policy, s, default, op.printed, op.sharedKey, op.dataType);
  }

  // The first load of a user makes a default filter that holds the template, and no other.
  lemma FirstLoadMakesDefault(s: Store, uid: string, dataType: string, printed: Json)
    requires Inv(s) && NamesItsFields(printed) && Default(s, uid, dataType) == Nobody
    ensures var t := WithDefault(s, uid, dataType, printed);
            && Default(t, uid, dataType) == One(s.next) && SelectedIds(t.rows, uid, dataType) == {}
            && t.rows.Keys == s.rows.Keys + {s.next} && (forall id :: id in s.rows ==> t.rows[id] == s.rows[id])
            && t.rows[s.next].configuration == printed && t.rows[s.next].sharedKey == None
            && t.rows[s.next].name == "object.filter_configuration.name.default.label"
  {
    WithDefaultKeepsInv(s, uid, dataType, printed);
    assert Scoped(s.rows, uid, dataType);
    assert forall id :: id in s.rows ==> id != s.next;
    PutIds(s.rows, s.next, DefaultRecord(uid, dataType, printed), uid, dataType);
  }

  // What a load shows: the selected filter or, without one, the default filter, when what
  // the default filter holds fits; and the default filter when it does not.
  lemma LoadShows(policy: SavePolicy, s: Store, op: Op)
    requires Inv(s) && op.GetCurrent? && Legal(op) && FindsNone(s, op)
    requires Default(s, op.uid, op.dataType).One? && Default(s, op.uid, op.dataType).id in s.rows
    ensures var default, selected := Default(s, op.uid, op.dataType).id, SelectedIds(s.rows, op.uid, op.dataType);
            var parsed := Parse(op.k, op.template, s.rows[default].configuration);
            var reply := GetCurrentStep(policy, s, op).1;
            && reply.Loaded? && !reply.sharedNotExisting
            && (reply.isNotCompatible <==> parsed.None?)
            && reply.config == (if parsed.Some? then parsed else Some(Reread(op.k, op.template)))
            && (parsed.Some? && selected != {} ==> selected == {reply.shown})
            && (parsed.None? || selected == {} ==> reply.shown == default)
  {
    LoadsDefault(policy, s, op);
    PrintedParses(op.k, op.template, op.printed, op.template);
    assert Scoped(s.rows, op.uid, op.dataType);
  }

  // Loading always gives a configuration: what the default filter holds, where that fits,
  // and the template where it does not. Then what is stored fits, and the same load again
  // gives the same configuration with no fallback.
  lemma LoadHeals(policy: SavePolicy, s: Store, op: Op)
    requires Inv(s) && op.GetCurrent? && Legal(op) && FindsNone(s, op)
    ensures var (t, reply) := GetCurrentStep(policy, s, op);
            var default := Default(t, op.uid, op.dataType);
            && reply.Loaded? && reply.config.Some? && default.One? && default.id in t.rows
            && Parse(op.k, op.template, t.rows[default.id].configuration) == reply.config
            && (reply.isNotCompatible ==> reply.config == Some(Reread(op.k, op.template)))
            && GetCurrentStep(policy, t, op).0 == t
            && GetCurrentStep(policy, t, op).1.Loaded? && GetCurrentStep(policy, t, op).1.config == reply.config
            && !GetCurrentStep(policy, t, op).1.isNotCompatible
  {
    LoadsDefault(policy, s, op);
    DefaultIsNotShared(s, op);
    var s1 := WithDefault(s, op.uid, op.dataType, op.printed);
    var default := Default(s1, op.uid, op.dataType).id;
    LoadStores(policy, s1, op, default);
    GetCurrentKeepsInv(policy, s, op);
    FittingLoads(policy, GetCurrentStep(policy, s, op).0, op, default);
  }

  // So does storing what the page sends: after it the stored configuration fits.
  lemma PersistHeals(policy: SavePolicy, s: Store, op: Op)
    requires Inv(s) && op.Persist? && Legal(op) && Default(s, op.uid, op.dataType).One?
    ensures var (t, reply) := PersistStep(policy, s, op);
            var default := Default(t, op.uid, op.dataType);
            && default.One? && default.id in t.rows
            && Parse(op.k, op.template, t.rows[default.id].configuration)
               == if reply.Persisted? && reply.config.Some? then reply.config else Some(Reread(op.k, op.template))
  {
    var default := Default(s, op.uid, op.dataType).id;
    assert default in DefaultIds(s.rows, op.uid, op.dataType);
    PrintedParses(op.k, op.template, op.printed, op.template);
    StoringKeepsDefault(policy, s, op.uid, op.dataType, default, op.json);
    var s1 := WithConfiguration(policy, s, default, op.json);
    StoringKeepsDefault(policy, s1, op.uid, op.dataType, default, op.printed);
  }

  lemma LoadSharedDeselects(policy: SavePolicy, s: Store, op: Op, default: nat, shared: nat)
    requires Inv(s) && op.GetCurrent? && Complete(op.template) && Live(s, shared)
    requires default in s.rows && Default(s, op.uid, op.dataType) == One(default)
    ensures var json, (t, reply) := s.rows[shared].configuration, LoadShared(policy, s, op, default, shared);
            && Default(t, op.uid, op.dataType) == One(default)
            && default in t.rows && t.rows[default].configuration == json
            && SelectedIds(t.rows, op.uid, op.dataType) == {}
            && var parsed := Parse(op.k, op.template, json);
               var config := if parsed.Some? then parsed else Parse(op.k, op.template, op.printed);
               reply == Loaded(config, default, parsed.None?, false)
  {
    var json := s.rows[shared].configuration;
    var s2 := WithConfiguration(policy, s, default, json);
    UpdateSameRole(policy, s, default, s.rows[default].(configuration := json));
    DeselectKeepsInv(policy, s2, op.uid, op.dataType);
    assert Scoped(s2.rows, op.uid, op.dataType);
  }

  lemma FindsShared(policy: SavePolicy, s: Store, op: Op, shared: nat)
    requires Inv(s) && op.GetCurrent? && Legal(op) && op.sharedKey != ""
    requires SharedIds(s.rows, op.sharedKey, op.dataType) == {shared} && shared in s.rows
    ensures var s1 := WithDefault(s, op.uid, op.dataType, op.printed);
            var default := Default(s1, op.uid, op.dataType);
            && Inv(s1) && default.One? && default.id in s1.rows && shared in s1.rows
            && s1.rows[shared] == s.rows[shared]
            && GetCurrentStep(policy, s, op) == LoadShared(policy, s1, op, default.id, shared)
  {
    PrintedNamesItsFields(op.k, op.template, op.printed);
    WithDefaultKeepsInv(s, op.uid, op.dataType, op.printed);
    var s1 := WithDefault(s, op.uid, op.dataType, op.printed);
    assert Default(s1, op.uid, op.dataType).id in DefaultIds(s1.rows, op.uid, op.dataType);
    DefaultIsNotShared(s, op);
    assert Unique(SharedIds(s.rows, op.sharedKey, op.dataType)) == One(shared);
  }

  // The key of a deleted filter shows what the default filter holds, with a warning. It
  // changes nothing but creating the default filter, and what does not fit stays stored.
  lemma DeletedSharedLoad(policy: SavePolicy, s: Store, op: Op, shared: nat)
    requires Inv(s) && op.GetCurrent? && Legal(op) && op.sharedKey != ""
    requires SharedIds(s.rows, op.sharedKey, op.dataType) == {shared} && shared in s.rows && s.rows[shared].deleted
    ensures var (t, reply) := GetCurrentStep(policy, s, op);
            && (Default(s, op.uid, op.dataType).One? ==> t == s)
            && reply.Loaded? && reply.sharedNotExisting && reply.config.Some?
            && Default(t, op.uid, op.dataType) == One(reply.shown) && reply.shown in t.rows
            && var parsed := Parse(op.k, op.template, t.rows[reply.shown].configuration);
               && (reply.isNotCompatible <==> parsed.None?)
               && reply.config == (if parsed.None? then Some(Reread(op.k, op.template)) else parsed)
  {
    FindsShared(policy, s, op, shared);
    PrintedParses(op.k, op.template, op.printed, op.template);
  }

  // A shared filter that has not been deleted replaces what the user had: nothing is
  // selected any more, the default filter holds the shared configuration, and a
  // configuration is given although what is stored may not fit, and then stays so.
  lemma SharedLoad(policy: SavePolicy, s: Store, op: Op, shared: nat)
    requires Inv(s) && op.GetCurrent? && Legal(op) && op.sharedKey != ""
    requires SharedIds(s.rows, op.sharedKey, op.dataType) == {shared} && Live(s, shared)
    ensures var (t, reply) := GetCurrentStep(policy, s, op);
            && reply.Loaded? && reply.config.Some?
            && Default(t, op.uid, op.dataType) == One(reply.shown) && reply.shown in t.rows
            && SelectedIds(t.rows, op.uid, op.dataType) == {}
            && t.rows[reply.shown].configuration == s.rows[shared].configuration
            && (reply.isNotCompatible <==> Parse(op.k, op.template, s.rows[shared].configuration).None?)
            && reply.config == (if reply.isNotCompatible then Some(Reread(op.k, op.template))
                                else Parse(op.k, op.template, s.rows[shared].configuration))
  {
    var s1 := WithDefault(s, op.uid, op.dataType, op.printed);
    FindsShared(policy, s, op, shared);
    PrintedParses(op.k, op.template, op.printed, op.template);
    LoadSharedDeselects(policy, s1, op, Default(s1, op.uid, op.dataType).id, shared);
  }

  // ---------- Creating, clearing, deleting ----------

  // A new filter is the only selected one.
  lemma CreatedIsSelected(policy: SavePolicy, s: Store, op: Op)
    requires Inv(s) && op.Create? && Default(s, op.uid, op.dataType).One?
    ensures var (t, reply) := CreateStep(policy, s, op);
            var default := Default(s, op.uid, op.dataType);
            && reply == Rendered(s.next) && default.id in s.rows
            && s.next in t.rows && t.rows[s.next] == NewRecord(op, s.rows[default.id].configuration)
            && SelectedIds(t.rows, op.uid, op.dataType) == {s.next} && Default(t, op.uid, op.dataType) == default
  {
    DeselectKeepsInv(policy, s, op.uid, op.dataType);
    var s1 := Deselect(policy, s, Selected(s, op.uid, op.dataType));
    var default := Default(s, op.uid, op.dataType).id;
    assert default in DefaultIds(s.rows, op.uid, op.dataType);
    var r := NewRecord(op, s1.rows[default].configuration);
    PutIds(s1.rows, s1.next, r, op.uid, op.dataType);
    assert s1.next !in DefaultIds(s1.rows, op.uid, op.dataType);
  }

  // It holds what is on the screen, under the given name and key, and is the user's own.
  lemma CreatedHolds(policy: SavePolicy, s: Store, op: Op)
    requires Inv(s) && op.Create? && Default(s, op.uid, op.dataType).One?
    ensures var t, default := CreateStep(policy, s, op).0, Default(s, op.uid, op.dataType).id;
            && default in s.rows && Inv(t)
            && Holds(t, s.next, op.uid, op.dataType, s.rows[default].configuration)
            && t.rows[s.next].name == op.name && t.rows[s.next].sharedKey == Some(op.newKey)
            && t.rows[s.next].isSelected
  {
    CreatedIsSelected(policy, s, op);
    CreateKeepsInv(policy, s, op);
  }

  // So it comes back: after creating a filter, and whatever all users then do but save or
  // delete it, changing to it while there is a default filter puts what was on the screen
  // in the default filter, if it is not selected.
  lemma CreatedFilterSurvives(policy: SavePolicy, s: Store, op: Op, ops: seq<Op>)
    requires Inv(s) && op.Create? && Default(s, op.uid, op.dataType).One? && AllLegal(ops)
    requires forall i :: 0 <= i < |ops| ==> Spares(ops[i], s.next)
    requires Default(Run(policy, CreateStep(policy, s, op).0, ops), op.uid, op.dataType).One?
    ensures var s2 := Run(policy, CreateStep(policy, s, op).0, ops);
            var default, now := Default(s, op.uid, op.dataType).id, Default(s2, op.uid, op.dataType).id;
            var (s3, reply) := ChangeStep(policy, s2, Change(op.uid, s.next));
            && default in s.rows && s.next in s2.rows && now in s2.rows && now in s3.rows
            && var refused := IsRefused(policy, s2.rows[s.next]);
               && reply == (if refused then ServerError else Rendered(s.next))
               && s3.rows[now].configuration ==
                  (if refused then s2.rows[now].configuration else s.rows[default].configuration)
               && SelectedIds(s3.rows, op.uid, op.dataType) == (if s2.rows[s.next].isSelected then {} else {s.next})
  {
    CreatedHolds(policy, s, op);
    var t, json := CreateStep(policy, s, op).0, s.rows[Default(s, op.uid, op.dataType).id].configuration;
    RunHolds(policy, t, ops, s.next, op.uid, op.dataType, json);
    RunKeepsInv(policy, t, ops);
    HeldIsChangedTo(policy, Run(policy, t, ops), op.uid, s.next, op.dataType, json);
  }

  // Editing gives a filter its new name and nothing else.
  lemma EditedIsRenamed(policy: SavePolicy, s: Store, uid: string, id: nat, name: string)
    requires Live(s, id) && s.rows[id].principal == uid && !s.rows[id].isDefault
    ensures var (t, reply) := EditStep(policy, s, Edit(uid, id, name));
            && reply == Rendered(id) && t.rows.Keys == s.rows.Keys && t.next == s.next
            && t.rows[id].name == name
            && t.rows[id] == s.rows[id].(name := name, version := t.rows[id].version)
            && forall i :: i in s.rows && i != id ==> t.rows[i] == s.rows[i]
  {
  }

  // Changing to the default filter selects nothing and keeps what it holds.
  lemma ChangedToDefault(policy: SavePolicy, s: Store, uid: string, id: nat)
    requires Inv(s) && Live(s, id) && s.rows[id].principal == uid && s.rows[id].isDefault
    ensures var dataType := s.rows[id].dataType;
            var (t, reply) := ChangeStep(policy, s, Change(uid, id));
            && reply == Rendered(id) && Inv(t) && SelectedIds(t.rows, uid, dataType) == {}
            && Default(t, uid, dataType) == One(id) && id in t.rows
            && t.rows[id].configuration == s.rows[id].configuration
  {
    var dataType := s.rows[id].dataType;
    assert Scoped(s.rows, uid, dataType);
    assert id in DefaultIds(s.rows, uid, dataType);
    DeselectNamedKeepsInv(policy, s, uid, dataType);
  }

  // So changing to a filter right after creating it leaves nothing selected.
  lemma CreatedThenChangedTo(policy: SavePolicy, s: Store, op: Op)
    requires Inv(s) && op.Create? && Default(s, op.uid, op.dataType).One?
    ensures var t := CreateStep(policy, s, op).0;
            var (u, reply) := ChangeStep(policy, t, Change(op.uid, s.next));
            && SelectedIds(u.rows, op.uid, op.dataType) == {}
            && reply == (if policy == WholeRecord then ServerError else Rendered(s.next))
  {
    CreatedIsSelected(policy, s, op);
    CreateKeepsInv(policy, s, op);
    ChangedTo(policy, CreateStep(policy, s, op).0, op.uid, s.next);
  }

  lemma ClearLeavesNone(policy: SavePolicy, s: Store, op: Op)
    requires Inv(s) && op.Clear? && Default(s, op.uid, op.dataType).One?
    ensures var (t, reply) := ClearStep(policy, s, op);
            && reply == Done && Inv(t) && Default(t, op.uid, op.dataType) == Nobody
            && SelectedIds(t.rows, op.uid, op.dataType) == {}
  {
    DeselectKeepsInv(ChangedFields, s, op.uid, op.dataType);
    var s1 := Deselect(ChangedFields, s, Selected(s, op.uid, op.dataType));
    var default := Default(s1, op.uid, op.dataType).id;
    assert Scoped(s.rows, op.uid, op.dataType) && Scoped(s1.rows, op.uid, op.dataType);
    UpdateIds(policy, s1, default, s1.rows[default].(deleted := true), op.uid, op.dataType);
    ClearKeepsInv(policy, s, op);
  }

  // After clearing, the next load starts from the template, with nothing selected.
  lemma ClearStartsOver(policy: SavePolicy, s: Store, op: Op, load: Op)
    requires Inv(s) && op.Clear? && Default(s, op.uid, op.dataType).One?
    requires load.GetCurrent? && Legal(load) && load.uid == op.uid && load.dataType == op.dataType
    requires FindsNone(ClearStep(policy, s, op).0, load)
    ensures var t := ClearStep(policy, s, op).0;
            var (u, reply) := GetCurrentStep(policy, t, load);
            && reply.Loaded? && reply.config == Some(Reread(load.k, load.template)) && !reply.isNotCompatible
            && SelectedIds(u.rows, op.uid, op.dataType) == {}
  {
    ClearLeavesNone(policy, s, op);
    var t := ClearStep(policy, s, op).0;
    LoadsDefault(policy, t, load);
    WithDefaultKeepsInvFor(t, op.uid, op.dataType, load.k, load.template, load.printed);
    PutIds(t.rows, t.next, DefaultRecord(op.uid, op.dataType, load.printed), op.uid, op.dataType);
    PrintedParses(load.k, load.template, load.printed, load.template);
  }

  // Deleting a filter hides it; when it was the selected one, the default filter is what
  // the user has selected then.
  lemma DeletedFallsBack(policy: SavePolicy, s: Store, op: Op)
    requires Inv(s) && op.Delete? && Denied(s, op.uid, op.id).None?
    ensures var dataType := s.rows[op.id].dataType;
            var t := DeleteStep(policy, s, op).0;
            && !Live(t, op.id) && Default(t, op.uid, dataType) == Default(s, op.uid, dataType)
            && (Default(s, op.uid, dataType).One? ==>
                  DeleteStep(policy, s, op).1 == Rendered(Default(s, op.uid, dataType).id))
            && Selected(t, op.uid, dataType) ==
               (if s.rows[op.id].isSelected then Default(s, op.uid, dataType) else Selected(s, op.uid, dataType))
  {
    var f := s.rows[op.id];
    assert Scoped(s.rows, op.uid, f.dataType);
    UpdateIds(policy, s, op.id, f.(deleted := true), op.uid, f.dataType);
    assert f.isSelected <==> op.id in SelectedIds(s.rows, op.uid, f.dataType);
    assert op.id !in DefaultIds(s.rows, op.uid, f.dataType);
  }

  // ---------- The whole story ----------

  // What a user sees and saves is what the user sees again: the page stores a
  // configuration that fits, the user saves it in a filter, anything happens but saving
  // or deleting that filter, the user changes to it, and loads the page. Only a refused
  // change leaves the page as it was.
  lemma SeenAgain(policy: SavePolicy, s: Store, sent: Op, id: nat, ops: seq<Op>, load: Op)
    requires Inv(s) && sent.Persist? && Legal(sent) && AllLegal(ops)
    requires load.GetCurrent? && Legal(load) && load.uid == sent.uid && load.dataType == sent.dataType
    requires load.template == sent.template && load.k == sent.k
    requires var reply := PersistStep(policy, s, sent).1; reply.Persisted? && reply.config.Some?
    requires var s1 := PersistStep(policy, s, sent).0;
             && SaveStep(policy, s1, Save(sent.uid, id)).1 == Rendered(id)
             && id in s1.rows && s1.rows[id].dataType == sent.dataType
    requires forall i :: 0 <= i < |ops| ==> Spares(ops[i], id)
    requires var s2 := Run(policy, SaveStep(policy, PersistStep(policy, s, sent).0, Save(sent.uid, id)).0, ops);
             && Default(s2, sent.uid, sent.dataType).One?
             && FindsNone(ChangeStep(policy, s2, Change(sent.uid, id)).0, load)
    ensures var s1 := PersistStep(policy, s, sent).0;
            var s2 := Run(policy, SaveStep(policy, s1, Save(sent.uid, id)).0, ops);
            var s3 := ChangeStep(policy, s2, Change(sent.uid, id)).0;
            var reply := GetCurrentStep(policy, s3, load).1;
            && id in s2.rows && reply.Loaded?
            && if IsRefused(policy, s2.rows[id])
               then reply.config == ShownNow(s2, load)
               else reply.config == PersistStep(policy, s, sent).1.config && !reply.isNotCompatible
  {
    var s1 := PersistStep(policy, s, sent).0;
    StepKeepsInv(policy, s, sent);
    PersistHeals(policy, s, sent);
    SavedFilterSurvives(policy, s1, sent.uid, id, ops);
    var s2 := Run(policy, SaveStep(policy, s1, Save(sent.uid, id)).0, ops);
    var s3 := ChangeStep(policy, s2, Change(sent.uid, id)).0;
    LoadsShown(policy, s3, load);
  }

  // What the default filter holds, or the template where that does not fit.
  ghost function ShownNow(s: Store, op: Op): Option<Config>
    requires op.GetCurrent? && Complete(op.template) && Default(s, op.uid, op.dataType).One?
    requires Default(s, op.uid, op.dataType).id in s.rows
  {
    var parsed := Parse(op.k, op.template, s.rows[Default(s, op.uid, op.dataType).id].configuration);
    if parsed.Some? then parsed else Parse(op.k, op.template, op.printed)
  }

  lemma LoadsShown(policy: SavePolicy, s: Store, op: Op)
    requires Inv(s) && op.GetCurrent? && Legal(op) && FindsNone(s, op)
    requires Default(s, op.uid, op.dataType).One? && Default(s, op.uid, op.dataType).id in s.rows
    ensures var reply := GetCurrentStep(policy, s, op).1;
            && reply.Loaded? && reply.config == ShownNow(s, op)
            && (Parse(op.k, op.template, s.rows[Default(s, op.uid, op.dataType).id].configuration).Some?
                ==> !reply.isNotCompatible)
  {
    assert Scoped(s.rows, op.uid, op.dataType);
    LoadsDefault(policy, s, op);
  }
}
