/**
 Loading the configuration a user last saw, against a template, and storing the one the
 page sends.
 */
module FilterLoads {
  import opened Wrappers
  import opened Json
  import opened FilterComponents
  import opened FilterViews
  import opened FilterConfigs
  import opened FilterStores
  import opened FilterTables
  import Laws = FilterStoreLaws

  lemma {:induction false} CanList(all: set<string>) returns (s: seq<string>)
    ensures Lists(s, all)
  {
    if all == {} {
      s := [];
    } else {
      var x :| x in all;
      var rest := CanList(all - {x});
      s := rest + [x];
    }
  }

  lemma CanPrint(k: Codec, c: Config) returns (json: Json)
    requires Complete(c) && Printable(k, c)
    ensures IsMarshalled(k, c, json)
  {
    var selectable := CanList(c.selectable.Keys);
    var columns := CanList(c.columns.Keys);
    var meta := JObject(selectable, map id | id in c.selectable :: c.selectable[id].meta);
    var user := JObject(columns, UserFields(k, c));
    DocumentIsMarshalled(k, c, meta, user);
    json := Document(meta, user, c.currentPage, TextArray(RowsShown(c)));
  }

  // The configuration that an object stands for, if it is a valid one.
  ghost function Snapshot(c: FilterConfig): Option<Config>
    reads c, c.selectableColumns, c.userColumnConfigurations.Values
  {
    if c.Valid() then Some(c.View()) else None
  }

  // What reading a document against a template gave: null where it does not fit.
  ghost function Given(c: FilterConfig?): Option<Config>
    reads c, if c == null then {} else {c.selectableColumns}
    reads if c == null then {} else c.userColumnConfigurations.Values
  {
    if c == null then None else Snapshot(c)
  }

  ghost function ShownBy(c: FilterConfig?): Option<nat>
    reads c
  {
    if c == null then None else c.selectedFilterConfiguration
  }

  // What a template stands for that can be printed, and its text read.
  ghost function Usable(template: FilterConfig, k: Codec): (r: Option<Config>)
    reads template, template.selectableColumns, template.userColumnConfigurations.Values
    ensures r.Some? ==> Complete(r.value)
  {
    if template.Valid() && Printable(k, template.View()) && Rereads(k, template.View()) then Some(template.View())
    else None
  }

  // A template that was only given columns is usable if and only if its default dates are
  // not null and read back.
  lemma BuiltTemplateIsUsableIff(template: FilterConfig, k: Codec)
    requires template.Valid() && HoldsDefaults(template.View())
    ensures var view := template.View();
            Usable(template, k) == Some(view) <==>
            forall id :: id in view.columns ==>
              && !HasNullDate(view.selectable[id].component)
              && DatesParse(k, view.selectable[id].component, view.columns[id].value)
  {
    TemplatePrintsIff(k, template.View());
  }

  // The texts that it may print: the order of its parts is not fixed.
  ghost function PrintsOf(k: Codec, view: Config): iset<Json>
    requires Complete(view)
  {
    iset json | IsMarshalled(k, view, json)
  }

  method Print(template: FilterConfig, k: Codec, ghost view: Config) returns (json: Json)
    requires Usable(template, k) == Some(view)
    ensures Complete(view) && json in PrintsOf(k, view) && NamesItsFields(json)
    ensures Parse(k, view, json) == Some(Reread(k, view))
  {
    var printed := template.Marshall(k);
    json := printed.value;
    Laws.PrintedNamesItsFields(k, view, json);
    PrintedParses(k, view, json, view);
  }

  method Read(template: FilterConfig, k: Codec, json: Json, shown: Option<nat>, ghost view: Config)
    returns (config: FilterConfig?)
    requires Usable(template, k) == Some(view) && NamesItsFields(json)
    ensures Given(config) == Parse(k, view, json)
    ensures config == null <==> Parse(k, view, json).None?
    ensures config != null ==> fresh(config) && config.selectedFilterConfiguration == shown
    ensures config != null ==> config.selectableColumns == template.selectableColumns
  {
    config := template.ParseResponse(k, json, shown);
  }

  method InsertDefault(table: FilterTable, uid: string, dataType: string, json: Json) returns (f: FilterConfiguration)
    modifies table
    ensures table.Now() == Insert(old(table.Now()), DefaultRecord(uid, dataType, json))
    ensures fresh(f) && f.Reads(table, old(table.next))
  {
    f := new FilterConfiguration();
    f.configuration := json;
    f.dataType := dataType;
    f.isDefault := true;
    f.isSelected := false;
    f.name := "object.filter_configuration.name.default.label";
    f.principal := uid;
    var _ := f.Save(table);
  }

  // A user's default filter, made from the template where there is none.
  method EnsureDefault(template: FilterConfig, k: Codec, table: FilterTable, uid: string, dataType: string,
                       ghost view: Config, ghost printed0: Json)
    returns (found: Found, defaultFilter: FilterConfiguration?, ghost printed: Json)
    requires Usable(template, k) == Some(view) && printed0 in PrintsOf(k, view)
    modifies table
    ensures printed in PrintsOf(k, view)
    ensures table.Now() == WithDefault(old(table.Now()), uid, dataType, printed)
    ensures var default := Default(old(table.Now()), uid, dataType);
            found == if default == Nobody then One(old(table.next)) else default
    ensures defaultFilter == null <==> !found.One?
    ensures defaultFilter != null ==> fresh(defaultFilter) && defaultFilter.Reads(table, found.id)
  {
    printed := printed0;
    found, defaultFilter := table.GetDefaultFilterConfiguration(uid, dataType);
    if found == Nobody {
      var json := Print(template, k, view);
      printed, found := json, One(table.next);
      defaultFilter := InsertDefault(table, uid, dataType, json);
    }
  }

  // The default filter takes over the configuration and nothing stays selected.
  method ShareInto(table: FilterTable, uid: string, dataType: string, defaultFilter: FilterConfiguration, json: Json,
                   ghost default: nat)
    returns (ok: bool)
    requires defaultFilter.Reads(table, default)
    modifies table, defaultFilter
    ensures defaultFilter.id == Some(default) && defaultFilter.configuration == json
    ensures var s1 := WithConfiguration(table.policy, old(table.Now()), default, json);
            var selected := Selected(s1, uid, dataType);
            ok == (selected != Many) && table.Now() == if ok then Deselect(table.policy, s1, selected) else s1
  {
    defaultFilter.SaveConfiguration(table, json);
    var found, selectedFilter := table.GetSelectedFilterConfiguration(uid, dataType);
    ok := found != Many;
    if selectedFilter != null {
      selectedFilter.SaveUnselected(table);
    }
  }

  method ReadTemplate(template: FilterConfig, k: Codec, shown: nat, ghost view: Config, ghost printed: Json)
    returns (config: FilterConfig?)
    requires Usable(template, k) == Some(view) && printed in PrintsOf(k, view)
    ensures Given(config) == Parse(k, view, printed)
    ensures config != null && config.selectedFilterConfiguration == Some(shown)
  {
    var json := Print(template, k, view);
    PrintedParses(k, view, printed, view);
    config := Read(template, k, json, Some(shown), view);
  }

  // What is stored or, where that does not fit, the template.
  method ReadOrTemplate(template: FilterConfig, k: Codec, json: Json, shown: nat,
                        ghost view: Config, ghost printed: Json)
    returns (config: FilterConfig?, isNotCompatible: bool)
    requires Usable(template, k) == Some(view)
    requires NamesItsFields(json) && printed in PrintsOf(k, view)
    ensures isNotCompatible <==> Parse(k, view, json).None?
    ensures Given(config) == (if isNotCompatible then Parse(k, view, printed) else Parse(k, view, json))
    ensures config != null && config.selectedFilterConfiguration == Some(shown)
  {
    isNotCompatible := false;
    config := Read(template, k, json, Some(shown), view);
    if config == null {
      isNotCompatible := true;
      config := ReadTemplate(template, k, shown, view, printed);
    }
  }

  // A failed load is an exception; any other gives a configuration.
  ghost function Answer(failed: bool, config: FilterConfig?, isNotCompatible: bool, sharedNotExisting: bool): Reply
    reads config, if config == null then {} else {config.selectableColumns}
    reads if config == null then {} else config.userColumnConfigurations.Values
  {
    if failed || ShownBy(config).None? then Exception
    else Loaded(Given(config), ShownBy(config).value, isNotCompatible, sharedNotExisting)
  }

  method LoadSharedFilter(template: FilterConfig, k: Codec, table: FilterTable, uid: string, dataType: string,
                          defaultFilter: FilterConfiguration, sharedFilter: FilterConfiguration,
                          ghost default: nat, ghost shared: nat, ghost op: Op)
    returns (failed: bool, config: FilterConfig?, isNotCompatible: bool, sharedNotExisting: bool)
    requires op.GetCurrent? && Legal(op) && op.uid == uid && op.dataType == dataType && op.k == k
    requires Usable(template, k) == Some(op.template) && Laws.Inv(table.Now())
    requires defaultFilter.Reads(table, default) && sharedFilter.Reads(table, shared) && defaultFilter != sharedFilter
    modifies table, defaultFilter
    ensures (table.Now(), Answer(failed, config, isNotCompatible, sharedNotExisting)) ==
            LoadShared(table.policy, old(table.Now()), op, default, shared)
    ensures failed || config != null
  {
    failed, config, isNotCompatible, sharedNotExisting := false, null, false, sharedFilter.deleted;
    if !sharedFilter.deleted {
      var ok := ShareInto(table, uid, dataType, defaultFilter, sharedFilter.configuration, default);
      if !ok {
        return true, null, false, false;
      }
    }
    config, isNotCompatible :=
      ReadOrTemplate(template, k, defaultFilter.configuration, defaultFilter.id.value, op.template, op.printed);
  }

  // The template takes the place of what is stored.
  method Heal(template: FilterConfig, k: Codec, table: FilterTable, defaultFilter: FilterConfiguration,
              ghost default: nat, ghost view: Config)
    returns (config: FilterConfig?, ghost printed: Json)
    requires Usable(template, k) == Some(view)
    requires defaultFilter.Reads(table, default)
    modifies table, defaultFilter
    ensures Complete(view) && printed in PrintsOf(k, view)
    ensures table.Now() == WithConfiguration(table.policy, old(table.Now()), default, printed)
    ensures Given(config) == Parse(k, view, printed)
    ensures config != null && config.selectedFilterConfiguration == Some(default)
  {
    printed := StoreTemplate(template, k, table, defaultFilter, default, view);
    config := Read(template, k, defaultFilter.configuration, defaultFilter.id, view);
  }

  // What is stored or, where that does not fit, the template, which then is stored.
  method ReadOrHeal(template: FilterConfig, k: Codec, table: FilterTable, defaultFilter: FilterConfiguration,
                    shown: Option<nat>, ghost default: nat, ghost view: Config, ghost printed0: Json)
    returns (config: FilterConfig?, isNotCompatible: bool, ghost printed: Json)
    requires Usable(template, k) == Some(view) && printed0 in PrintsOf(k, view)
    requires defaultFilter.Reads(table, default) && NamesItsFields(defaultFilter.configuration)
    modifies table, defaultFilter
    ensures printed in PrintsOf(k, view)
    ensures isNotCompatible <==> Parse(k, view, old(defaultFilter.configuration)).None?
    ensures !isNotCompatible ==> printed == printed0 && table.Now() == old(table.Now())
    ensures isNotCompatible ==> table.Now() == WithConfiguration(table.policy, old(table.Now()), default, printed)
    ensures Given(config) == Parse(k, view, if isNotCompatible then printed else old(defaultFilter.configuration))
    ensures ShownBy(config) == if isNotCompatible then Some(default) else shown
    ensures config != null
  {
    isNotCompatible, printed := false, printed0;
    config := Read(template, k, defaultFilter.configuration, shown, view);
    if config == null {
      isNotCompatible := true;
      config, printed := Heal(template, k, table, defaultFilter, default, view);
    }
  }

  method LoadDefaultFilter(template: FilterConfig, k: Codec, table: FilterTable, uid: string, dataType: string,
                           defaultFilter: FilterConfiguration, ghost default: nat, ghost op: Op)
    returns (failed: bool, config: FilterConfig?, isNotCompatible: bool, ghost printed: Json)
    requires op.GetCurrent? && Legal(op) && op.uid == uid && op.dataType == dataType && op.k == k
    requires Usable(template, k) == Some(op.template) && Laws.Inv(table.Now())
    requires defaultFilter.Reads(table, default) && Default(table.Now(), uid, dataType) == One(default)
    modifies table, defaultFilter
    ensures printed in PrintsOf(k, op.template)
    ensures var op' := Op.GetCurrent(uid, dataType, op.sharedKey, k, op.template, printed);
            (table.Now(), Answer(failed, config, isNotCompatible, false)) ==
            LoadDefault(table.policy, old(table.Now()), op', default)
    ensures failed || config != null
    ensures Parse(k, op.template, old(table.rows)[default].configuration).Some? ==> printed == op.printed
  {
    failed, config, isNotCompatible, printed := false, null, false, op.printed;
    var found, selectedFilter := table.GetSelectedFilterConfiguration(uid, dataType);
    if selectedFilter == null {
      return true, null, false, printed;
    }
    config, isNotCompatible, printed :=
      ReadOrHeal(template, k, table, defaultFilter, selectedFilter.id, default, op.template, op.printed);
  }

  // The load, once there is a default filter.
  method Load(template: FilterConfig, k: Codec, table: FilterTable, uid: string, dataType: string, sharedKey: string,
              defaultFilter: FilterConfiguration, ghost default: nat, ghost op: Op)
    returns (failed: bool, config: FilterConfig?, isNotCompatible: bool, sharedNotExisting: bool, ghost printed: Json)
    requires op.GetCurrent? && op == Op.GetCurrent(uid, dataType, sharedKey, k, op.template, op.printed) && Legal(op)
    requires Usable(template, k) == Some(op.template) && Laws.Inv(table.Now())
    requires defaultFilter.Reads(table, default) && Default(table.Now(), uid, dataType) == One(default)
    modifies table, defaultFilter
    ensures printed in PrintsOf(k, op.template)
    ensures var op' := Op.GetCurrent(uid, dataType, sharedKey, k, op.template, printed);
            (table.Now(), Answer(failed, config, isNotCompatible, sharedNotExisting)) ==
            LoadStep(table.policy, old(table.Now()), op', default)
    ensures failed || config != null
    ensures Parse(k, op.template, old(table.rows)[default].configuration).Some? ==> printed == op.printed
  {
    failed, config, isNotCompatible, sharedNotExisting, printed := false, null, false, false, op.printed;
    var shared, sharedFilter := Nobody, null;
    if sharedKey != "" {
      shared, sharedFilter := table.GetFilterConfigurationBySharedKey(sharedKey, dataType);
      if shared == Many {
        return true, null, false, false, printed;
      }
    }
    if sharedFilter != null {
      failed, config, isNotCompatible, sharedNotExisting :=
        LoadSharedFilter(template, k, table, uid, dataType, defaultFilter, sharedFilter, default, shared.id, op);
    } else {
      failed, config, isNotCompatible, printed :=
        LoadDefaultFilter(template, k, table, uid, dataType, defaultFilter, default, op);
    }
  }

  // The configuration that a user last saw. A shared key, if the request has one and it
  // is known, replaces it. `printed` is the text of the template that was stored, if any.
  method GetCurrent(template: FilterConfig, k: Codec, table: FilterTable, uid: string, dataType: string,
                    sharedKey: string, ghost view: Config)
    returns (failed: bool, config: FilterConfig?, isNotCompatible: bool, sharedNotExisting: bool, ghost printed: Json)
    requires Usable(template, k) == Some(view) && Laws.Inv(table.Now())
    modifies table
    ensures printed in PrintsOf(k, view)
    ensures var op := Op.GetCurrent(uid, dataType, sharedKey, k, view, printed);
            (table.Now(), Answer(failed, config, isNotCompatible, sharedNotExisting)) ==
            GetCurrentStep(table.policy, old(table.Now()), op)
    ensures failed || config != null
  {
    ghost var printed0 := CanPrint(k, view);
    var found, defaultFilter;
    found, defaultFilter, printed0 := EnsureDefault(template, k, table, uid, dataType, view, printed0);
    if defaultFilter == null {
      return true, null, false, false, printed0;
    }
    ghost var op := Op.GetCurrent(uid, dataType, sharedKey, k, view, printed0);
    LoadIsLegal(op);
    ReadyToLoad(old(table.Now()), op);
    failed, config, isNotCompatible, sharedNotExisting, printed :=
      Load(template, k, table, uid, dataType, sharedKey, defaultFilter, found.id, op);
    LoadsWith(table.policy, old(table.Now()), op, printed);
  }

  // So a load is one of the steps that a run may take.
  lemma LoadIsLegal(op: Op)
    requires op.GetCurrent? && Complete(op.template) && Printable(op.k, op.template) && Rereads(op.k, op.template)
    requires op.printed in PrintsOf(op.k, op.template)
    ensures Legal(op)
  {
  }

  lemma ReadyToLoad(s: Store, op: Op)
    requires Laws.Inv(s) && op.GetCurrent? && Legal(op)
    ensures var s1 := WithDefault(s, op.uid, op.dataType, op.printed);
            && Laws.Inv(s1)
            && Default(s1, op.uid, op.dataType) ==
               if Default(s, op.uid, op.dataType) == Nobody then One(s.next) else Default(s, op.uid, op.dataType)
  {
    Laws.WithDefaultKeepsInvFor(s, op.uid, op.dataType, op.k, op.template, op.printed);
  }

  // A load that stored another text of the template did not make the default filter.
  lemma LoadsWith(policy: SavePolicy, s: Store, op: Op, printed: Json)
    requires Laws.Inv(s) && op.GetCurrent? && Legal(op)
    requires var s1 := WithDefault(s, op.uid, op.dataType, op.printed);
             var default := Default(s1, op.uid, op.dataType);
             && default.One?
             && (Parse(op.k, op.template, s1.rows[default.id].configuration).Some? ==> printed == op.printed)
    ensures var s1 := WithDefault(s, op.uid, op.dataType, op.printed);
            var op' := Op.GetCurrent(op.uid, op.dataType, op.sharedKey, op.k, op.template, printed);
            GetCurrentStep(policy, s, op') == LoadStep(policy, s1, op', Default(s1, op.uid, op.dataType).id)
  {
    ReadyToLoad(s, op);
    PrintedParses(op.k, op.template, op.printed, op.template);
  }

  method StoreTemplate(template: FilterConfig, k: Codec, table: FilterTable, defaultFilter: FilterConfiguration,
                       ghost default: nat, ghost view: Config)
    returns (ghost printed: Json)
    requires Usable(template, k) == Some(view) && defaultFilter.Reads(table, default)
    modifies table, defaultFilter
    ensures Complete(view) && printed in PrintsOf(k, view)
    ensures NamesItsFields(printed) && Parse(k, view, printed).Some?
    ensures defaultFilter.Reads(table, default) && defaultFilter.configuration == printed
    ensures table.Now() == WithConfiguration(table.policy, old(table.Now()), default, printed)
  {
    var json := Print(template, k, view);
    printed := json;
    defaultFilter.SaveConfiguration(table, json);
  }

  // The page's configuration is stored before it is read; null when it does not fit.
  method PersistCurrentInDefault(template: FilterConfig, k: Codec, table: FilterTable, uid: string, dataType: string,
                                 json: Json, ghost view: Config)
    returns (failed: bool, config: FilterConfig?, ghost printed: Json)
    requires Usable(template, k) == Some(view) && NamesItsFields(json)
    modifies table
    ensures var op := Persist(uid, dataType, json, k, view, printed);
            && Legal(op)
            && (table.Now(), if failed then Exception else Persisted(Given(config))) ==
               PersistStep(table.policy, old(table.Now()), op)
  {
    printed := CanPrint(k, view);
    failed, config := false, null;
    var found, defaultFilter := table.GetDefaultFilterConfiguration(uid, dataType);
    if defaultFilter == null {
      return true, null, printed;
    }
    config, printed := PersistIn(template, k, table, defaultFilter, found.id, json, view, printed);
  }

  method SaveAndRead(template: FilterConfig, k: Codec, table: FilterTable, defaultFilter: FilterConfiguration,
                     ghost default: nat, json: Json, ghost view: Config)
    returns (config: FilterConfig?)
    requires Usable(template, k) == Some(view) && defaultFilter.Reads(table, default) && NamesItsFields(json)
    modifies table, defaultFilter
    ensures Given(config) == Parse(k, view, json) && (config == null <==> Parse(k, view, json).None?)
    ensures Usable(template, k) == Some(view) && defaultFilter.Reads(table, default)
    ensures table.Now() == WithConfiguration(table.policy, old(table.Now()), default, json)
  {
    defaultFilter.SaveConfiguration(table, json);
    config := Read(template, k, json, None, view);
  }

  method PersistIn(template: FilterConfig, k: Codec, table: FilterTable, defaultFilter: FilterConfiguration,
                   ghost default: nat, json: Json, ghost view: Config, ghost printed0: Json)
    returns (config: FilterConfig?, ghost printed: Json)
    requires Usable(template, k) == Some(view) && printed0 in PrintsOf(k, view)
    requires defaultFilter.Reads(table, default) && NamesItsFields(json)
    modifies table, defaultFilter
    ensures printed in PrintsOf(k, view) && Given(config) == Parse(k, view, json)
    ensures var s1 := WithConfiguration(table.policy, old(table.Now()), default, json);
            table.Now() == if Parse(k, view, json).Some? then s1
                           else WithConfiguration(table.policy, s1, default, printed)
  {
    printed := printed0;
    config := SaveAndRead(template, k, table, defaultFilter, default, json, view);
    if config != null {
      return;
    }
    printed := StoreTemplate(template, k, table, defaultFilter, default, view);
  }
}
