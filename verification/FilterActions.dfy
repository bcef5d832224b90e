/**
 The actions of the filter controller: each reads records, changes fields and saves, in
 the order of its code.
 */
module FilterActions {
  import opened Wrappers
  import opened FilterStores
  import opened FilterTables

  class FilterConfigController {
    const table: FilterTable

    constructor (table: FilterTable)
      ensures this.table == table
    {
      this.table := table;
    }

    method FilterConfigurationCreate(uid: string, dataType: string, name: string, sharedKey: string)
      returns (r: Reply)
      modifies table
      ensures (table.Now(), r) == CreateStep(table.policy, old(table.Now()), Create(uid, dataType, name, sharedKey))
    {
      var found, selectedFilter := table.GetSelectedFilterConfiguration(uid, dataType);
      if found == Many {
        return ServerError;
      }
      if selectedFilter != null {
        selectedFilter.SaveUnselected(table);
      }
      var _, defaultFilter := table.GetDefaultFilterConfiguration(uid, dataType);
      if defaultFilter == null {
        return ServerError;
      }
      var newFilter := new FilterConfiguration();
      newFilter.configuration := defaultFilter.configuration;
      newFilter.dataType := dataType;
      newFilter.isDefault := false;
      newFilter.isSelected := true;
      newFilter.name := name;
      newFilter.principal := uid;
      newFilter.sharedKey := Some(sharedKey);
      assert newFilter.AsRecord() ==
             NewRecord(Create(uid, dataType, name, sharedKey), defaultFilter.configuration);
      var _ := newFilter.Save(table);
      r := Rendered(newFilter.id.value);
    }

    method FilterConfigurationSave(uid: string, id: nat) returns (r: Reply)
      modifies table
      ensures (table.Now(), r) == SaveStep(table.policy, old(table.Now()), Save(uid, id))
    {
      var selectedFilter := table.GetById(id);
      if selectedFilter == null {
        return ServerError;
      }
      if selectedFilter.principal != uid || selectedFilter.isDefault {
        return Forbidden;
      }
      var _, defaultFilter := table.GetDefaultFilterConfiguration(uid, selectedFilter.dataType);
      if defaultFilter == null {
        return ServerError;
      }
      selectedFilter.SaveConfiguration(table, defaultFilter.configuration);
      r := Rendered(id);
    }

    method FilterConfigurationClear(uid: string, dataType: string) returns (r: Reply)
      modifies table
      ensures (table.Now(), r) == ClearStep(table.policy, old(table.Now()), Clear(uid, dataType))
    {
      var _, selectedFilter := table.GetSelectedFilterConfiguration(uid, dataType);
      if selectedFilter == null {
        return Exception;
      }
      selectedFilter.Deselect(table);
      var _, defaultFilter := table.GetDefaultFilterConfiguration(uid, dataType);
      if defaultFilter == null {
        return Exception;
      }
      defaultFilter.DoDelete(table);
      r := Done;
    }

    method FilterConfigurationChange(uid: string, id: nat) returns (r: Reply)
      modifies table
      ensures (table.Now(), r) == ChangeStep(table.policy, old(table.Now()), Change(uid, id))
    {
      var selectedFilter := table.GetById(id);
      if selectedFilter == null {
        return ServerError;
      }
      if selectedFilter.principal != uid {
        return Forbidden;
      }
      var _, oldSelectedFilter := table.GetSelectedFilterConfiguration(uid, selectedFilter.dataType);
      if oldSelectedFilter == null {
        return ServerError;
      }
      if !oldSelectedFilter.isDefault {
        oldSelectedFilter.SaveUnselected(table);
      }
      if !selectedFilter.isDefault {
        selectedFilter.isSelected := true;
        var ok := selectedFilter.Save(table);
        if !ok {
          return ServerError;
        }
      }
      if !selectedFilter.isDefault {
        var _, defaultFilter := table.GetDefaultFilterConfiguration(uid, selectedFilter.dataType);
        if defaultFilter == null {
          return ServerError;
        }
        defaultFilter.SaveConfiguration(table, selectedFilter.configuration);
      }
      r := Rendered(id);
    }

    method FilterConfigurationEdit(uid: string, id: nat, name: string) returns (r: Reply)
      modifies table
      ensures (table.Now(), r) == EditStep(table.policy, old(table.Now()), Edit(uid, id, name))
    {
      var selectedFilter := table.GetById(id);
      if selectedFilter == null {
        return ServerError;
      }
      if selectedFilter.principal != uid || selectedFilter.isDefault {
        return Forbidden;
      }
      selectedFilter.name := name;
      selectedFilter.SaveAsRead(table);
      r := Rendered(id);
    }

    method FilterConfigurationDelete(uid: string, id: nat) returns (r: Reply)
      modifies table
      ensures (table.Now(), r) == DeleteStep(table.policy, old(table.Now()), Delete(uid, id))
    {
      var selectedFilter := table.GetById(id);
      if selectedFilter == null {
        return ServerError;
      }
      if selectedFilter.principal != uid || selectedFilter.isDefault {
        return Forbidden;
      }
      var default, defaultFilter := table.GetDefaultFilterConfiguration(uid, selectedFilter.dataType);
      if default == Many {
        return ServerError;
      }
      selectedFilter.DoDelete(table);
      r := if defaultFilter == null then ServerError else Rendered(default.id);
    }
  }
}
