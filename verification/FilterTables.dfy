/**
 The table of stored filters and the objects that are read from it, changed field by
 field and saved back.
 */
module FilterTables {
  import opened Wrappers
  import opened Json
  import opened FilterStores

  class FilterConfiguration {
    var id: Option<nat>
    var deleted: bool
    var principal: string
    var dataType: string
    var name: string
    var configuration: Json
    var isSelected: bool
    var isDefault: bool
    var sharedKey: Option<string>
    var version: nat
    // What the record held when it was last read or written.
    var read: Record

    function AsRecord(): Record
      reads this
    {
      Record(deleted, principal, dataType, name, configuration, isSelected, isDefault, sharedKey,
             version)
    }

    // The object is what the table holds under this id.
    ghost predicate Reads(table: FilterTable, id': nat)
      reads this, table
    {
      id == Some(id') && id' in table.rows && AsRecord() == read == table.rows[id']
    }

    constructor ()
      ensures id == None && !deleted && !isSelected && !isDefault && sharedKey == None && version == 0
    {
      id, deleted, principal, dataType, name := None, false, "", "", "";
      configuration, isSelected, isDefault, sharedKey, version := JNull, false, false, None, 0;
      read := Record(false, "", "", "", JNull, false, false, None, 0);
    }

    constructor Of(id: nat, r: Record)
      ensures this.id == Some(id) && AsRecord() == read == r
    {
      this.id, deleted, principal, dataType, name := Some(id), r.deleted, r.principal, r.dataType, r.name;
      configuration, isSelected, isDefault, sharedKey := r.configuration, r.isSelected, r.isDefault, r.sharedKey;
      version := r.version;
      read := r;
    }

    // A new object is inserted. Any other is written to its record, unless only changes
    // are written and there are none, or the record has got another version meanwhile:
    // that is an exception, and the answer false.
    method Save(table: FilterTable) returns (ok: bool)
      requires id.Some? ==> id.value in table.rows
      modifies this`id, this`version, this`read, table
      ensures AsRecord() == old(AsRecord()).(version := version)
      ensures old(id).None? ==> ok && table.Now() == Insert(old(table.Now()), AsRecord()) && id == Some(old(table.next))
      ensures old(id).None? ==> AsRecord() == old(AsRecord()) == read
      ensures old(id).Some? ==>
                var saved := Saved(table.policy, old(table.rows)[old(id).value], old(read), old(AsRecord()));
                && id == old(id) && ok == saved.Some?
                && table.Now() == (if ok then Put(old(table.Now()), id.value, saved.value) else old(table.Now()))
                && (ok && (table.policy == WholeRecord || old(AsRecord()) != old(read)) ==>
                      AsRecord() == read == saved.value)
      ensures old(id).Some? && (!ok || (table.policy == ChangedFields && old(AsRecord()) == old(read))) ==>
                AsRecord() == old(AsRecord()) && read == old(read)
    {
      ok := true;
      if id.None? {
        id := Some(table.next);
        table.rows := table.rows[table.next := AsRecord()];
        table.next := table.next + 1;
        read := AsRecord();
      } else if table.policy == WholeRecord || AsRecord() != read {
        if table.rows[id.value].version != read.version {
          return false;
        }
        version := read.version + 1;
        table.rows := table.rows[id.value := AsRecord()];
        read := AsRecord();
      } else {
        assert table.Now() == Put(table.Now(), id.value, table.rows[id.value]);
      }
    }

    // Saving right after reading is never refused.
    method SaveAsRead(table: FilterTable)
      requires id.Some? && id.value in table.rows && read == table.rows[id.value] && version == read.version
      modifies this`id, this`version, this`read, table
      ensures id == old(id) && Reads(table, id.value) && AsRecord() == old(AsRecord()).(version := version)
      ensures table.Now() == Update(table.policy, old(table.Now()), id.value, old(AsRecord()))
    {
      var _ := Save(table);
    }

    method SaveUnselected(table: FilterTable)
      requires id.Some? && Reads(table, id.value)
      modifies this, table
      ensures id == old(id) && Reads(table, id.value)
      ensures AsRecord() == old(AsRecord()).(isSelected := false, version := version)
      ensures table.Now() ==
              Update(table.policy, old(table.Now()), id.value, old(table.rows)[id.value].(isSelected := false))
    {
      isSelected := false;
      SaveAsRead(table);
    }

    method SaveConfiguration(table: FilterTable, json: Json)
      requires id.Some? && Reads(table, id.value)
      modifies this, table
      ensures id == old(id) && Reads(table, id.value)
      ensures AsRecord() == old(AsRecord()).(configuration := json, version := version)
      ensures table.Now() == WithConfiguration(table.policy, old(table.Now()), id.value, json)
    {
      configuration := json;
      SaveAsRead(table);
    }

    method DoDelete(table: FilterTable)
      requires id.Some? && Reads(table, id.value)
      modifies this, table
      ensures table.Now() ==
              Update(table.policy, old(table.Now()), old(id.value), old(table.rows)[old(id.value)].(deleted := true))
    {
      deleted := true;
      SaveAsRead(table);
    }

    // Saved only if it was selected.
    method Deselect(table: FilterTable)
      requires id.Some? && Reads(table, id.value)
      modifies this, table
      ensures table.Now() == FilterStores.Deselect(ChangedFields, old(table.Now()), One(old(id.value)))
    {
      if isSelected {
        SaveUnselected(table);
      } else {
        assert table.rows[id.value] == table.rows[id.value].(isSelected := false);
      }
    }
  }

  class FilterTable {
    const policy: SavePolicy
    var rows: Rows
    var next: nat

    function Now(): Store
      reads this
    {
      Store(rows, next)
    }

    constructor (policy: SavePolicy)
      ensures this.policy == policy && Now() == Store(map[], 0)
    {
      this.policy, rows, next := policy, map[], 0;
    }

    method FindUnique(ids: set<nat>) returns (found: Found, f: FilterConfiguration?)
      requires ids <= rows.Keys
      ensures found == Unique(ids) && (f == null <==> !found.One?)
      ensures f != null ==> fresh(f) && f.Reads(this, found.id) && found.id in ids
    {
      if ids == {} {
        return Nobody, null;
      }
      var id :| id in ids;
      if ids == {id} {
        found := One(id);
        f := new FilterConfiguration.Of(id, rows[id]);
      } else {
        found, f := Many, null;
      }
    }

    method GetById(id: nat) returns (f: FilterConfiguration?)
      ensures f == null <==> !Live(Now(), id)
      ensures f != null ==> fresh(f) && f.Reads(this, id)
    {
      if id in rows && !rows[id].deleted {
        f := new FilterConfiguration.Of(id, rows[id]);
      } else {
        f := null;
      }
    }

    method GetSelectedFilterConfiguration(uid: string, dataType: string)
      returns (found: Found, f: FilterConfiguration?)
      ensures found == Selected(Now(), uid, dataType) && (f == null <==> !found.One?)
      ensures f != null ==> fresh(f) && f.Reads(this, found.id)
      ensures f != null ==> !f.deleted && f.principal == uid && f.dataType == dataType && (f.isSelected || f.isDefault)
    {
      found, f := FindUnique(SelectedIds(rows, uid, dataType));
      if found == Nobody {
        found, f := GetDefaultFilterConfiguration(uid, dataType);
      }
    }

    method GetDefaultFilterConfiguration(uid: string, dataType: string)
      returns (found: Found, f: FilterConfiguration?)
      ensures found == Default(Now(), uid, dataType) && (f == null <==> !found.One?)
      ensures f != null ==> fresh(f) && f.Reads(this, found.id)
      ensures f != null ==> !f.deleted && f.principal == uid && f.dataType == dataType && f.isDefault
    {
      found, f := FindUnique(DefaultIds(rows, uid, dataType));
    }

    method GetFilterConfigurationBySharedKey(key: string, dataType: string)
      returns (found: Found, f: FilterConfiguration?)
      ensures found == Unique(SharedIds(rows, key, dataType)) && (f == null <==> !found.One?)
      ensures f != null ==> fresh(f) && f.Reads(this, found.id)
      ensures f != null ==> f.sharedKey == Some(key) && f.dataType == dataType
      ensures found == Nobody ==>
                forall id :: id in rows ==> !(rows[id].sharedKey == Some(key) && rows[id].dataType == dataType)
    {
      found, f := FindUnique(SharedIds(rows, key, dataType));
      assert found == Nobody ==> forall id :: id in rows ==> id !in SharedIds(rows, key, dataType);
    }
  }
}
