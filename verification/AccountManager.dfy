/**
 The account manager: each operation as the sequence of cache, database and
 back-end calls that it makes, with explicit transactions. Any external call may
 throw; `fuse` says how many will still succeed. Every method is proved to have the
 effect of one step of the model.
 */
module AccountManager {
  import opened Wrappers
  import opened AccountModel
  import opened UserAccounts

  class Manager {
    const config: Config
    var principals: map<string, Principal>
    var backend: map<string, Profile>
    var cache: map<string, View>
    var fuse: nat
    // What a rollback brings back; there is no open transaction when it is None.
    var saved: Option<State>

    constructor (config: Config)
      ensures this.config == config && Idle() && Now() == State(map[], map[], map[])
    {
      this.config := config;
      principals, backend, cache, fuse, saved := map[], map[], map[], 0, None;
    }

    ghost function Now(): State
      reads this
    {
      State(principals, backend, cache)
    }

    ghost predicate Idle()
      reads this
    {
      saved.None?
    }

    ghost predicate Replies(before: State, fuse: nat, op: Op, r: Reply)
      reads this
    {
      Idle() && Outcome(Now(), r) == Step(config, before, op, fuse)
    }

    // ---------- The external services ----------

    method External() returns (ok: bool)
      modifies this`fuse
      ensures ok <==> old(fuse) > 0
      ensures fuse == if ok then old(fuse) - 1 else 0
    {
      ok := fuse > 0;
      if ok {
        fuse := fuse - 1;
      }
    }

    method BeginTransaction()
      requires Idle()
      modifies this`saved
      ensures saved == Some(Now())
    {
      saved := Some(State(principals, backend, cache));
    }

    method CommitTransaction()
      modifies this`saved
      ensures Idle()
    {
      saved := None;
    }

    // The cache never takes part, the back-end only if it shares the database.
    method RollbackTransaction()
      modifies this`saved, this`principals, this`backend
      ensures Idle()
      ensures old(saved).Some? ==>
                && principals == old(saved).value.principals
                && backend == if config.backendInTransaction then old(saved).value.backend else old(backend)
      ensures old(saved).None? ==> Now() == old(Now())
    {
      if saved.Some? {
        principals := saved.value.principals;
        if config.backendInTransaction {
          backend := saved.value.backend;
        }
      }
      saved := None;
    }

    // Saving a principal writes its own columns; the role rows are saved on their own.
    method SavePrincipal(uid: string, p: Principal) returns (ok: bool)
      modifies this`fuse, this`principals
      ensures ok <==> old(fuse) > 0
      ensures fuse == if ok then old(fuse) - 1 else 0
      ensures principals == if !ok then old(principals)
                            else var roles := if uid in old(principals) then old(principals)[uid].roles else [];
                                 old(principals)[uid := p.(roles := roles)]
    {
      ok := External();
      if ok {
        principals := principals[uid := p.(roles := if uid in principals then principals[uid].roles else [])];
      }
    }

    method WriteProfile(uid: string, profile: Profile, mustExist: bool) returns (ok: bool)
      modifies this`fuse, this`backend
      ensures ok <==> old(fuse) > 0 && (uid in old(backend) <==> mustExist)
      ensures ok ==> fuse == old(fuse) - 1
      ensures backend == if ok then old(backend)[uid := profile] else old(backend)
    {
      ok := External();
      if ok {
        if (uid in backend) == mustExist {
          backend := backend[uid := profile];
        } else {
          ok := false;
        }
      }
    }

    method InvalidateUserAccountCache(uid: string)
      modifies this`cache
      ensures Now() == Invalidate(old(Now()), uid)
    {
      cache := cache - {uid};
    }

    // ---------- Role rows ----------

    method InsertRole(uid: string, role: RoleType) returns (ok: bool)
      requires uid in principals
      modifies this`fuse, this`principals
      ensures ok <==> old(fuse) > 0
      ensures fuse == if ok then old(fuse) - 1 else 0
      ensures Now() == if ok then old(WithRows(Now(), uid, principals[uid].roles + [role])) else old(Now())
    {
      ok := External();
      if ok {
        principals := principals[uid := principals[uid].(roles := principals[uid].roles + [role])];
      }
    }

    method DeleteRole(uid: string, role: RoleType) returns (ok: bool)
      requires uid in principals
      modifies this`fuse, this`principals
      ensures ok <==> old(fuse) > 0
      ensures fuse == if ok then old(fuse) - 1 else 0
      ensures Now() == if ok then old(WithRows(Now(), uid, DeleteRow(principals[uid].roles, role))) else old(Now())
    {
      ok := External();
      if ok {
        principals := principals[uid := principals[uid].(roles := DeleteRow(principals[uid].roles, role))];
      }
    }

    ghost function Rows(uid: string, ok: bool): Tally
      requires uid in principals
      reads this
    {
      Tally(principals[uid].roles, fuse, ok)
    }

    // An unknown role throws: it is compared with a live role, or else its row is refused.
    method AddSystemLevelRole(uid: string, loaded: seq<RoleType>, role: Option<RoleType>) returns (ok: bool)
      requires uid in principals
      modifies this`fuse, this`principals
      ensures uid in principals
      ensures Rows(uid, ok) == AddOne(loaded, role, old(Rows(uid, true)))
      ensures Now() == WithRows(old(Now()), uid, principals[uid].roles)
    {
      if role.None? {
        return false;
      }
      var held := CheckSystemLevelRoleExists(loaded, role.value.name);
      if held {
        return true;
      }
      ok := InsertRole(uid, role.value);
    }

    method CheckSystemLevelRoleExists(loaded: seq<RoleType>, name: string) returns (held: bool)
      ensures held == HoldsName(loaded, name)
    {
      for i := 0 to |loaded|
        invariant !HoldsName(loaded[..i], name)
      {
        if !loaded[i].deleted && loaded[i].name == name {
          return true;
        }
        assert loaded[..i + 1] == loaded[..i] + [loaded[i]];
      }
      assert loaded[..|loaded|] == loaded;
      return false;
    }

    method AddRolesOneByOne(uid: string, loaded: seq<RoleType>, wanted: seq<Option<RoleType>>) returns (ok: bool)
      requires uid in principals
      modifies this`fuse, this`principals
      ensures uid in principals
      ensures Rows(uid, ok) == AddAll(loaded, wanted, old(Rows(uid, true)))
      ensures Now() == WithRows(old(Now()), uid, principals[uid].roles)
    {
      ok := true;
      var i := 0;
      while ok && i < |wanted|
        invariant i <= |wanted| && uid in principals
        invariant Rows(uid, ok) == AddAll(loaded, wanted[..i], old(Rows(uid, true)))
        invariant Now() == WithRows(old(Now()), uid, principals[uid].roles)
      {
        assert wanted[..i + 1][..i] == wanted[..i];
        ok := AddSystemLevelRole(uid, loaded, wanted[i]);
        i := i + 1;
      }
      AddAllStopped(loaded, wanted, i, old(Rows(uid, true)));
      assert wanted[..|wanted|] == wanted;
    }

    method RemoveSystemLevelRole(uid: string, loaded: seq<RoleType>, role: Option<RoleType>) returns (ok: bool)
      requires uid in principals
      modifies this`fuse, this`principals
      ensures uid in principals
      ensures Rows(uid, ok) == RemoveOne(loaded, role, old(Rows(uid, true)))
      ensures Now() == WithRows(old(Now()), uid, principals[uid].roles)
    {
      if role.None? {
        ok := AllDeleted(loaded);
      } else {
        ok := RemoveRolesNamed(uid, loaded, role.value.name);
      }
    }

    method RemoveRolesNamed(uid: string, loaded: seq<RoleType>, name: string) returns (ok: bool)
      requires uid in principals
      modifies this`fuse, this`principals
      ensures uid in principals
      ensures Rows(uid, ok) == DropEach(Named(loaded, name), old(Rows(uid, true)))
      ensures Now() == WithRows(old(Now()), uid, principals[uid].roles)
    {
      ok := true;
      var i := 0;
      ghost var before, start := Now(), Rows(uid, true);
      assert before == WithRows(before, uid, principals[uid].roles);
      while ok && i < |loaded|
        invariant i <= |loaded| && uid in principals
        invariant Rows(uid, ok) == DropEach(Named(loaded[..i], name), start)
        invariant Now() == WithRows(before, uid, principals[uid].roles)
      {
        NamedNext(loaded, i, name, start);
        if !loaded[i].deleted && loaded[i].name == name {
          WithRowsTwice(before, uid, principals[uid].roles, DeleteRow(principals[uid].roles, loaded[i]));
          ok := DeleteRole(uid, loaded[i]);
        }
        i := i + 1;
      }
      NamedStopped(loaded, i, name, start);
    }

    method RemoveRolesOneByOne(uid: string, loaded: seq<RoleType>, wanted: seq<Option<RoleType>>) returns (ok: bool)
      requires uid in principals
      modifies this`fuse, this`principals
      ensures uid in principals
      ensures Rows(uid, ok) == RemoveAll(loaded, wanted, old(Rows(uid, true)))
      ensures Now() == WithRows(old(Now()), uid, principals[uid].roles)
    {
      ok := true;
      var i := 0;
      ghost var before, start := Now(), Rows(uid, true);
      assert before == WithRows(before, uid, principals[uid].roles);
      while ok && i < |wanted|
        invariant i <= |wanted| && uid in principals
        invariant Rows(uid, ok) == RemoveAll(loaded, wanted[..i], start)
        invariant Now() == WithRows(before, uid, principals[uid].roles)
      {
        assert wanted[..i + 1][..i] == wanted[..i];
        ghost var rows := principals[uid].roles;
        ok := RemoveSystemLevelRole(uid, loaded, wanted[i]);
        WithRowsTwice(before, uid, rows, principals[uid].roles);
        i := i + 1;
      }
      RemoveAllStopped(loaded, wanted, i, start);
      assert wanted[..|wanted|] == wanted;
    }

    method RemoveAllSystemLevelRoles(uid: string, loaded: seq<RoleType>) returns (ok: bool)
      requires uid in principals
      modifies this`fuse, this`principals
      ensures uid in principals
      ensures Rows(uid, ok) == DropEach(loaded, old(Rows(uid, true)))
      ensures Now() == WithRows(old(Now()), uid, principals[uid].roles)
    {
      ok := true;
      var i := 0;
      while ok && i < |loaded|
        invariant i <= |loaded| && uid in principals
        invariant Rows(uid, ok) == DropEach(loaded[..i], old(Rows(uid, true)))
        invariant Now() == WithRows(old(Now()), uid, principals[uid].roles)
      {
        assert loaded[..i + 1][..i] == loaded[..i];
        ok := DeleteRole(uid, loaded[i]);
        i := i + 1;
      }
      DropEachStopped(loaded, i, old(Rows(uid, true)));
      assert loaded[..|loaded|] == loaded;
    }
    // ---------- The operations ----------

    method CreateNewUserAccount(id: nat, uid: string, accountType: AccountType, firstName: string, lastName: string,
                                mail: string, roleNames: Option<seq<string>>, password: string)
      returns (r: Reply)
      requires Idle()
      modifies this
      ensures Replies(old(Now()), old(fuse),
                      Create(id, uid, accountType, firstName, lastName, mail, roleNames, password), r)
    {
      if uid in principals {
        return Thrown(Inconsistency);
      }
      BeginTransaction();
      ghost var op := Create(id, uid, accountType, firstName, lastName, mail, roleNames, password);
      var ok := CreateInBothStores(id, uid, accountType, firstName, lastName, mail, roleNames, password, op);
      if ok {
        CommitTransaction();
      } else {
        RollbackTransaction();
      }
      return DoneIf(ok);
    }

    // The calls between the begin and the commit of a creation.
    method CreateInBothStores(id: nat, uid: string, accountType: AccountType, firstName: string, lastName: string,
                              mail: string, roleNames: Option<seq<string>>, password: string, ghost op: Op)
      returns (ok: bool)
      requires uid !in principals
      requires op == Create(id, uid, accountType, firstName, lastName, mail, roleNames, password)
      modifies this`fuse, this`principals, this`backend
      ensures old(fuse) == 0 ==> !ok && backend == old(backend)
      ensures old(fuse) > 0 ==>
                var t := AddAll([], InitialRoles(config, accountType, roleNames), Tally([], old(fuse) - 1, true));
                && (ok <==> t.ok && t.fuse >= 3 && uid !in old(backend))
                && (ok ==> principals == old(principals)[uid := NewPrincipal(op, t.rows)])
                && backend == if t.ok && t.fuse >= 2 && uid !in old(backend)
                              then old(backend)[uid := NewProfile(op)] else old(backend)
    {
      ok := CreatePrincipal(id, uid, accountType, roleNames, op);
      if ok {
        ok := WriteProfile(uid, Profile(uid, firstName, lastName, mail, true, password, None), false);
      }
      if ok {
        ok := External();
      }
    }

    method CreatePrincipal(id: nat, uid: string, accountType: AccountType, roleNames: Option<seq<string>>, ghost op: Op)
      returns (ok: bool)
      requires uid !in principals
      requires op.Create? && op.id == id && op.uid == uid && op.accountType == accountType
      modifies this`fuse, this`principals
      ensures old(fuse) == 0 ==> !ok
      ensures old(fuse) > 0 ==>
                var t := AddAll([], InitialRoles(config, accountType, roleNames), Tally([], old(fuse) - 1, true));
                && (ok <==> t.ok && t.fuse >= 1)
                && (ok ==> fuse == t.fuse - 1 && principals == old(principals)[uid := NewPrincipal(op, t.rows)])
    {
      ghost var before := principals;
      ok := SavePrincipal(uid, Principal(id, uid, accountType, true, true, false, None, []));
      if ok {
        ok := AddingRolesToPrincipalForAccountType(uid, [], accountType, roleNames);
        assert principals == before[uid := NewPrincipal(op, principals[uid].roles)];
      }
      if ok {
        ok := SavePrincipal(uid, principals[uid]);
      }
    }

    method AddingRolesToPrincipalForAccountType(uid: string, loaded: seq<RoleType>, accountType: AccountType,
                                                roleNames: Option<seq<string>>) returns (ok: bool)
      requires uid in principals
      modifies this`fuse, this`principals
      ensures uid in principals
      ensures Rows(uid, ok) == AddAll(loaded, InitialRoles(config, accountType, roleNames), old(Rows(uid, true)))
      ensures Now() == WithRows(old(Now()), uid, principals[uid].roles)
    {
      var wanted := [];
      if accountType.RolesEditable() {
        if roleNames.Some? {
          wanted := Wanted(config.roleTypes, roleNames.value);
        }
      }
      ok := AddRolesOneByOne(uid, loaded, wanted + Given(Defaults(config.roleTypes, accountType)));
    }

    method UpdatePassword(uid: string, password: string) returns (r: Reply)
      requires Idle()
      modifies this
      ensures Replies(old(Now()), old(fuse), AccountModel.UpdatePassword(uid, password), r)
    {
      InvalidateUserAccountCache(uid);
      if !config.masterMode {
        return Done;
      }
      if uid !in backend {
        return Thrown(Broken);
      }
      var ok := WriteProfile(uid, backend[uid].(password := password), true);
      return DoneIf(ok);
    }

    method IsUserIdExists(uid: string) returns (r: Reply)
      requires Idle()
      ensures Replies(Now(), fuse, AccountModel.IsUserIdExists(uid), r)
    {
      if uid !in principals {
        return Answer(false);
      }
      if uid !in backend {
        return Thrown(Inconsistency);
      }
      return Answer(true);
    }

    method Resync(uid: string) returns (r: Reply)
      requires Idle()
      modifies this
      ensures Replies(old(Now()), old(fuse), AccountModel.Resync(uid), r)
    {
      InvalidateUserAccountCache(uid);
      r := IsUserIdExists(uid);
      if r.Answer? {
        if !r.yes {
          return Thrown(Broken);
        }
        var ok := External();
        return DoneIf(ok);
      }
    }

    method UpdateBasicUserData(uid: string, firstName: string, lastName: string) returns (r: Reply)
      requires Idle()
      modifies this
      ensures Replies(old(Now()), old(fuse), AccountModel.UpdateBasicUserData(uid, firstName, lastName), r)
    {
      InvalidateUserAccountCache(uid);
      if uid !in backend {
        return Thrown(Broken);
      }
      var ok := WriteProfile(uid, backend[uid].(firstName := firstName, lastName := lastName), true);
      if ok && uid in principals {
        ok := External();
        return DoneIf(ok);
      }
      return Thrown(Broken);
    }

    method UpdateMail(uid: string, mail: string) returns (r: Reply)
      requires Idle()
      modifies this
      ensures Replies(old(Now()), old(fuse), AccountModel.UpdateMail(uid, mail), r)
    {
      InvalidateUserAccountCache(uid);
      if uid !in backend {
        return Thrown(Broken);
      }
      var ok := WriteProfile(uid, backend[uid].(mail := mail), true);
      if ok && uid in principals {
        ok := External();
        return DoneIf(ok);
      }
      return Thrown(Broken);
    }

    method FindPrincipalAndCheck(uid: string) returns (error: Option<AccountError>)
      ensures error == Check(Now(), uid)
    {
      if uid !in principals {
        return Some(UnknownAccount);
      }
      if uid !in backend {
        return Some(Inconsistency);
      }
      return None;
    }

    method UpdatePreferredLanguage(uid: string, language: string) returns (r: Reply)
      requires Idle()
      modifies this
      ensures Replies(old(Now()), old(fuse), AccountModel.UpdatePreferredLanguage(uid, language), r)
    {
      InvalidateUserAccountCache(uid);
      var error := FindPrincipalAndCheck(uid);
      if error.Some? {
        return Thrown(error.value);
      }
      var ok := SavePrincipal(uid, principals[uid].(preferredLanguage := Some(language)));
      if ok {
        ok := External();
      }
      return DoneIf(ok);
    }

    // No transaction: what was written before a failure stays.
    method UpdateUserAccountType(uid: string, accountType: AccountType) returns (r: Reply)
      requires Idle()
      modifies this
      ensures Replies(old(Now()), old(fuse), AccountModel.UpdateUserAccountType(uid, accountType), r)
    {
      InvalidateUserAccountCache(uid);
      var error := FindPrincipalAndCheck(uid);
      if error.Some? {
        return Thrown(error.value);
      }
      var userPrincipal := principals[uid];
      var ok := ResetRoles(uid, accountType);
      if ok {
        ok := SavePrincipal(uid, userPrincipal.(accountType := accountType));
      }
      if ok {
        ok := External();
      }
      return DoneIf(ok);
    }

    method ResetRoles(uid: string, accountType: AccountType) returns (ok: bool)
      requires uid in principals
      modifies this`fuse, this`principals
      ensures uid in principals
      ensures Rows(uid, ok) == old(AddAll(principals[uid].roles, InitialRoles(config, accountType, None),
                                          DropEach(principals[uid].roles, Rows(uid, true))))
      ensures Now() == WithRows(old(Now()), uid, principals[uid].roles)
    {
      var loaded := principals[uid].roles;
      ok := RemoveAllSystemLevelRoles(uid, loaded);
      if ok {
        WithRowsAgain(old(Now()), uid, principals[uid].roles);
        ok := AddingRolesToPrincipalForAccountType(uid, loaded, accountType, None);
      } else {
        assert InitialRoles(config, accountType, None)[..0] == [];
        AddAllStopped(loaded, InitialRoles(config, accountType, None), 0, Rows(uid, ok));
      }
    }

    method UpdateActivationStatus(uid: string, isActive: bool) returns (r: Reply)
      requires Idle()
      modifies this
      ensures Replies(old(Now()), old(fuse), AccountModel.UpdateActivationStatus(uid, isActive), r)
    {
      InvalidateUserAccountCache(uid);
      BeginTransaction();
      var error := FindPrincipalAndCheck(uid);
      if error.Some? {
        RollbackTransaction();
        return Thrown(error.value);
      }
      var ok := SavePrincipal(uid, principals[uid].(isActive := isActive));
      if ok {
        ok := WriteProfile(uid, backend[uid].(isActive := isActive), true);
      }
      if ok {
        ok := External();
      }
      if ok {
        CommitTransaction();
      } else {
        RollbackTransaction();
      }
      return DoneIf(ok);
    }

    // The event is posted after the commit, so its failure undoes nothing.
    method DeleteAccount(uid: string) returns (r: Reply)
      requires Idle()
      modifies this
      ensures Replies(old(Now()), old(fuse), AccountModel.DeleteAccount(uid), r)
    {
      InvalidateUserAccountCache(uid);
      BeginTransaction();
      var error := FindPrincipalAndCheck(uid);
      if error.Some? {
        RollbackTransaction();
        return Thrown(error.value);
      }
      InvalidateUserAccountCache(uid);
      assert cache == old(cache) - {uid};
      r := DeleteFromBothStores(uid);
    }

    // The calls of a deletion from its transaction on.
    method DeleteFromBothStores(uid: string) returns (r: Reply)
      requires saved == Some(Now()) && uid in principals && uid in backend
      modifies this
      ensures Idle() && Outcome(Now(), r) == CheckedStep(config, old(Now()), AccountModel.DeleteAccount(uid), old(fuse))
    {
      var ok := External();
      if ok {
        principals := principals - {uid};
        ok := External();
      }
      if ok {
        backend := backend - {uid};
        CommitTransaction();
        ok := External();
      }
      if !ok {
        RollbackTransaction();
      }
      return DoneIf(ok);
    }

    method AddSystemLevelRoleTypes(uid: string, names: seq<string>) returns (r: Reply)
      requires Idle()
      modifies this
      ensures Replies(old(Now()), old(fuse), AddRoles(uid, names), r)
    {
      InvalidateUserAccountCache(uid);
      BeginTransaction();
      var error := FindPrincipalAndCheck(uid);
      if error.Some? {
        RollbackTransaction();
        return Thrown(error.value);
      }
      if !principals[uid].accountType.RolesEditable() {
        RollbackTransaction();
        return Done;
      }
      r := AddEach(uid, names);
    }

    // The calls of an addition between the begin and the end of its transaction.
    method AddEach(uid: string, names: seq<string>) returns (r: Reply)
      requires saved == Some(Now()) && uid in principals && uid in backend
      requires principals[uid].accountType.RolesEditable()
      modifies this
      ensures Idle() && Outcome(Now(), r) == CheckedStep(config, old(Now()), AddRoles(uid, names), old(fuse))
    {
      var ok := AddRolesOneByOne(uid, principals[uid].roles, Wanted(config.roleTypes, names));
      if ok {
        ok := External();
      }
      if ok {
        CommitTransaction();
      } else {
        RollbackTransaction();
      }
      return DoneIf(ok);
    }

    // Here no transaction is begun, so the rollback after a failure restores nothing.
    method RemoveSystemLevelRoleTypes(uid: string, names: seq<string>) returns (r: Reply)
      requires Idle()
      modifies this
      ensures Replies(old(Now()), old(fuse), RemoveRoles(uid, names), r)
    {
      InvalidateUserAccountCache(uid);
      var error := FindPrincipalAndCheck(uid);
      if error.Some? {
        RollbackTransaction();
        return Thrown(error.value);
      }
      if !principals[uid].accountType.RolesEditable() {
        return Done;
      }
      var ok := RemoveRolesOneByOne(uid, principals[uid].roles, Wanted(config.roleTypes, names));
      if ok {
        ok := External();
      }
      if !ok {
        RollbackTransaction();
      }
      return DoneIf(ok);
    }

    method AddSystemLevelRoleType(uid: string, name: string) returns (r: Reply)
      requires Idle()
      modifies this
      ensures Replies(old(Now()), old(fuse), AddRole(uid, name), r)
    {
      InvalidateUserAccountCache(uid);
      var error := FindPrincipalAndCheck(uid);
      if error.Some? {
        return Thrown(error.value);
      }
      if !principals[uid].accountType.RolesEditable() {
        return Done;
      }
      var ok := AddSystemLevelRole(uid, principals[uid].roles, LookupRole(ActiveRoles(config.roleTypes), name));
      if ok {
        ok := External();
      }
      return DoneIf(ok);
    }

    method RemoveSystemLevelRoleType(uid: string, name: string) returns (r: Reply)
      requires Idle()
      modifies this
      ensures Replies(old(Now()), old(fuse), RemoveRole(uid, name), r)
    {
      InvalidateUserAccountCache(uid);
      var error := FindPrincipalAndCheck(uid);
      if error.Some? {
        return Thrown(error.value);
      }
      if !principals[uid].accountType.RolesEditable() {
        return Done;
      }
      var ok := RemoveSystemLevelRole(uid, principals[uid].roles, LookupRole(ActiveRoles(config.roleTypes), name));
      if ok {
        ok := External();
      }
      return DoneIf(ok);
    }

    method OverwriteSystemLevelRoleTypes(uid: string, names: seq<string>) returns (r: Reply)
      requires Idle()
      modifies this
      ensures Replies(old(Now()), old(fuse), OverwriteRoles(uid, names), r)
    {
      InvalidateUserAccountCache(uid);
      BeginTransaction();
      var error := FindPrincipalAndCheck(uid);
      if error.Some? {
        RollbackTransaction();
        return Thrown(error.value);
      }
      if !principals[uid].accountType.RolesEditable() {
        RollbackTransaction();
        return Done;
      }
      r := OverwriteAll(uid, names);
    }

    // The calls of an overwriting between the begin and the end of its transaction.
    method OverwriteAll(uid: string, names: seq<string>) returns (r: Reply)
      requires saved == Some(Now()) && uid in principals && uid in backend
      requires principals[uid].accountType.RolesEditable()
      modifies this
      ensures Idle() && Outcome(Now(), r) == CheckedStep(config, old(Now()), OverwriteRoles(uid, names), old(fuse))
    {
      var ok := ReplaceRoles(uid, names);
      if ok {
        ok := External();
      }
      if ok {
        CommitTransaction();
      } else {
        RollbackTransaction();
      }
      return DoneIf(ok);
    }

    method ReplaceRoles(uid: string, names: seq<string>) returns (ok: bool)
      requires uid in principals
      modifies this`fuse, this`principals
      ensures uid in principals
      ensures Rows(uid, ok) == old(Overwritten(config, principals[uid].roles, names, Rows(uid, true)))
      ensures Now() == WithRows(old(Now()), uid, principals[uid].roles)
    {
      var loaded := principals[uid].roles;
      ok := AddRolesOneByOne(uid, loaded, Wanted(config.roleTypes, names));
      if ok {
        WithRowsAgain(old(Now()), uid, principals[uid].roles);
        ok := RemoveRolesOneByOne(uid, loaded, Given(Unlisted(loaded, names)));
      } else {
        assert Given(Unlisted(loaded, names))[..0] == [];
        RemoveAllStopped(loaded, Given(Unlisted(loaded, names)), 0, Rows(uid, ok));
      }
    }

    method GetUserAccountFromUid(uid: string) returns (r: Reply)
      requires Idle()
      modifies this
      ensures Replies(old(Now()), old(fuse), FindByUid(uid), r)
    {
      if uid !in backend {
        if uid in principals {
          return Thrown(Inconsistency);
        }
        return Missing;
      }
      if uid in cache {
        return Found(cache[uid]);
      }
      if uid !in principals {
        return Missing;
      }
      var account := CreateUserAccount(backend[uid], principals[uid]);
      account.ListedIsAccess(AccessOf(principals[uid].roles));
      var view := View(account.Person(), account.Access());
      cache := cache[uid := view];
      return Found(view);
    }
  }

  // Once a call has thrown, the rest of a list of roles changes nothing.

  lemma {:induction false} AddAllStopped(loaded: seq<RoleType>, wanted: seq<Option<RoleType>>, i: nat, t: Tally)
    requires i <= |wanted| && (AddAll(loaded, wanted[..i], t).ok ==> i == |wanted|)
    ensures AddAll(loaded, wanted, t) == AddAll(loaded, wanted[..i], t)
  {
    if i < |wanted| {
      assert wanted[..|wanted| - 1][..i] == wanted[..i];
      AddAllStopped(loaded, wanted[..|wanted| - 1], i, t);
    } else {
      assert wanted[..i] == wanted;
    }
  }

  lemma {:induction false} RemoveAllStopped(loaded: seq<RoleType>, wanted: seq<Option<RoleType>>, i: nat, t: Tally)
    requires i <= |wanted| && (RemoveAll(loaded, wanted[..i], t).ok ==> i == |wanted|)
    ensures RemoveAll(loaded, wanted, t) == RemoveAll(loaded, wanted[..i], t)
  {
    if i < |wanted| {
      assert wanted[..|wanted| - 1][..i] == wanted[..i];
      RemoveAllStopped(loaded, wanted[..|wanted| - 1], i, t);
    } else {
      assert wanted[..i] == wanted;
    }
  }

  lemma {:induction false} DropEachStopped(goes: seq<RoleType>, i: nat, t: Tally)
    requires i <= |goes| && (DropEach(goes[..i], t).ok ==> i == |goes|)
    ensures DropEach(goes, t) == DropEach(goes[..i], t)
  {
    if i < |goes| {
      assert goes[..|goes| - 1][..i] == goes[..i];
      DropEachStopped(goes[..|goes| - 1], i, t);
    } else {
      assert goes[..i] == goes;
    }
  }

  lemma {:induction false} NamedPrefix(roles: seq<RoleType>, i: nat, name: string)
    requires i <= |roles|
    ensures Named(roles[..i], name) <= Named(roles, name)
    ensures i < |roles| ==>
              Named(roles[..i + 1], name) ==
              Named(roles[..i], name) + if !roles[i].deleted && roles[i].name == name then [roles[i]] else []
  {
    if i < |roles| {
      assert roles[..i + 1][..i] == roles[..i];
      assert roles[..|roles| - 1][..i] == roles[..i];
      NamedPrefix(roles[..|roles| - 1], i, name);
    } else {
      assert roles[..i] == roles;
    }
  }

  lemma NamedStopped(loaded: seq<RoleType>, i: nat, name: string, t: Tally)
    requires i <= |loaded| && (DropEach(Named(loaded[..i], name), t).ok ==> i == |loaded|)
    ensures DropEach(Named(loaded, name), t) == DropEach(Named(loaded[..i], name), t)
  {
    NamedPrefix(loaded, i, name);
    assert loaded[..|loaded|] == loaded;
    assert Named(loaded, name)[..|Named(loaded[..i], name)|] == Named(loaded[..i], name);
    DropEachStopped(Named(loaded, name), |Named(loaded[..i], name)|, t);
  }

  lemma NamedNext(loaded: seq<RoleType>, i: nat, name: string, t: Tally)
    requires i < |loaded|
    ensures var u := DropEach(Named(loaded[..i], name), t);
            DropEach(Named(loaded[..i + 1], name), t) ==
            if loaded[i].deleted || loaded[i].name != name || !u.ok then u
            else if u.fuse == 0 then u.(ok := false)
            else Tally(DeleteRow(u.rows, loaded[i]), u.fuse - 1, true)
  {
    NamedPrefix(loaded, i, name);
    var goes := Named(loaded[..i + 1], name);
    if !loaded[i].deleted && loaded[i].name == name {
      assert goes[..|goes| - 1] == Named(loaded[..i], name);
    } else {
      assert goes == Named(loaded[..i], name);
    }
  }

  lemma WithRowsTwice(s: State, uid: string, rows: seq<RoleType>, rows': seq<RoleType>)
    requires uid in s.principals
    ensures WithRows(WithRows(s, uid, rows), uid, rows') == WithRows(s, uid, rows')
  {
  }

  lemma WithRowsAgain(s: State, uid: string, rows: seq<RoleType>)
    requires uid in s.principals
    ensures forall rows' :: WithRows(WithRows(s, uid, rows), uid, rows') == WithRows(s, uid, rows')
  {
    forall rows'
      ensures WithRows(WithRows(s, uid, rows), uid, rows') == WithRows(s, uid, rows')
    {
      WithRowsTwice(s, uid, rows, rows');
    }
  }
}
