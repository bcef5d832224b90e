/** The account object that is filled from the two stores before it is cached. */
module UserAccounts {
  import opened FrameworkConstants
  import opened Wrappers
  import opened AccountModel

  class CommonUserAccount {
    var mafUid: nat
    var uid: string
    var firstName: string
    var lastName: string
    var mail: string
    var lastLoginDate: Option<int>
    var preferredLanguage: Option<string>
    var accountType: AccountType
    var markedForDeletion: bool
    var isActive: bool
    var isDisplayed: bool
    var roles: seq<string>
    var selectableRoles: seq<string>
    var systemLevelRoleTypes: seq<string>

    constructor ()
      ensures roles == [DEFAULT_PERMISSION_PRIVATE] && selectableRoles == [] && systemLevelRoleTypes == []
    {
      mafUid, uid, firstName, lastName, mail, lastLoginDate := 0, "", "", "", "", None;
      preferredLanguage, accountType, markedForDeletion, isActive, isDisplayed := None, STANDARD, false, false, false;
      roles, selectableRoles, systemLevelRoleTypes := [DEFAULT_PERMISSION_PRIVATE], [], [];
    }

    function Person(): Person
      reads this
    {
      AccountModel.Person(mafUid, uid, firstName, lastName, mail, lastLoginDate, preferredLanguage, accountType,
                          markedForDeletion, isActive, isDisplayed)
    }

    ghost predicate Lists(access: Access)
      reads this
    {
      && multiset(roles) == Groups(access)
      && multiset(selectableRoles) == multiset(access.selectable)
      && systemLevelRoleTypes == access.names
    }

    // The permissions and roles that the lists hold, beside the default role.
    function Access(): Access
      reads this
    {
      AccountModel.Access((set r | r in multiset(roles) - multiset{DEFAULT_PERMISSION_PRIVATE}),
                          (set r | r in selectableRoles), systemLevelRoleTypes)
    }

    lemma ListedIsAccess(access: Access)
      requires Lists(access)
      ensures Access() == access
    {
      var others := multiset(roles) - multiset{DEFAULT_PERMISSION_PRIVATE};
      assert others == multiset(access.permissions);
      assert forall r :: r in selectableRoles <==> r in multiset(selectableRoles);
    }

    method Fill(account: Profile, mafUid: nat, accountType: AccountType, preferredLanguage: Option<string>,
                markedForDeletion: bool, isDisplayed: bool)
      modifies this`mafUid, this`uid, this`firstName, this`lastName, this`mail, this`lastLoginDate
      modifies this`preferredLanguage, this`accountType, this`markedForDeletion, this`isActive, this`isDisplayed
      ensures Person() == AccountModel.Person(mafUid, account.uid, account.firstName, account.lastName, account.mail,
                                              account.lastLogin, preferredLanguage, accountType, markedForDeletion,
                                              account.isActive, isDisplayed)
    {
      this.accountType := accountType;
      firstName, lastName, mail, uid := account.firstName, account.lastName, account.mail, account.uid;
      isActive := account.isActive;
      this.mafUid, this.preferredLanguage := mafUid, preferredLanguage;
      this.markedForDeletion, this.isDisplayed := markedForDeletion, isDisplayed;
      lastLoginDate := account.lastLogin;
    }

    method AddGroup(role: string)
      modifies this`roles
      ensures roles == old(roles) + [role]
    {
      roles := roles + [role];
    }

    method AddSelectableGroup(role: string)
      modifies this`selectableRoles
      ensures selectableRoles == old(selectableRoles) + [role]
    {
      selectableRoles := selectableRoles + [role];
    }

    method AddSystemLevelRoleType(name: string)
      modifies this`systemLevelRoleTypes
      ensures systemLevelRoleTypes == old(systemLevelRoleTypes) + [name]
    {
      systemLevelRoleTypes := systemLevelRoleTypes + [name];
    }

    // The set is walked in an order that nobody fixes.
    method AddGroups(names: set<string>)
      modifies this`roles
      ensures multiset(roles) == old(multiset(roles)) + multiset(names)
    {
      var left := names;
      while left != {}
        invariant left <= names
        invariant multiset(roles) == old(multiset(roles)) + multiset(names - left)
      {
        var name :| name in left;
        AddGroup(name);
        left := left - {name};
      }
    }

    method AddSelectableGroups(names: set<string>)
      modifies this`selectableRoles
      ensures multiset(selectableRoles) == old(multiset(selectableRoles)) + multiset(names)
    {
      var left := names;
      while left != {}
        invariant left <= names
        invariant multiset(selectableRoles) == old(multiset(selectableRoles)) + multiset(names - left)
      {
        var name :| name in left;
        AddSelectableGroup(name);
        left := left - {name};
      }
    }
  }

  method CreateUserAccount(account: Profile, principal: Principal) returns (a: CommonUserAccount)
    ensures fresh(a)
    ensures a.Person() == Recompute(principal, account).person
    ensures a.Lists(AccessOf(principal.roles))
  {
    a := new CommonUserAccount();
    a.Fill(account, principal.id, principal.accountType, principal.preferredLanguage, principal.deleted,
           principal.isDisplayed);
    a.isActive := principal.isActive && a.isActive;
    var rolesAsString, selectableRolesAsString := GatherRoles(a, principal.roles);
    a.AddGroups(rolesAsString);
    a.AddSelectableGroups(selectableRolesAsString);
  }

  method GatherRoles(a: CommonUserAccount, roles: seq<RoleType>) returns (named: set<string>, selectable: set<string>)
    requires a.systemLevelRoleTypes == []
    modifies a`systemLevelRoleTypes
    ensures Access(named, selectable, a.systemLevelRoleTypes) == AccessOf(roles)
  {
    named, selectable := {}, {};
    for i := 0 to |roles|
      invariant AccessOf(roles[..i]) == Access(named, selectable, a.systemLevelRoleTypes)
    {
      var role := roles[i];
      assert roles[..i + 1][..i] == roles[..i];
      if !role.deleted {
        a.AddSystemLevelRoleType(role.name);
        var ns, ss := PermissionsByLoop(role);
        named, selectable := named + ns, selectable + ss;
      }
    }
    assert roles[..|roles|] == roles;
  }

  method PermissionsByLoop(role: RoleType) returns (named: set<string>, selectable: set<string>)
    ensures named == PermissionNames(role) && selectable == SelectableNames(role)
  {
    named, selectable := {}, {};
    for j := 0 to |role.permissions|
      invariant named == set p | p in role.permissions[..j] :: p.name
      invariant selectable == set p | p in role.permissions[..j] && p.selectable :: p.name
    {
      var p := role.permissions[j];
      assert role.permissions[..j + 1] == role.permissions[..j] + [p];
      named := named + {p.name};
      if p.selectable {
        selectable := selectable + {p.name};
      }
    }
    assert role.permissions[..|role.permissions|] == role.permissions;
  }
}
