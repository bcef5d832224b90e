/** What a user's account shows: the data that was last set, and the permissions of the live roles. */
module AccountLookups {
  import opened Wrappers
  import opened AccountModel
  import opened AccountLaws

  // ---------- Permissions ----------

  // A live role gives this permission.
  ghost predicate Gives(r: RoleType, permission: string) {
    !r.deleted && exists q :: q in r.permissions && q.name == permission
  }

  // Some role in the list, under a name that is not listed, gives it.
  ghost predicate GivenBy(roles: seq<RoleType>, unlisted: seq<string>, permission: string) {
    exists r :: r in roles && Gives(r, permission) && r.name !in unlisted
  }

  ghost predicate GivesSelectable(r: RoleType, permission: string) {
    !r.deleted && exists q :: q in r.permissions && q.selectable && q.name == permission
  }

  ghost function LiveRoles(roles: seq<RoleType>): seq<RoleType> {
    if roles == [] then []
    else (if roles[0].deleted then [] else [roles[0]]) + LiveRoles(roles[1..])
  }

  lemma {:induction false} LiveRolesAre(roles: seq<RoleType>)
    ensures forall r :: r in LiveRoles(roles) <==> r in roles && !r.deleted
  {
    if roles != [] {
      LiveRolesAre(roles[1..]);
      assert roles == [roles[0]] + roles[1..];
    }
  }

  lemma {:induction false} LiveRolesSnoc(roles: seq<RoleType>, last: RoleType)
    ensures LiveRoles(roles + [last]) == LiveRoles(roles) + if last.deleted then [] else [last]
  {
    var all := roles + [last];
    if roles == [] {
      assert all[1..] == [] && all[0] == last;
    } else {
      assert all[1..] == roles[1..] + [last] && all[0] == roles[0];
      LiveRolesSnoc(roles[1..], last);
    }
  }

  // The permissions are those that some live role gives, and the names those of the live
  // roles, in their order.
  lemma {:induction false} AccessIsLive(roles: seq<RoleType>)
    ensures forall p :: p in AccessOf(roles).permissions <==> exists r :: r in roles && Gives(r, p)
    ensures forall p :: p in AccessOf(roles).selectable <==> exists r :: r in roles && GivesSelectable(r, p)
  {
    if roles != [] {
      var n := |roles| - 1;
      AccessIsLive(roles[..n]);
      assert roles == roles[..n] + [roles[n]];
      PermissionsAre(roles[n]);
      forall p
        ensures p in AccessOf(roles).permissions <==> p in AccessOf(roles[..n]).permissions || Gives(roles[n], p)
        ensures p in AccessOf(roles).selectable <==>
                p in AccessOf(roles[..n]).selectable || GivesSelectable(roles[n], p)
      {
      }
    }
  }

  ghost function NamesOf(roles: seq<RoleType>): (names: seq<string>)
    ensures |names| == |roles| && forall i :: 0 <= i < |roles| ==> names[i] == roles[i].name
  {
    seq(|roles|, i requires 0 <= i < |roles| => roles[i].name)
  }

  lemma {:induction false} NamesAreInOrder(roles: seq<RoleType>)
    ensures AccessOf(roles).names == NamesOf(LiveRoles(roles))
  {
    if roles != [] {
      var n := |roles| - 1;
      var last := if roles[n].deleted then [] else [roles[n]];
      NamesAreInOrder(roles[..n]);
      assert roles == roles[..n] + [roles[n]];
      LiveRolesSnoc(roles[..n], roles[n]);
      assert NamesOf(LiveRoles(roles[..n]) + last) == NamesOf(LiveRoles(roles[..n])) + NamesOf(last);
      assert AccessOf(roles).names == AccessOf(roles[..n]).names + NamesOf(last);
    }
  }

  lemma PermissionsAre(r: RoleType)
    ensures forall p :: p in PermissionNames(r) <==> exists q :: q in r.permissions && q.name == p
    ensures forall p :: p in SelectableNames(r) <==> exists q :: q in r.permissions && q.selectable && q.name == p
  {
  }

  // ---------- Lookups ----------

  // An account as a user of the application should see it.
  ghost predicate IsShown(view: View, p: Principal, b: Profile) {
    && view.person.mafUid == p.id && view.person.uid == b.uid
    && view.person.firstName == b.firstName && view.person.lastName == b.lastName
    && view.person.mail == b.mail && view.person.lastLogin == b.lastLogin
    && view.person.preferredLanguage == p.preferredLanguage && view.person.accountType == p.accountType
    && view.person.markedForDeletion == p.deleted && view.person.isDisplayed == p.isDisplayed
    && (view.person.isActive <==> p.isActive && b.isActive)
    && (forall x :: x in view.access.permissions <==> exists r :: r in p.roles && Gives(r, x))
    && (forall x :: x in view.access.selectable <==> exists r :: r in p.roles && GivesSelectable(r, x))
    && view.access.names == NamesOf(LiveRoles(p.roles))
  }

  // In every consistent state a lookup shows what the two stores hold, cached or not, and
  // nothing for a uid without a principal.
  lemma LookupShows(c: Config, s: State, uid: string, fuse: nat)
    requires Consistent(s)
    ensures var reply := Step(c, s, FindByUid(uid), fuse).reply;
            if uid in s.principals
            then uid in s.backend && reply.Found? && IsShown(reply.view, s.principals[uid], s.backend[uid])
            else reply == Missing
  {
    if uid in s.principals {
      AccessIsLive(s.principals[uid].roles);
      NamesAreInOrder(s.principals[uid].roles);
    }
  }

  // And so in every state that a run reaches from an empty installation.
  lemma ReachedLookupShows(c: Config, run: seq<Event>, uid: string, fuse: nat)
    ensures var s := After(c, State(map[], map[], map[]), run);
            var reply := Step(c, s, FindByUid(uid), fuse).reply;
            if uid in s.principals
            then uid in s.backend && reply.Found? && IsShown(reply.view, s.principals[uid], s.backend[uid])
            else reply == Missing
  {
    RunKeepsConsistent(c, State(map[], map[], map[]), run);
    LookupShows(c, After(c, State(map[], map[], map[]), run), uid, fuse);
  }

  // An account exists for the application exactly when a lookup finds one.
  lemma ExistsIffFound(c: Config, s: State, uid: string, fuse: nat)
    requires Consistent(s)
    ensures Step(c, s, IsUserIdExists(uid), fuse).reply == Answer(Step(c, s, FindByUid(uid), fuse).reply.Found?)
  {
  }

  lemma DeletedIsMissing(c: Config, s: State, uid: string, fuse: nat)
    requires Consistent(s) && Step(c, s, DeleteAccount(uid), fuse).reply == Done
    ensures var t := Step(c, s, DeleteAccount(uid), fuse).state;
            forall later :: Step(c, t, FindByUid(uid), later).reply == Missing
  {
  }

  // ---------- What roles a user ends up with ----------

  // After roles were removed a lookup shows the permissions that some other live role
  // gives, and no others.
  lemma RemovedPermissionsAreGone(c: Config, s: State, uid: string, names: seq<string>, fuse: nat, later: nat)
    requires Consistent(s) && uid in s.principals && s.principals[uid].accountType.RolesEditable()
    requires Step(c, s, RemoveRoles(uid, names), fuse).reply == Done
    ensures var t := Step(c, s, RemoveRoles(uid, names), fuse).state;
            var reply := Step(c, t, FindByUid(uid), later).reply;
            && reply.Found?
            && forall x :: x in reply.view.access.permissions <==> GivenBy(s.principals[uid].roles, names, x)
  {
    var t := Step(c, s, RemoveRoles(uid, names), fuse).state;
    RemoveRolesRemovesNames(c, s, uid, names, fuse);
    StepKeepsConsistent(c, s, RemoveRoles(uid, names), fuse);
    LookupShows(c, t, uid, later);
    forall r: RoleType | !r.deleted
      ensures r in t.principals[uid].roles <==> r in s.principals[uid].roles && r.name !in names
    {
      CountIsMembership(t.principals[uid].roles, r);
      CountIsMembership(s.principals[uid].roles, r);
    }
    SamePermissions(s.principals[uid].roles, t.principals[uid].roles, names);
    assert forall x :: GivenBy(t.principals[uid].roles, [], x) <==>
                       exists r :: r in t.principals[uid].roles && Gives(r, x);
  }

  lemma SamePermissions(before: seq<RoleType>, after: seq<RoleType>, names: seq<string>)
    requires forall r: RoleType :: !r.deleted ==> (r in after <==> r in before && r.name !in names)
    ensures forall x :: GivenBy(after, [], x) <==> GivenBy(before, names, x)
  {
    forall x
      ensures GivenBy(after, [], x) <==> GivenBy(before, names, x)
    {
      if r :| r in after && Gives(r, x) && r.name !in [] {
        assert r in before && r.name !in names;
      }
      if r :| r in before && Gives(r, x) && r.name !in names {
        assert r in after;
      }
    }
  }

  lemma {:induction false} ActiveRolesAre(roleTypes: seq<RoleType>)
    ensures forall r :: r in ActiveRoles(roleTypes) <==> r in roleTypes && !r.deleted && r.selectable
  {
    if roleTypes != [] {
      ActiveRolesAre(roleTypes[1..]);
      assert roleTypes == [roleTypes[0]] + roleTypes[1..];
    }
  }

  lemma {:induction false} DefaultsAre(roleTypes: seq<RoleType>, accountType: AccountType)
    ensures forall r :: r in Defaults(roleTypes, accountType) <==>
                        r in roleTypes && !r.deleted && accountType in r.defaultFor
  {
    if roleTypes != [] {
      DefaultsAre(roleTypes[1..], accountType);
      assert roleTypes == [roleTypes[0]] + roleTypes[1..];
    }
  }

  // A role that can be asked for by this name, or that comes with the account type.
  ghost predicate Offered(roleTypes: seq<RoleType>, name: string) {
    exists r :: r in roleTypes && !r.deleted && r.selectable && r.name == name
  }

  ghost predicate ComesWith(roleTypes: seq<RoleType>, accountType: AccountType, name: string) {
    exists r :: r in roleTypes && !r.deleted && accountType in r.defaultFor && r.name == name
  }

  // What a new account is: the given data, active, with the requested roles where the type
  // allows it, all of which are offered, and the defaults of its type.
  lemma CreatedIsShown(c: Config, s: State, op: Op, fuse: nat, later: nat)
    requires Consistent(s) && op.Create? && Step(c, s, op, fuse).reply == Done
    ensures var t := Step(c, s, op, fuse).state;
            var reply := Step(c, t, FindByUid(op.uid), later).reply;
            var requested := op.roleNames.Some? && op.accountType == STANDARD;
            && reply.Found?
            && var view := reply.view;
               && view.person.uid == op.uid && view.person.mafUid == op.id
               && view.person.firstName == op.firstName && view.person.lastName == op.lastName
               && view.person.mail == op.mail && view.person.accountType == op.accountType
               && view.person.isActive && view.person.isDisplayed && !view.person.markedForDeletion
               && t.backend[op.uid].password == op.password
               && (requested ==> forall name :: name in op.roleNames.value ==> Offered(c.roleTypes, name))
               && forall name :: name in view.access.names <==>
                    || (requested && name in op.roleNames.value)
                    || ComesWith(c.roleTypes, op.accountType, name)
  {
    var t := Step(c, s, op, fuse).state;
    StepKeepsConsistent(c, s, op, fuse);
    LookupShows(c, t, op.uid, later);
    CreatedRoles(c, op, fuse);
    NamesAreLive(t.principals[op.uid].roles);
  }

  lemma NamesAreLive(roles: seq<RoleType>)
    ensures forall name :: name in AccessOf(roles).names <==> name in LiveNames(roles)
  {
    NamesAreInOrder(roles);
    LiveRolesAre(roles);
    forall name | name in LiveNames(roles)
      ensures name in AccessOf(roles).names
    {
      var r :| r in LiveRoles(roles) && r.name == name;
      var i :| 0 <= i < |LiveRoles(roles)| && LiveRoles(roles)[i] == r;
      assert NamesOf(LiveRoles(roles))[i] == name;
    }
  }

  lemma CreatedRoles(c: Config, op: Op, fuse: nat)
    requires op.Create? && fuse > 0
    requires AddAll([], InitialRoles(c, op.accountType, op.roleNames), Tally([], fuse - 1, true)).ok
    ensures var rows := AddAll([], InitialRoles(c, op.accountType, op.roleNames), Tally([], fuse - 1, true)).rows;
            var requested := op.roleNames.Some? && op.accountType == STANDARD;
            && (requested ==> forall name :: name in op.roleNames.value ==> Offered(c.roleTypes, name))
            && forall name :: name in LiveNames(rows) <==>
                 || (requested && name in op.roleNames.value)
                 || ComesWith(c.roleTypes, op.accountType, name)
  {
    var wanted, t := InitialRoles(c, op.accountType, op.roleNames), Tally([], fuse - 1, true);
    var defaults := Defaults(c.roleTypes, op.accountType);
    DefaultsAre(c.roleTypes, op.accountType);
    GivenNames(defaults);
    if op.roleNames.Some? && op.accountType == STANDARD {
      var asked := Wanted(c.roleTypes, op.roleNames.value);
      WantedAreLive(c, op.roleNames.value);
      AddAllNames([], wanted, t);
      assert forall w :: w in asked ==> w in wanted;
      AskedAreOffered(c, op.roleNames.value);
      assert forall name :: WantsName(wanted, name) <==> WantsName(asked, name) || WantsName(Given(defaults), name);
    } else {
      assert wanted == Given(defaults);
      AddAllNames([], wanted, t);
    }
    assert forall name :: name in LiveNames(AddAll([], wanted, t).rows) <==> WantsName(wanted, name);
  }

  lemma AskedAreOffered(c: Config, names: seq<string>)
    requires forall w :: w in Wanted(c.roleTypes, names) ==> w.Some?
    ensures forall name :: name in names ==> Offered(c.roleTypes, name)
  {
    ActiveRolesAre(c.roleTypes);
    forall i | 0 <= i < |names|
      ensures Offered(c.roleTypes, names[i])
    {
      assert Wanted(c.roleTypes, names)[i] in Wanted(c.roleTypes, names);
    }
  }

  // ---------- The data that updates set ----------

  datatype Field = TheName | TheMail | TheLanguage | TheActivation | ThePassword | TheType

  datatype Content =
    | Name(first: string, last: string)
    | Mail(mail: string)
    | Language(language: Option<string>)
    | Activation(inPrincipal: bool, inBackend: bool)
    | Password(password: string)
    | Type(accountType: AccountType)

  function Stored(p: Principal, b: Profile, field: Field): Content {
    match field
    case TheName => Name(b.firstName, b.lastName)
    case TheMail => Mail(b.mail)
    case TheLanguage => Language(p.preferredLanguage)
    case TheActivation => Activation(p.isActive, b.isActive)
    case ThePassword => Password(b.password)
    case TheType => Type(p.accountType)
  }

  // The field that an operation sets, and to what.
  function Sets(op: Op): Option<(Field, Content)> {
    match op
    case UpdateBasicUserData(_, first, last) => Some((TheName, Name(first, last)))
    case UpdateMail(_, mail) => Some((TheMail, Mail(mail)))
    case UpdatePreferredLanguage(_, language) => Some((TheLanguage, Language(Some(language))))
    case UpdateActivationStatus(_, active) => Some((TheActivation, Activation(active, active)))
    case UpdatePassword(_, password) => Some((ThePassword, Password(password)))
    case UpdateUserAccountType(_, accountType) => Some((TheType, Type(accountType)))
    case _ => None
  }

  ghost predicate Has(s: State, uid: string) {
    uid in s.principals && uid in s.backend
  }

  // An update that succeeds stores what it was given; passwords are stored in master mode only.
  lemma UpdateIsStored(c: Config, s: State, op: Op, fuse: nat)
    requires Has(s, op.uid) && Sets(op).Some? && Step(c, s, op, fuse).reply == Done
    requires op.UpdatePassword? ==> c.masterMode
    ensures var t := Step(c, s, op, fuse).state;
            Has(t, op.uid) && Stored(t.principals[op.uid], t.backend[op.uid], Sets(op).value.0) == Sets(op).value.1
  {
  }

  // An operation that neither sets the field of this user nor deletes the account.
  predicate Spares(op: Op, uid: string, field: Field) {
    op.uid == uid ==> !op.DeleteAccount? && (Sets(op).Some? ==> Sets(op).value.0 != field)
  }

  lemma CheckedSpares(c: Config, s: State, op: Op, fuse: nat, uid: string, field: Field)
    requires Has(s, uid) && Has(s, op.uid) && op.NeedsAccount() && Spares(op, uid, field)
    ensures var t := CheckedStep(c, s, op, fuse).state;
            Has(t, uid) && Stored(t.principals[uid], t.backend[uid], field) ==
                           Stored(s.principals[uid], s.backend[uid], field)
  {
    if op.uid != uid {
      CheckedIsLocal(c, s, op, fuse);
      var t := CheckedStep(c, s, op, fuse).state;
      assert SameAt(s.principals, t.principals, uid) && SameAt(s.backend, t.backend, uid);
    }
  }

  lemma SparedIsKept(c: Config, s: State, op: Op, fuse: nat, uid: string, field: Field)
    requires Has(s, uid) && Spares(op, uid, field)
    ensures var t := Step(c, s, op, fuse).state;
            Has(t, uid) && Stored(t.principals[uid], t.backend[uid], field) ==
                           Stored(s.principals[uid], s.backend[uid], field)
  {
    if op.NeedsAccount() && Has(s, op.uid) {
      CheckedSpares(c, Invalidate(s, op.uid), op, fuse, uid, field);
    }
  }

  lemma {:induction false} RunKeepsField(c: Config, s: State, run: seq<Event>, uid: string, field: Field)
    requires Has(s, uid) && forall i :: 0 <= i < |run| ==> Spares(run[i].op, uid, field)
    ensures var t := After(c, s, run);
            Has(t, uid) && Stored(t.principals[uid], t.backend[uid], field) ==
                           Stored(s.principals[uid], s.backend[uid], field)
  {
    if run != [] {
      var n := |run| - 1;
      RunKeepsField(c, s, run[..n], uid, field);
      SparedIsKept(c, After(c, s, run[..n]), run[n].op, run[n].fuse, uid, field);
    }
  }

  // What a lookup shows of the field; passwords are never shown.
  ghost predicate Displays(view: View, content: Content) {
    match content
    case Name(first, last) => view.person.firstName == first && view.person.lastName == last
    case Mail(mail) => view.person.mail == mail
    case Language(language) => view.person.preferredLanguage == language
    case Activation(inPrincipal, inBackend) => view.person.isActive == (inPrincipal && inBackend)
    case Password(_) => true
    case Type(accountType) => view.person.accountType == accountType
  }

  // An update that succeeded is what every later lookup shows, whatever else is done to this
  // and other accounts, until the same data is set again or the account deleted.
  lemma UpdateIsShown(c: Config, s: State, op: Op, fuse: nat, run: seq<Event>, later: nat)
    requires Consistent(s) && op.uid in s.principals && Sets(op).Some? && Step(c, s, op, fuse).reply == Done
    requires op.UpdatePassword? ==> c.masterMode
    requires forall i :: 0 <= i < |run| ==> Spares(run[i].op, op.uid, Sets(op).value.0)
    ensures var t := After(c, Step(c, s, op, fuse).state, run);
            var reply := Step(c, t, FindByUid(op.uid), later).reply;
            && Has(t, op.uid)
            && Stored(t.principals[op.uid], t.backend[op.uid], Sets(op).value.0) == Sets(op).value.1
            && reply.Found? && Displays(reply.view, Sets(op).value.1)
  {
    var u := Step(c, s, op, fuse).state;
    UpdateIsStored(c, s, op, fuse);
    StepKeepsConsistent(c, s, op, fuse);
    RunKeepsField(c, u, run, op.uid, Sets(op).value.0);
    RunKeepsConsistent(c, u, run);
    var t := After(c, u, run);
    LookupShows(c, t, op.uid, later);
    ShownIsDisplayed(Step(c, t, FindByUid(op.uid), later).reply.view, t.principals[op.uid], t.backend[op.uid],
                     Sets(op).value.0);
  }

  lemma ShownIsDisplayed(view: View, p: Principal, b: Profile, field: Field)
    requires IsShown(view, p, b)
    ensures Displays(view, Stored(p, b, field))
  {
  }
}
