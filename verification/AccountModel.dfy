/**
 User accounts as values: what the database, the authentication back-end and the
 cache hold, what each operation makes of them in one step, and which of its
 external calls may throw.
 */
module AccountModel {
  import opened FrameworkConstants
  import opened Wrappers

  datatype AccountType = STANDARD | VIEWER {
    predicate RolesEditable() { STANDARD? }
  }

  datatype Permission = Permission(name: string, selectable: bool)

  datatype RoleType = RoleType(name: string, deleted: bool, selectable: bool, permissions: seq<Permission>,
                               defaultFor: set<AccountType>)

  // `roles` lists the role rows of the principal.
  datatype Principal = Principal(id: nat, uid: string, accountType: AccountType, isActive: bool, isDisplayed: bool,
                                 deleted: bool, preferredLanguage: Option<string>, roles: seq<RoleType>)

  // What the authentication back-end holds.
  datatype Profile = Profile(uid: string, firstName: string, lastName: string, mail: string, isActive: bool,
                             password: string, lastLogin: Option<int>)

  datatype Person = Person(mafUid: nat, uid: string, firstName: string, lastName: string, mail: string,
                           lastLogin: Option<int>, preferredLanguage: Option<string>, accountType: AccountType,
                           markedForDeletion: bool, isActive: bool, isDisplayed: bool)

  // What the live roles give: their permissions, the selectable ones, their names.
  datatype Access = Access(permissions: set<string>, selectable: set<string>, names: seq<string>)

  // The account as the rest of the application sees it, and as it is cached.
  datatype View = View(person: Person, access: Access)

  datatype State = State(principals: map<string, Principal>, backend: map<string, Profile>, cache: map<string, View>)

  // The role types are fixed. The back-end may live in the same database as the
  // principals, and then it takes part in their transactions; a directory does not.
  datatype Config = Config(roleTypes: seq<RoleType>, masterMode: bool, backendInTransaction: bool)

  datatype AccountError = Inconsistency | UnknownAccount | Broken

  datatype Reply = Done | Answer(yes: bool) | Missing | Found(view: View) | Thrown(error: AccountError)

  datatype Op =
    | Create(id: nat, uid: string, accountType: AccountType, firstName: string, lastName: string, mail: string,
             roleNames: Option<seq<string>>, password: string)
    | UpdatePassword(uid: string, password: string)
    | Resync(uid: string)
    | UpdateBasicUserData(uid: string, firstName: string, lastName: string)
    | UpdatePreferredLanguage(uid: string, language: string)
    | UpdateUserAccountType(uid: string, accountType: AccountType)
    | UpdateMail(uid: string, mail: string)
    | UpdateActivationStatus(uid: string, active: bool)
    | DeleteAccount(uid: string)
    | AddRoles(uid: string, names: seq<string>)
    | RemoveRoles(uid: string, names: seq<string>)
    | AddRole(uid: string, name: string)
    | RemoveRole(uid: string, name: string)
    | OverwriteRoles(uid: string, names: seq<string>)
    | IsUserIdExists(uid: string)
    | FindByUid(uid: string)
    | ExpireCache(uid: string)
  {
    // The operations that first look the principal up and check it against the back-end.
    predicate NeedsAccount() {
      || UpdatePreferredLanguage? || UpdateUserAccountType? || UpdateActivationStatus? || DeleteAccount?
      || AddRoles? || RemoveRoles? || AddRole? || RemoveRole? || OverwriteRoles?
    }
  }

  // ---------- The account view ----------

  function PermissionNames(r: RoleType): set<string> {
    set p | p in r.permissions :: p.name
  }

  function SelectableNames(r: RoleType): set<string> {
    set p | p in r.permissions && p.selectable :: p.name
  }

  function AccessOf(roles: seq<RoleType>): Access {
    if roles == [] then Access({}, {}, [])
    else
      var n := |roles| - 1;
      var a := AccessOf(roles[..n]);
      if roles[n].deleted then a
      else Access(a.permissions + PermissionNames(roles[n]), a.selectable + SelectableNames(roles[n]),
                  a.names + [roles[n].name])
  }

  function Groups(a: Access): multiset<string> {
    multiset{DEFAULT_PERMISSION_PRIVATE} + multiset(a.permissions)
  }

  function Recompute(p: Principal, b: Profile): View {
    View(Person(p.id, b.uid, b.firstName, b.lastName, b.mail, b.lastLogin, p.preferredLanguage, p.accountType,
                p.deleted, p.isActive && b.isActive, p.isDisplayed),
         AccessOf(p.roles))
  }

  // ---------- Role rows ----------

  // The rows of one principal while an operation runs: `fuse` external calls will
  // still succeed, and `ok` is false once one of them has thrown.
  datatype Tally = Tally(rows: seq<RoleType>, fuse: nat, ok: bool)

  predicate HoldsName(roles: seq<RoleType>, name: string) {
    exists r :: r in roles && !r.deleted && r.name == name
  }

  predicate AllDeleted(roles: seq<RoleType>) {
    forall r :: r in roles ==> r.deleted
  }

  function ActiveRoles(roleTypes: seq<RoleType>): seq<RoleType> {
    if roleTypes == [] then []
    else (if !roleTypes[0].deleted && roleTypes[0].selectable then [roleTypes[0]] else []) + ActiveRoles(roleTypes[1..])
  }

  // Of several roles with one name a map keeps the last.
  function LookupRole(roles: seq<RoleType>, name: string): (r: Option<RoleType>)
    ensures r.Some? ==> r.value in roles && r.value.name == name
    ensures r.None? ==> forall x :: x in roles ==> x.name != name
  {
    if roles == [] then None
    else if roles[|roles| - 1].name == name then Some(roles[|roles| - 1])
    else LookupRole(roles[..|roles| - 1], name)
  }

  function Wanted(roleTypes: seq<RoleType>, names: seq<string>): (r: seq<Option<RoleType>>)
    ensures |r| == |names|
  {
    seq(|names|, i requires 0 <= i < |names| => LookupRole(ActiveRoles(roleTypes), names[i]))
  }

  function Defaults(roleTypes: seq<RoleType>, accountType: AccountType): seq<RoleType> {
    if roleTypes == [] then []
    else (if !roleTypes[0].deleted && accountType in roleTypes[0].defaultFor then [roleTypes[0]] else [])
         + Defaults(roleTypes[1..], accountType)
  }

  function Given(roles: seq<RoleType>): (r: seq<Option<RoleType>>)
    ensures |r| == |roles|
  {
    seq(|roles|, i requires 0 <= i < |roles| => Some(roles[i]))
  }

  function DeleteRow(rows: seq<RoleType>, role: RoleType): seq<RoleType> {
    if rows == [] then []
    else if rows[0] == role then rows[1..]
    else [rows[0]] + DeleteRow(rows[1..], role)
  }

  // Adding tests the roles that were loaded with the principal, not the rows added since.
  function AddOne(loaded: seq<RoleType>, role: Option<RoleType>, t: Tally): Tally {
    if !t.ok then t
    else if role.None? then t.(ok := false)
    else if HoldsName(loaded, role.value.name) then t
    else if t.fuse == 0 then t.(ok := false)
    else Tally(t.rows + [role.value], t.fuse - 1, true)
  }

  function AddAll(loaded: seq<RoleType>, wanted: seq<Option<RoleType>>, t: Tally): Tally {
    if wanted == [] then t
    else AddOne(loaded, wanted[|wanted| - 1], AddAll(loaded, wanted[..|wanted| - 1], t))
  }

  // Deletes the rows of those loaded roles that are to go.
  function DropEach(goes: seq<RoleType>, t: Tally): Tally {
    if goes == [] then t
    else
      var u := DropEach(goes[..|goes| - 1], t);
      if !u.ok then u
      else if u.fuse == 0 then u.(ok := false)
      else Tally(DeleteRow(u.rows, goes[|goes| - 1]), u.fuse - 1, true)
  }

  function Named(roles: seq<RoleType>, name: string): seq<RoleType> {
    if roles == [] then []
    else Named(roles[..|roles| - 1], name)
         + (var r := roles[|roles| - 1]; if !r.deleted && r.name == name then [r] else [])
  }

  // An unknown role type is a null: it is dereferenced as soon as there is a live role to
  // compare it with.
  function RemoveOne(loaded: seq<RoleType>, role: Option<RoleType>, t: Tally): Tally {
    if !t.ok then t
    else
      match role
      case Some(r) => DropEach(Named(loaded, r.name), t)
      case None => if AllDeleted(loaded) then t else t.(ok := false)
  }

  function RemoveAll(loaded: seq<RoleType>, wanted: seq<Option<RoleType>>, t: Tally): Tally {
    if wanted == [] then t
    else RemoveOne(loaded, wanted[|wanted| - 1], RemoveAll(loaded, wanted[..|wanted| - 1], t))
  }

  // The live roles whose name is not in the list.
  function Unlisted(roles: seq<RoleType>, names: seq<string>): seq<RoleType> {
    if roles == [] then []
    else (if !roles[0].deleted && roles[0].name !in names then [roles[0]] else []) + Unlisted(roles[1..], names)
  }

  // What is missing of the listed roles is added and then what is not listed removed.
  function Overwritten(c: Config, loaded: seq<RoleType>, names: seq<string>, t: Tally): Tally {
    RemoveAll(loaded, Given(Unlisted(loaded, names)), AddAll(loaded, Wanted(c.roleTypes, names), t))
  }

  // ---------- The operations, each as one step ----------

  datatype Outcome = Outcome(state: State, reply: Reply)

  function Invalidate(s: State, uid: string): State {
    s.(cache := s.cache - {uid})
  }

  function Check(s: State, uid: string): Option<AccountError> {
    if uid !in s.principals then Some(UnknownAccount)
    else if uid !in s.backend then Some(Inconsistency)
    else None
  }

  function WithRows(s: State, uid: string, rows: seq<RoleType>): State
    requires uid in s.principals
  {
    s.(principals := s.principals[uid := s.principals[uid].(roles := rows)])
  }

  function DoneIf(ok: bool): Reply {
    if ok then Done else Thrown(Broken)
  }

  function InitialRoles(c: Config, accountType: AccountType, roleNames: Option<seq<string>>): seq<Option<RoleType>> {
    (if accountType.RolesEditable() && roleNames.Some? then Wanted(c.roleTypes, roleNames.value) else [])
    + Given(Defaults(c.roleTypes, accountType))
  }

  function NewPrincipal(op: Op, roles: seq<RoleType>): Principal
    requires op.Create?
  {
    Principal(op.id, op.uid, op.accountType, true, true, false, None, roles)
  }

  // The password of a new account is drawn at random.
  function NewProfile(op: Op): Profile
    requires op.Create?
  {
    Profile(op.uid, op.firstName, op.lastName, op.mail, true, op.password, None)
  }

  // One external call saves the principal, one more for each role, one saves it
  // again, then the back-end is written and the event is posted.
  function CreateStep(c: Config, s: State, op: Op, fuse: nat): Outcome
    requires op.Create?
  {
    if op.uid in s.principals then Outcome(s, Thrown(Inconsistency))
    else if fuse == 0 then Outcome(s, Thrown(Broken))
    else
      var t := AddAll([], InitialRoles(c, op.accountType, op.roleNames), Tally([], fuse - 1, true));
      var written := t.ok && t.fuse >= 2 && op.uid !in s.backend;
      var done := written && t.fuse >= 3;
      Outcome(
        s.(principals := if done
                         then s.principals[op.uid := NewPrincipal(op, t.rows)]
                         else s.principals,
           backend := if done || (written && !c.backendInTransaction)
                      then s.backend[op.uid := NewProfile(op)]
                      else s.backend),
        DoneIf(done))
  }

  function ProfileStep(s: State, uid: string, profile: Profile, fuse: nat): Outcome {
    if fuse == 0 || uid !in s.backend then Outcome(s, Thrown(Broken))
    else Outcome(s.(backend := s.backend[uid := profile]), DoneIf(uid in s.principals && fuse >= 2))
  }

  function CheckedStep(c: Config, s: State, op: Op, fuse: nat): Outcome
    requires op.NeedsAccount() && op.uid in s.principals && op.uid in s.backend
  {
    var uid := op.uid;
    var p := s.principals[uid];
    var t := Tally(p.roles, fuse, true);
    match op
    case UpdatePreferredLanguage(_, language) =>
      if fuse == 0 then Outcome(s, Thrown(Broken))
      else Outcome(s.(principals := s.principals[uid := p.(preferredLanguage := Some(language))]), DoneIf(fuse >= 2))
    case UpdateUserAccountType(_, accountType) =>
      var u := AddAll(p.roles, InitialRoles(c, accountType, None), DropEach(p.roles, t));
      var s' := WithRows(s, uid, u.rows);
      if u.ok && u.fuse >= 1
      then Outcome(s'.(principals := s'.principals[uid := s'.principals[uid].(accountType := accountType)]),
                   DoneIf(u.fuse >= 2))
      else Outcome(s', Thrown(Broken))
    case UpdateActivationStatus(_, active) =>
      Outcome(
        s.(principals := if fuse >= 3 then s.principals[uid := p.(isActive := active)] else s.principals,
           backend := if fuse >= 3 || (fuse == 2 && !c.backendInTransaction)
                      then s.backend[uid := s.backend[uid].(isActive := active)] else s.backend),
        DoneIf(fuse >= 3))
    case DeleteAccount(_) =>
      if fuse <= 1 then Outcome(s, Thrown(Broken))
      else Outcome(s.(principals := s.principals - {uid}, backend := s.backend - {uid}), DoneIf(fuse >= 3))
    case AddRoles(_, names) =>
      if !p.accountType.RolesEditable() then Outcome(s, Done)
      else
        var u := AddAll(p.roles, Wanted(c.roleTypes, names), t);
        if u.ok && u.fuse >= 1 then Outcome(WithRows(s, uid, u.rows), Done) else Outcome(s, Thrown(Broken))
    case RemoveRoles(_, names) =>
      if !p.accountType.RolesEditable() then Outcome(s, Done)
      else
        var u := RemoveAll(p.roles, Wanted(c.roleTypes, names), t);
        Outcome(WithRows(s, uid, u.rows), DoneIf(u.ok && u.fuse >= 1))
    case AddRole(_, name) =>
      if !p.accountType.RolesEditable() then Outcome(s, Done)
      else
        var u := AddOne(p.roles, LookupRole(ActiveRoles(c.roleTypes), name), t);
        Outcome(WithRows(s, uid, u.rows), DoneIf(u.ok && u.fuse >= 1))
    case RemoveRole(_, name) =>
      if !p.accountType.RolesEditable() then Outcome(s, Done)
      else
        var u := RemoveOne(p.roles, LookupRole(ActiveRoles(c.roleTypes), name), t);
        Outcome(WithRows(s, uid, u.rows), DoneIf(u.ok && u.fuse >= 1))
    case OverwriteRoles(_, names) =>
      if !p.accountType.RolesEditable() then Outcome(s, Done)
      else
        var u := Overwritten(c, p.roles, names, t);
        if u.ok && u.fuse >= 1 then Outcome(WithRows(s, uid, u.rows), Done) else Outcome(s, Thrown(Broken))
  }

  function FindStep(s: State, uid: string): Outcome {
    if uid !in s.backend then
      Outcome(s, if uid in s.principals then Thrown(Inconsistency) else Missing)
    else if uid in s.cache then Outcome(s, Found(s.cache[uid]))
    else if uid !in s.principals then Outcome(s, Missing)
    else
      var view := Recompute(s.principals[uid], s.backend[uid]);
      Outcome(s.(cache := s.cache[uid := view]), Found(view))
  }

  function ExistsReply(s: State, uid: string): Reply {
    if uid !in s.principals then Answer(false)
    else if uid !in s.backend then Thrown(Inconsistency)
    else Answer(true)
  }

  function OtherStep(c: Config, s: State, op: Op, fuse: nat): Outcome
    requires !op.NeedsAccount()
  {
    var s' := Invalidate(s, op.uid);
    match op
    case Create(_, _, _, _, _, _, _, _) => CreateStep(c, s, op, fuse)
    case UpdatePassword(uid, password) =>
      if !c.masterMode then Outcome(s', Done)
      else if fuse == 0 || uid !in s.backend then Outcome(s', Thrown(Broken))
      else Outcome(s'.(backend := s.backend[uid := s.backend[uid].(password := password)]), Done)
    case Resync(_) =>
      Outcome(s', match ExistsReply(s, op.uid)
                  case Answer(yes) => DoneIf(yes && fuse >= 1)
                  case other => other)
    case UpdateBasicUserData(uid, first, last) =>
      if uid in s.backend then ProfileStep(s', uid, s.backend[uid].(firstName := first, lastName := last), fuse)
      else Outcome(s', Thrown(Broken))
    case UpdateMail(uid, mail) =>
      if uid in s.backend then ProfileStep(s', uid, s.backend[uid].(mail := mail), fuse)
      else Outcome(s', Thrown(Broken))
    case IsUserIdExists(uid) => Outcome(s, ExistsReply(s, uid))
    case FindByUid(uid) => FindStep(s, uid)
    case ExpireCache(_) => Outcome(s', Done)
  }

  function Step(c: Config, s: State, op: Op, fuse: nat): Outcome {
    if !op.NeedsAccount() then OtherStep(c, s, op, fuse)
    else
      match Check(s, op.uid)
      case Some(e) => Outcome(Invalidate(s, op.uid), Thrown(e))
      case None => CheckedStep(c, Invalidate(s, op.uid), op, fuse)
  }

  // ---------- What every run keeps ----------

  ghost predicate Consistent(s: State) {
    && (forall u :: u in s.principals ==> u in s.backend)
    && (forall u :: u in s.cache ==> u in s.principals && s.cache[u] == Recompute(s.principals[u], s.backend[u]))
  }

  datatype Event = Event(op: Op, fuse: nat)

  // The state after a run, whose calls break off wherever their fuses say.
  ghost function After(c: Config, s: State, run: seq<Event>): State {
    if run == [] then s
    else Step(c, After(c, s, run[..|run| - 1]), run[|run| - 1].op, run[|run| - 1].fuse).state
  }
}
