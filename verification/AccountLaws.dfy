/** What holds in every run of the account operations, whatever calls break off half-way. */
module AccountLaws {
  import opened Wrappers
  import opened AccountModel

  ghost predicate SameAt<V>(m: map<string, V>, m': map<string, V>, u: string) {
    (u in m <==> u in m') && (u in m ==> m[u] == m'[u])
  }

  ghost predicate SameStores(s: State, t: State) {
    s.principals == t.principals && s.backend == t.backend
  }

  // The stores change at one uid only, and there a principal keeps its back-end account.
  ghost predicate ChangesOnly(uid: string, s: State, s': State) {
    && (forall u :: u != uid ==> SameAt(s.principals, s'.principals, u))
    && (forall u :: u != uid ==> SameAt(s.backend, s'.backend, u))
    && (uid in s'.principals ==> uid in s'.backend)
  }

  lemma CreateIsLocal(c: Config, s: State, op: Op, fuse: nat)
    requires op.Create? && (op.uid in s.principals ==> op.uid in s.backend)
    ensures var s' := CreateStep(c, s, op, fuse).state; ChangesOnly(op.uid, s, s') && s'.cache == s.cache
    ensures op.uid in s.principals ==> CreateStep(c, s, op, fuse).state == s
  {
  }

  lemma CheckedIsLocal(c: Config, s: State, op: Op, fuse: nat)
    requires op.NeedsAccount() && op.uid in s.principals && op.uid in s.backend
    ensures var s' := CheckedStep(c, s, op, fuse).state; ChangesOnly(op.uid, s, s') && s'.cache == s.cache
  {
  }

  // The cache loses the uid, or stays as it is where nothing is cached under the uid,
  // or gains the freshly computed account.
  ghost predicate CacheFollows(uid: string, s: State, s': State) {
    || s'.cache == s.cache - {uid}
    || (s'.cache == s.cache && (SameStores(s, s') || uid !in s.principals))
    || (&& SameStores(s, s') && uid in s.principals && uid in s.backend
        && s'.cache == s.cache[uid := Recompute(s.principals[uid], s.backend[uid])])
  }

  lemma OtherIsLocal(c: Config, s: State, op: Op, fuse: nat)
    requires !op.NeedsAccount() && (op.uid in s.principals ==> op.uid in s.backend)
    ensures ChangesOnly(op.uid, s, OtherStep(c, s, op, fuse).state)
    ensures CacheFollows(op.uid, s, OtherStep(c, s, op, fuse).state)
  {
    if op.Create? {
      CreateIsLocal(c, s, op, fuse);
    }
  }

  lemma LocalChangeKeepsConsistent(uid: string, s: State, s': State)
    requires Consistent(s) && ChangesOnly(uid, s, s') && CacheFollows(uid, s, s')
    ensures Consistent(s')
  {
    forall u | u != uid
      ensures u in s'.principals ==> u in s'.backend
      ensures u in s'.cache ==> u in s'.principals && s'.cache[u] == Recompute(s'.principals[u], s'.backend[u])
    {
      assert SameAt(s.principals, s'.principals, u) && SameAt(s.backend, s'.backend, u);
    }
  }

  lemma StepKeepsConsistent(c: Config, s: State, op: Op, fuse: nat)
    requires Consistent(s)
    ensures Consistent(Step(c, s, op, fuse).state)
  {
    if !op.NeedsAccount() {
      OtherIsLocal(c, s, op, fuse);
    } else if Check(s, op.uid).None? {
      CheckedIsLocal(c, Invalidate(s, op.uid), op, fuse);
    }
    LocalChangeKeepsConsistent(op.uid, s, Step(c, s, op, fuse).state);
  }

  lemma {:induction false} RunKeepsConsistent(c: Config, s: State, run: seq<Event>)
    requires Consistent(s)
    ensures Consistent(After(c, s, run))
  {
    if run != [] {
      var n := |run| - 1;
      RunKeepsConsistent(c, s, run[..n]);
      StepKeepsConsistent(c, After(c, s, run[..n]), run[n].op, run[n].fuse);
    }
  }

  // From an empty installation on, the inconsistency exception has one cause only: an
  // attempt to create an account whose principal exists.
  lemma InconsistencyOnlyOnSecondCreate(c: Config, run: seq<Event>, op: Op, fuse: nat)
    ensures var s := After(c, State(map[], map[], map[]), run);
            Step(c, s, op, fuse).reply == Thrown(Inconsistency) <==> op.Create? && op.uid in s.principals
  {
    var s := After(c, State(map[], map[], map[]), run);
    RunKeepsConsistent(c, State(map[], map[], map[]), run);
    assert Consistent(s);
  }

  // In every reachable state a lookup answers what a fresh computation would.
  lemma LookupIsFresh(c: Config, run: seq<Event>, uid: string, fuse: nat)
    ensures var s := After(c, State(map[], map[], map[]), run);
            Step(c, s, FindByUid(uid), fuse).reply ==
            if uid in s.principals && uid in s.backend then Found(Recompute(s.principals[uid], s.backend[uid]))
            else Missing
  {
    RunKeepsConsistent(c, State(map[], map[], map[]), run);
  }

  lemma CheckedIgnoresCache(c: Config, s: State, cache: map<string, View>, op: Op, fuse: nat)
    requires op.NeedsAccount() && op.uid in s.principals && op.uid in s.backend
    ensures var o, o' := CheckedStep(c, s, op, fuse), CheckedStep(c, s.(cache := cache), op, fuse);
            o'.reply == o.reply && SameStores(o.state, o'.state)
  {
  }

  lemma FindIgnoresCache(s: State, cache: map<string, View>, uid: string)
    requires Consistent(s) && Consistent(s.(cache := cache))
    ensures FindStep(s, uid).reply == FindStep(s.(cache := cache), uid).reply
    ensures SameStores(FindStep(s, uid).state, FindStep(s.(cache := cache), uid).state)
  {
  }

  lemma CreateIgnoresCache(c: Config, s: State, cache: map<string, View>, op: Op, fuse: nat)
    requires op.Create?
    ensures var o, o' := CreateStep(c, s, op, fuse), CreateStep(c, s.(cache := cache), op, fuse);
            o'.reply == o.reply && SameStores(o.state, o'.state)
  {
  }

  lemma ProfileIgnoresCache(s: State, cache: map<string, View>, uid: string, profile: Profile, fuse: nat)
    ensures var o, o' := ProfileStep(s, uid, profile, fuse), ProfileStep(s.(cache := cache), uid, profile, fuse);
            o'.reply == o.reply && SameStores(o.state, o'.state)
  {
  }

  lemma OtherIgnoresCache(c: Config, s: State, cache: map<string, View>, op: Op, fuse: nat)
    requires !op.NeedsAccount() && Consistent(s) && Consistent(s.(cache := cache))
    ensures var o, o' := OtherStep(c, s, op, fuse), OtherStep(c, s.(cache := cache), op, fuse);
            o'.reply == o.reply && SameStores(o.state, o'.state)
  {
    match op
    case Create(_, _, _, _, _, _, _, _) => CreateIgnoresCache(c, s, cache, op, fuse);
    case UpdatePassword(_, _) =>
    case Resync(_) =>
    case UpdateBasicUserData(uid, first, last) =>
      if uid in s.backend {
        var profile := s.backend[uid].(firstName := first, lastName := last);
        ProfileIgnoresCache(Invalidate(s, uid), cache - {uid}, uid, profile, fuse);
      }
    case UpdateMail(uid, mail) =>
      if uid in s.backend {
        ProfileIgnoresCache(Invalidate(s, uid), cache - {uid}, uid, s.backend[uid].(mail := mail), fuse);
      }
    case IsUserIdExists(_) =>
    case FindByUid(uid) => FindIgnoresCache(s, cache, uid);
    case ExpireCache(_) =>
  }

  // No operation can tell two caches apart.
  lemma CacheIsInvisible(c: Config, s: State, cache: map<string, View>, op: Op, fuse: nat)
    requires Consistent(s) && Consistent(s.(cache := cache))
    ensures Step(c, s, op, fuse).reply == Step(c, s.(cache := cache), op, fuse).reply
    ensures SameStores(Step(c, s, op, fuse).state, Step(c, s.(cache := cache), op, fuse).state)
  {
    if !op.NeedsAccount() {
      OtherIgnoresCache(c, s, cache, op, fuse);
    } else if Check(s, op.uid).None? {
      CheckedIgnoresCache(c, Invalidate(s, op.uid), cache - {op.uid}, op, fuse);
    }
  }

  // The events of a run but those in which the cache lets an entry go.
  ghost function WithoutExpiry(run: seq<Event>): seq<Event> {
    if run == [] then []
    else
      var n := |run| - 1;
      WithoutExpiry(run[..n]) + if run[n].op.ExpireCache? then [] else [run[n]]
  }

  lemma {:induction false} RunIgnoresExpiry(c: Config, s: State, run: seq<Event>)
    requires Consistent(s)
    ensures SameStores(After(c, s, run), After(c, s, WithoutExpiry(run)))
  {
    if run != [] {
      var n := |run| - 1;
      var shorter := WithoutExpiry(run[..n]);
      RunIgnoresExpiry(c, s, run[..n]);
      if run[n].op.ExpireCache? {
        assert WithoutExpiry(run) == shorter;
      } else {
        RunSnoc(c, s, shorter, run[n]);
        RunKeepsConsistent(c, s, run[..n]);
        RunKeepsConsistent(c, s, shorter);
        SameStoresSameStep(c, After(c, s, run[..n]), After(c, s, shorter), run[n].op, run[n].fuse);
      }
    }
  }

  lemma RunSnoc(c: Config, s: State, run: seq<Event>, event: Event)
    ensures After(c, s, run + [event]) == Step(c, After(c, s, run), event.op, event.fuse).state
  {
    assert (run + [event])[..|run|] == run;
  }

  lemma SameStoresSameStep(c: Config, s: State, t: State, op: Op, fuse: nat)
    requires Consistent(s) && Consistent(t) && SameStores(s, t)
    ensures Step(c, s, op, fuse).reply == Step(c, t, op, fuse).reply
    ensures SameStores(Step(c, s, op, fuse).state, Step(c, t, op, fuse).state)
  {
    assert s.(cache := t.cache) == t;
    CacheIsInvisible(c, s, t.cache, op, fuse);
  }

  // So nothing in a run tells whether entries expired: the stores come out the same, and
  // every operation after it answers the same.
  lemma ExpiryIsInvisible(c: Config, s: State, run: seq<Event>, op: Op, fuse: nat)
    requires Consistent(s)
    ensures var t, t' := After(c, s, run), After(c, s, WithoutExpiry(run));
            && SameStores(t, t')
            && Step(c, t, op, fuse).reply == Step(c, t', op, fuse).reply
  {
    RunIgnoresExpiry(c, s, run);
    RunKeepsConsistent(c, s, run);
    RunKeepsConsistent(c, s, WithoutExpiry(run));
    SameStoresSameStep(c, After(c, s, run), After(c, s, WithoutExpiry(run)), op, fuse);
  }

  // ---------- Passwords ----------

  // Only a change of its password or its deletion touches the password of an account.
  predicate KeepsPassword(op: Op, uid: string) {
    op.uid == uid ==> !op.UpdatePassword? && !op.DeleteAccount?
  }

  lemma StepKeepsPassword(c: Config, s: State, op: Op, fuse: nat, uid: string)
    requires uid in s.backend && KeepsPassword(op, uid)
    ensures var s' := Step(c, s, op, fuse).state;
            uid in s'.backend && s'.backend[uid].password == s.backend[uid].password
  {
  }

  lemma {:induction false} RunKeepsPassword(c: Config, s: State, run: seq<Event>, uid: string)
    requires uid in s.backend && forall i :: 0 <= i < |run| ==> KeepsPassword(run[i].op, uid)
    ensures var s' := After(c, s, run);
            uid in s'.backend && s'.backend[uid].password == s.backend[uid].password
  {
    if run != [] {
      var n := |run| - 1;
      RunKeepsPassword(c, s, run[..n], uid);
      StepKeepsPassword(c, After(c, s, run[..n]), run[n].op, run[n].fuse, uid);
    }
  }

  // A password that was changed, with the back-end in master mode, is the password of the
  // account from then on, whatever else is done to this and other accounts.
  lemma ChangedPasswordStays(c: Config, s: State, uid: string, password: string, fuse: nat, run: seq<Event>)
    requires c.masterMode && Step(c, s, UpdatePassword(uid, password), fuse).reply == Done
    requires forall i :: 0 <= i < |run| ==> KeepsPassword(run[i].op, uid)
    ensures var t := After(c, Step(c, s, UpdatePassword(uid, password), fuse).state, run);
            uid in t.backend && t.backend[uid].password == password
  {
    RunKeepsPassword(c, Step(c, s, UpdatePassword(uid, password), fuse).state, run, uid);
  }

  // ---------- Orphans of a failed creation ----------

  ghost predicate Orphan(s: State, uid: string) {
    uid in s.backend && uid !in s.principals
  }

  // A creation leaves a back-end account without principal exactly when the event
  // post is the call that fails and the back-end is outside the transaction.
  lemma CreateOrphansIff(c: Config, s: State, op: Op, fuse: nat)
    requires op.Create? && op.uid !in s.principals && op.uid !in s.backend
    ensures Orphan(Step(c, s, op, fuse).state, op.uid) <==>
            && !c.backendInTransaction
            && fuse >= 1
            && var t := AddAll([], InitialRoles(c, op.accountType, op.roleNames), Tally([], fuse - 1, true));
               t.ok && t.fuse == 2
  {
  }

  // Nothing the manager does takes an orphan away, and its uid can never be used again.
  lemma StepKeepsOrphan(c: Config, s: State, op: Op, fuse: nat, uid: string)
    requires Orphan(s, uid)
    ensures Orphan(Step(c, s, op, fuse).state, uid)
    ensures op.Create? && op.uid == uid ==> Step(c, s, op, fuse).reply == Thrown(Broken)
  {
  }

  lemma {:induction false} OrphanForever(c: Config, s: State, run: seq<Event>, uid: string)
    requires Orphan(s, uid)
    ensures Orphan(After(c, s, run), uid)
  {
    if run != [] {
      var n := |run| - 1;
      OrphanForever(c, s, run[..n], uid);
      StepKeepsOrphan(c, After(c, s, run[..n]), run[n].op, run[n].fuse, uid);
    }
  }

  // ---------- Roles ----------

  ghost function LiveNames(roles: seq<RoleType>): set<string> {
    set r | r in roles && !r.deleted :: r.name
  }

  lemma {:induction false} ActiveRolesAreLive(roleTypes: seq<RoleType>)
    ensures forall r :: r in ActiveRoles(roleTypes) ==> !r.deleted
  {
    if roleTypes != [] {
      ActiveRolesAreLive(roleTypes[1..]);
    }
  }

  lemma {:induction false} DefaultsAreLive(roleTypes: seq<RoleType>, accountType: AccountType)
    ensures forall r :: r in Defaults(roleTypes, accountType) ==> !r.deleted
  {
    if roleTypes != [] {
      DefaultsAreLive(roleTypes[1..], accountType);
    }
  }

  // Adding gives the wanted roles that were not loaded, and only those.
  lemma {:induction false} AddAllNames(loaded: seq<RoleType>, wanted: seq<Option<RoleType>>, t: Tally)
    requires forall w :: w in wanted && w.Some? ==> !w.value.deleted
    requires AddAll(loaded, wanted, t).ok
    ensures t.ok
    ensures forall w :: w in wanted ==> w.Some?
    ensures LiveNames(AddAll(loaded, wanted, t).rows) ==
            LiveNames(t.rows) + set w | w in wanted && w.Some? && !HoldsName(loaded, w.value.name) :: w.value.name
  {
    if wanted != [] {
      var n := |wanted| - 1;
      var w, rest, u := wanted[n], wanted[..n], AddAll(loaded, wanted[..n], t);
      assert wanted == rest + [w];
      AddAllNames(loaded, rest, t);
      if !HoldsName(loaded, w.value.name) {
        assert forall r :: r in u.rows + [w.value] <==> r in u.rows || r == w.value;
        assert LiveNames(u.rows + [w.value]) == LiveNames(u.rows) + {w.value.name};
      }
    }
  }

  ghost function Count(rows: seq<RoleType>, r: RoleType): nat {
    if rows == [] then 0 else Count(rows[..|rows| - 1], r) + if rows[|rows| - 1] == r then 1 else 0
  }

  function Minus(a: nat, b: nat): nat {
    if a <= b then 0 else a - b
  }

  ghost predicate WantsName(wanted: seq<Option<RoleType>>, name: string) {
    exists w :: w in wanted && w.Some? && w.value.name == name
  }

  lemma {:induction false} CountIsMembership(rows: seq<RoleType>, r: RoleType)
    ensures r in rows <==> Count(rows, r) > 0
  {
    if rows != [] {
      CountIsMembership(rows[..|rows| - 1], r);
      assert rows == rows[..|rows| - 1] + [rows[|rows| - 1]];
    }
  }

  lemma {:induction false} CountConcat(a: seq<RoleType>, b: seq<RoleType>, r: RoleType)
    ensures Count(a + b, r) == Count(a, r) + Count(b, r)
  {
    if b == [] {
      assert a + b == a;
    } else {
      assert (a + b)[..|a + b| - 1] == a + b[..|b| - 1];
      CountConcat(a, b[..|b| - 1], r);
    }
  }

  lemma {:induction false} DeleteRowCount(rows: seq<RoleType>, role: RoleType, r: RoleType)
    ensures Count(DeleteRow(rows, role), r) == Minus(Count(rows, r), if role == r then 1 else 0)
  {
    if rows != [] {
      assert rows == [rows[0]] + rows[1..];
      CountConcat([rows[0]], rows[1..], r);
      CountConcat([rows[0]], DeleteRow(rows[1..], role), r);
      DeleteRowCount(rows[1..], role, r);
    }
  }

  lemma {:induction false} DropEachCount(goes: seq<RoleType>, t: Tally, r: RoleType)
    requires DropEach(goes, t).ok
    ensures t.ok && Count(DropEach(goes, t).rows, r) == Minus(Count(t.rows, r), Count(goes, r))
  {
    if goes != [] {
      DropEachCount(goes[..|goes| - 1], t, r);
      DeleteRowCount(DropEach(goes[..|goes| - 1], t).rows, goes[|goes| - 1], r);
    }
  }

  lemma {:induction false} NamedCount(roles: seq<RoleType>, name: string, r: RoleType)
    ensures Count(Named(roles, name), r) == if !r.deleted && r.name == name then Count(roles, r) else 0
  {
    if roles != [] {
      var n := |roles| - 1;
      NamedCount(roles[..n], name, r);
      CountConcat(Named(roles[..n], name), if !roles[n].deleted && roles[n].name == name then [roles[n]] else [], r);
    }
  }

  // Removing takes away every live row with a wanted name, and no other row.
  lemma {:induction false} RemoveAllCount(loaded: seq<RoleType>, wanted: seq<Option<RoleType>>, t: Tally, r: RoleType)
    requires RemoveAll(loaded, wanted, t).ok
    requires !r.deleted && WantsName(wanted, r.name) ==> Count(t.rows, r) <= Count(loaded, r)
    ensures t.ok
    ensures Count(RemoveAll(loaded, wanted, t).rows, r) ==
            if !r.deleted && WantsName(wanted, r.name) then 0 else Count(t.rows, r)
  {
    if wanted != [] {
      var n := |wanted| - 1;
      assert wanted == wanted[..n] + [wanted[n]];
      var u := RemoveAll(loaded, wanted[..n], t);
      RemoveAllCount(loaded, wanted[..n], t, r);
      if wanted[n].Some? {
        DropEachCount(Named(loaded, wanted[n].value.name), u, r);
        NamedCount(loaded, wanted[n].value.name, r);
      }
    }
  }

  lemma {:induction false} AddAllCount(loaded: seq<RoleType>, wanted: seq<Option<RoleType>>, t: Tally, r: RoleType)
    requires AddAll(loaded, wanted, t).ok
    ensures Count(AddAll(loaded, wanted, t).rows, r) >= Count(t.rows, r)
    ensures !WantsName(wanted, r.name) ==> Count(AddAll(loaded, wanted, t).rows, r) == Count(t.rows, r)
  {
    if wanted != [] {
      var n := |wanted| - 1;
      assert wanted == wanted[..n] + [wanted[n]];
      var u := AddAll(loaded, wanted[..n], t);
      AddAllCount(loaded, wanted[..n], t, r);
      CountConcat(u.rows, [wanted[n].value], r);
      assert |[wanted[n].value][..0]| == 0;
    }
  }

  lemma WantedAreLive(c: Config, names: seq<string>)
    ensures var wanted := Wanted(c.roleTypes, names);
            && (forall w :: w in wanted && w.Some? ==> !w.value.deleted)
            && ((forall w :: w in wanted ==> w.Some?) ==> forall name :: WantsName(wanted, name) <==> name in names)
  {
    ActiveRolesAreLive(c.roleTypes);
    var wanted := Wanted(c.roleTypes, names);
    if forall w :: w in wanted ==> w.Some? {
      forall i | 0 <= i < |names|
        ensures wanted[i].Some? && wanted[i].value.name == names[i] && WantsName(wanted, names[i])
      {
        assert wanted[i] in wanted;
      }
    }
  }

  lemma GivenNames(roles: seq<RoleType>)
    ensures forall name :: WantsName(Given(roles), name) <==> exists r :: r in roles && r.name == name
    ensures forall w :: w in Given(roles) ==> w.Some? && w.value in roles
    ensures forall r :: r in roles ==> Some(r) in Given(roles)
  {
    var given := Given(roles);
    forall r | r in roles
      ensures Some(r) in given && WantsName(given, r.name)
    {
      var i :| 0 <= i < |roles| && roles[i] == r;
      assert given[i] == Some(r);
    }
  }

  lemma {:induction false} UnlistedMembers(roles: seq<RoleType>, names: seq<string>)
    ensures forall r :: r in Unlisted(roles, names) <==> r in roles && !r.deleted && r.name !in names
  {
    if roles != [] {
      UnlistedMembers(roles[1..], names);
      assert roles == [roles[0]] + roles[1..];
    }
  }

  // A live row survives the overwriting exactly if it is there after the additions and listed.
  lemma OverwrittenRow(loaded: seq<RoleType>, wanted: seq<Option<RoleType>>, names: seq<string>, t: Tally, r: RoleType)
    requires t.rows == loaded && !r.deleted
    requires forall name :: WantsName(wanted, name) ==> name in names
    requires var added := AddAll(loaded, wanted, t);
             added.ok && RemoveAll(loaded, Given(Unlisted(loaded, names)), added).ok
    ensures var added := AddAll(loaded, wanted, t);
            r in RemoveAll(loaded, Given(Unlisted(loaded, names)), added).rows <==> r in added.rows && r.name in names
  {
    var surplus, added := Given(Unlisted(loaded, names)), AddAll(loaded, wanted, t);
    GivenNames(Unlisted(loaded, names));
    UnlistedMembers(loaded, names);
    AddAllCount(loaded, wanted, t, r);
    RemoveAllCount(loaded, surplus, added, r);
    CountIsMembership(RemoveAll(loaded, surplus, added).rows, r);
    CountIsMembership(added.rows, r);
    CountIsMembership(loaded, r);
  }

  lemma AddedNames(c: Config, loaded: seq<RoleType>, names: seq<string>, t: Tally)
    requires t.rows == loaded && AddAll(loaded, Wanted(c.roleTypes, names), t).ok
    ensures LiveNames(AddAll(loaded, Wanted(c.roleTypes, names), t).rows) == LiveNames(loaded) + set n | n in names
    ensures forall name :: WantsName(Wanted(c.roleTypes, names), name) <==> name in names
  {
    var wanted := Wanted(c.roleTypes, names);
    WantedAreLive(c, names);
    AddAllNames(loaded, wanted, t);
    assert forall n :: WantsName(wanted, n) <==> n in names;
    assert forall n :: HoldsName(loaded, n) <==> n in LiveNames(loaded);
  }

  lemma OverwrittenNames(c: Config, loaded: seq<RoleType>, names: seq<string>, t: Tally)
    requires t.rows == loaded && Overwritten(c, loaded, names, t).ok
    ensures LiveNames(Overwritten(c, loaded, names, t).rows) == set n | n in names
  {
    var wanted, surplus := Wanted(c.roleTypes, names), Given(Unlisted(loaded, names));
    var added := AddAll(loaded, wanted, t);
    var removed := RemoveAll(loaded, surplus, added);
    RemoveAllOk(loaded, surplus, added);
    AddedNames(c, loaded, names, t);
    forall r: RoleType | !r.deleted
      ensures r in removed.rows <==> r in added.rows && r.name in names
    {
      OverwrittenRow(loaded, wanted, names, t, r);
    }
    NamesOfSelected(added.rows, removed.rows, names);
  }

  // Overwriting the roles of a principal leaves it with live roles of exactly the listed names.
  lemma OverwriteSetsRoleNames(c: Config, s: State, uid: string, names: seq<string>, fuse: nat)
    requires uid in s.principals && s.principals[uid].accountType.RolesEditable()
    requires Step(c, s, OverwriteRoles(uid, names), fuse).reply == Done
    ensures var s' := Step(c, s, OverwriteRoles(uid, names), fuse).state;
            uid in s'.principals && LiveNames(s'.principals[uid].roles) == set n | n in names
  {
    OverwrittenNames(c, s.principals[uid].roles, names, Tally(s.principals[uid].roles, fuse, true));
  }

  // Adding roles gives the principal live roles of the listed names beside those it had.
  lemma AddRolesAddsNames(c: Config, s: State, uid: string, names: seq<string>, fuse: nat)
    requires uid in s.principals && s.principals[uid].accountType.RolesEditable()
    requires Step(c, s, AddRoles(uid, names), fuse).reply == Done
    ensures var s' := Step(c, s, AddRoles(uid, names), fuse).state;
            && uid in s'.principals
            && LiveNames(s'.principals[uid].roles) == LiveNames(s.principals[uid].roles) + set n | n in names
  {
    AddedNames(c, s.principals[uid].roles, names, Tally(s.principals[uid].roles, fuse, true));
  }

  // An unknown role type goes unnoticed only when there is no live role to compare it with.
  lemma {:induction false} UnknownNeedsNoLiveRole(loaded: seq<RoleType>, wanted: seq<Option<RoleType>>, t: Tally)
    requires RemoveAll(loaded, wanted, t).ok && None in wanted
    ensures AllDeleted(loaded)
  {
    var n := |wanted| - 1;
    assert wanted == wanted[..n] + [wanted[n]];
    if wanted[n].Some? {
      RemoveAllOk(loaded, [wanted[n]], RemoveAll(loaded, wanted[..n], t));
      UnknownNeedsNoLiveRole(loaded, wanted[..n], t);
    }
  }

  // Removing roles leaves the principal without live roles of the listed names, and with
  // every other row it had.
  lemma RemoveRolesRemovesNames(c: Config, s: State, uid: string, names: seq<string>, fuse: nat)
    requires uid in s.principals && s.principals[uid].accountType.RolesEditable()
    requires Step(c, s, RemoveRoles(uid, names), fuse).reply == Done
    ensures var s' := Step(c, s, RemoveRoles(uid, names), fuse).state;
            && uid in s'.principals
            && forall r :: Count(s'.principals[uid].roles, r) ==
                           if !r.deleted && r.name in names then 0 else Count(s.principals[uid].roles, r)
  {
    var loaded := s.principals[uid].roles;
    var wanted, t := Wanted(c.roleTypes, names), Tally(loaded, fuse, true);
    forall r
      ensures Count(RemoveAll(loaded, wanted, t).rows, r) ==
              if !r.deleted && r.name in names then 0 else Count(loaded, r)
    {
      RemoveAllCount(loaded, wanted, t, r);
      if r.name in names && !WantsName(wanted, r.name) {
        var i :| 0 <= i < |names| && names[i] == r.name;
        assert wanted[i] in wanted && wanted[i].None?;
        UnknownNeedsNoLiveRole(loaded, wanted, t);
        CountIsMembership(loaded, r);
      } else if WantsName(wanted, r.name) {
        var w :| w in wanted && w.Some? && w.value.name == r.name;
        var i :| 0 <= i < |wanted| && wanted[i] == w;
        assert names[i] == r.name;
      }
    }
  }

  lemma NamesOfSelected(all: seq<RoleType>, rows: seq<RoleType>, names: seq<string>)
    requires forall r: RoleType :: !r.deleted ==> (r in rows <==> r in all && r.name in names)
    ensures LiveNames(rows) == set n | n in names && n in LiveNames(all)
  {
    forall n | n in names && n in LiveNames(all)
      ensures n in LiveNames(rows)
    {
      var r :| r in all && !r.deleted && r.name == n;
      assert r in rows;
    }
  }

  lemma {:induction false} RemoveAllOk(loaded: seq<RoleType>, wanted: seq<Option<RoleType>>, t: Tally)
    requires RemoveAll(loaded, wanted, t).ok
    ensures t.ok
  {
    if wanted != [] {
      RemoveAllOk(loaded, wanted[..|wanted| - 1], t);
    }
  }

  // Changing the account type drops every role and then adds the defaults of the new
  // type. Because the loaded roles are still the test for what is missing, a default
  // that the principal held before is dropped and not added back: all defaults of the
  // new type are held afterwards if and only if none of them was held before.
  lemma ChangedTypeHoldsDefaultsIff(c: Config, s: State, uid: string, accountType: AccountType, fuse: nat)
    requires Step(c, s, UpdateUserAccountType(uid, accountType), fuse).reply == Done
    ensures uid in s.principals
    ensures var s', defaults := Step(c, s, UpdateUserAccountType(uid, accountType), fuse).state,
                                Defaults(c.roleTypes, accountType);
            && uid in s'.principals
            && s'.principals[uid].accountType == accountType
            && LiveNames(s'.principals[uid].roles) ==
               (set d | d in defaults && !HoldsName(s.principals[uid].roles, d.name) :: d.name)
            && ((forall d :: d in defaults ==> HoldsName(s'.principals[uid].roles, d.name)) <==>
                (forall d :: d in defaults ==> !HoldsName(s.principals[uid].roles, d.name)))
  {
    var p := s.principals[uid];
    var defaults := Defaults(c.roleTypes, accountType);
    var dropped := DropEach(p.roles, Tally(p.roles, fuse, true));
    var wanted := Given(defaults);
    assert InitialRoles(c, accountType, None) == wanted;
    DefaultsAreLive(c.roleTypes, accountType);
    assert AddAll(p.roles, wanted, dropped).ok;
    AddAllNames(p.roles, wanted, dropped);
    forall r
      ensures r !in dropped.rows
    {
      DropEachCount(p.roles, Tally(p.roles, fuse, true), r);
      CountIsMembership(dropped.rows, r);
    }
    GivenNames(defaults);
    var roles := AddAll(p.roles, wanted, dropped).rows;
    assert forall name :: HoldsName(roles, name) <==> name in LiveNames(roles);
  }
}
