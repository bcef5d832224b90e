/** What the operations that change role rows without a transaction leave behind when a call fails. */
module AccountFailures {
  import opened Wrappers
  import opened AccountModel
  import opened AccountLaws

  function Min(a: nat, b: nat): nat {
    if a <= b then a else b
  }

  ghost function Deleted(rows: seq<RoleType>, goes: seq<RoleType>): seq<RoleType> {
    if goes == [] then rows else DeleteRow(Deleted(rows, goes[..|goes| - 1]), goes[|goes| - 1])
  }

  // The rows that a removal deletes, in its order, until it meets an unknown role.
  ghost function Doomed(loaded: seq<RoleType>, wanted: seq<Option<RoleType>>): seq<RoleType> {
    if wanted == [] then []
    else
      var n := |wanted| - 1;
      Doomed(loaded, wanted[..n]) + if None in wanted then [] else Named(loaded, wanted[n].value.name)
  }

  // Some listed and known role is held, and every name before it is known.
  ghost predicate Deletes(loaded: seq<RoleType>, wanted: seq<Option<RoleType>>) {
    exists i :: 0 <= i < |wanted| && None !in wanted[..i + 1] && HoldsName(loaded, wanted[i].value.name)
  }

  // ---------- Deleting rows one after the other ----------

  // As many rows go as calls succeed.
  lemma {:induction false} DropEachIsPrefix(goes: seq<RoleType>, t: Tally)
    requires t.ok
    ensures var k := Min(t.fuse, |goes|);
            DropEach(goes, t) == Tally(Deleted(t.rows, goes[..k]), t.fuse - k, k == |goes|)
  {
    if goes == [] {
      assert goes[..0] == [];
    } else {
      var n := |goes| - 1;
      DropEachIsPrefix(goes[..n], t);
      if t.fuse <= n {
        assert goes[..n][..t.fuse] == goes[..t.fuse];
      } else {
        assert goes[..n][..n] == goes[..n] && goes[..n + 1] == goes;
      }
    }
  }

  lemma {:induction false} DeletedConcat(rows: seq<RoleType>, a: seq<RoleType>, b: seq<RoleType>)
    ensures Deleted(rows, a + b) == Deleted(Deleted(rows, a), b)
  {
    if b == [] {
      assert a + b == a;
    } else {
      var n := |b| - 1;
      assert (a + b)[..|a + b| - 1] == a + b[..n];
      DeletedConcat(rows, a, b[..n]);
    }
  }

  lemma {:induction false} RemoveAllIsPrefix(loaded: seq<RoleType>, wanted: seq<Option<RoleType>>, t: Tally)
    requires t.ok
    ensures var goes, u := Doomed(loaded, wanted), RemoveAll(loaded, wanted, t);
            var k := Min(t.fuse, |goes|);
            && u.rows == Deleted(t.rows, goes[..k]) && u.fuse == t.fuse - k
            && (u.ok <==> k == |goes| && (None !in wanted || AllDeleted(loaded)))
  {
    if wanted == [] {
      assert Doomed(loaded, wanted)[..0] == [];
    } else {
      var n := |wanted| - 1;
      assert wanted == wanted[..n] + [wanted[n]];
      RemoveAllIsPrefix(loaded, wanted[..n], t);
      var before, u := Doomed(loaded, wanted[..n]), RemoveAll(loaded, wanted[..n], t);
      if None !in wanted && u.ok {
        DropMore(before, Named(loaded, wanted[n].value.name), t);
      } else if None !in wanted {
        var goes := before + Named(loaded, wanted[n].value.name);
        assert goes[..t.fuse] == before[..t.fuse];
      } else {
        assert before + [] == before;
        if u.ok && wanted[n].Some? {
          NothingNamed(loaded, wanted[n].value.name);
        }
      }
    }
  }

  lemma PrefixOfBoth(before: seq<RoleType>, more: seq<RoleType>, n: nat)
    requires |before| <= n
    ensures (before + more)[..Min(n, |before + more|)] == before + more[..Min(n - |before|, |more|)]
  {
  }

  lemma DropMore(before: seq<RoleType>, more: seq<RoleType>, t: Tally)
    requires t.ok && |before| <= t.fuse
    ensures var goes, u := before + more, Tally(Deleted(t.rows, before), t.fuse - |before|, true);
            var k := Min(t.fuse, |goes|);
            DropEach(more, u) == Tally(Deleted(t.rows, goes[..k]), t.fuse - k, k == |goes|)
  {
    var u := Tally(Deleted(t.rows, before), t.fuse - |before|, true);
    var k := Min(u.fuse, |more|);
    DropEachIsPrefix(more, u);
    DeletedConcat(t.rows, before, more[..k]);
    PrefixOfBoth(before, more, t.fuse);
  }

  lemma {:induction false} NamedIsEmptyIff(roles: seq<RoleType>, name: string)
    ensures Named(roles, name) == [] <==> !HoldsName(roles, name)
    ensures forall r :: r in Named(roles, name) ==> r in roles
  {
    if roles != [] {
      var n := |roles| - 1;
      assert roles == roles[..n] + [roles[n]];
      NamedIsEmptyIff(roles[..n], name);
    }
  }

  lemma NothingNamed(loaded: seq<RoleType>, name: string)
    requires AllDeleted(loaded)
    ensures Named(loaded, name) == []
  {
    NamedIsEmptyIff(loaded, name);
  }

  lemma {:induction false} DoomedIff(loaded: seq<RoleType>, wanted: seq<Option<RoleType>>)
    ensures Doomed(loaded, wanted) != [] <==> Deletes(loaded, wanted)
    ensures forall r :: r in Doomed(loaded, wanted) ==> r in loaded
  {
    if wanted != [] {
      var n := |wanted| - 1;
      assert wanted[..n + 1] == wanted;
      DoomedIff(loaded, wanted[..n]);
      forall i | 0 <= i < n
        ensures wanted[..n][..i + 1] == wanted[..i + 1] && wanted[..n][i] == wanted[i]
      {
      }
      if None !in wanted {
        NamedIsEmptyIff(loaded, wanted[n].value.name);
      }
      DeletesOneMore(loaded, wanted);
    }
  }

  lemma DeletesOneMore(loaded: seq<RoleType>, wanted: seq<Option<RoleType>>)
    requires wanted != []
    ensures var n := |wanted| - 1;
            Deletes(loaded, wanted) <==>
            Deletes(loaded, wanted[..n]) || (None !in wanted && HoldsName(loaded, wanted[n].value.name))
  {
    var n := |wanted| - 1;
    var front := wanted[..n];
    assert wanted[..n + 1] == wanted;
    forall i | 0 <= i < n
      ensures front[..i + 1] == wanted[..i + 1] && front[i] == wanted[i]
    {
    }
    if Deletes(loaded, front) {
      var i :| 0 <= i < |front| && None !in front[..i + 1] && HoldsName(loaded, front[i].value.name);
      assert None !in wanted[..i + 1];
    }
    if Deletes(loaded, wanted) {
      var i :| 0 <= i < |wanted| && None !in wanted[..i + 1] && HoldsName(loaded, wanted[i].value.name);
      if i < n {
        assert None !in front[..i + 1];
      }
    }
  }

  lemma {:induction false} DeleteRowShortens(rows: seq<RoleType>, role: RoleType)
    ensures |DeleteRow(rows, role)| == |rows| - if role in rows then 1 else 0
  {
    if rows != [] {
      DeleteRowShortens(rows[1..], role);
      assert rows == [rows[0]] + rows[1..];
    }
  }

  lemma {:induction false} DeletedShortens(rows: seq<RoleType>, goes: seq<RoleType>)
    ensures |Deleted(rows, goes)| <= |rows|
    ensures goes != [] && goes[0] in rows ==> |Deleted(rows, goes)| < |rows|
  {
    if goes != [] {
      var n := |goes| - 1;
      DeletedShortens(rows, goes[..n]);
      DeleteRowShortens(Deleted(rows, goes[..n]), goes[n]);
    }
  }

  // ---------- Removing roles ----------

  // For every point of failure: the rows that a removal of roles deletes are the first of
  // its list, one for each call that succeeds.
  lemma RemovalIsPrefix(c: Config, s: State, uid: string, names: seq<string>, fuse: nat)
    requires Check(s, uid).None? && s.principals[uid].accountType.RolesEditable()
    ensures var p, wanted := s.principals[uid], Wanted(c.roleTypes, names);
            var goes := Doomed(p.roles, wanted);
            var o := Step(c, s, RemoveRoles(uid, names), fuse);
            && o.state.principals == s.principals[uid := p.(roles := Deleted(p.roles, goes[..Min(fuse, |goes|)]))]
            && o.reply == DoneIf(fuse > |goes| && (None !in wanted || AllDeleted(p.roles)))
  {
    var p := s.principals[uid];
    RemoveAllIsPrefix(p.roles, Wanted(c.roleTypes, names), Tally(p.roles, fuse, true));
  }

  // So a removal, failed or not, keeps the roles as they were if and only if its first call
  // failed or it had nothing to delete before the first unknown name.
  lemma RemovalKeepsRolesIff(c: Config, s: State, uid: string, names: seq<string>, fuse: nat)
    requires Check(s, uid).None? && s.principals[uid].accountType.RolesEditable()
    ensures var t := Step(c, s, RemoveRoles(uid, names), fuse).state;
            && uid in t.principals
            && (t.principals[uid] == s.principals[uid] <==>
                fuse == 0 || !Deletes(s.principals[uid].roles, Wanted(c.roleTypes, names)))
  {
    var roles, wanted := s.principals[uid].roles, Wanted(c.roleTypes, names);
    var goes := Doomed(roles, wanted);
    RemovalIsPrefix(c, s, uid, names, fuse);
    DoomedIff(roles, wanted);
    var gone := goes[..Min(fuse, |goes|)];
    if gone == [] {
      assert Deleted(roles, gone) == roles;
    } else {
      assert gone[0] == goes[0] && goes[0] in goes;
      DeletedShortens(roles, gone);
    }
  }

  // Removing one role is removing a list of one.
  lemma RemoveRoleIsRemoveRoles(c: Config, s: State, uid: string, name: string, fuse: nat)
    ensures Step(c, s, RemoveRole(uid, name), fuse) == Step(c, s, RemoveRoles(uid, [name]), fuse)
  {
    var wanted := Wanted(c.roleTypes, [name]);
    assert wanted == [LookupRole(ActiveRoles(c.roleTypes), name)] && wanted[..0] == [];
    if Check(s, uid).None? {
      var roles := s.principals[uid].roles;
      var t := Tally(roles, fuse, true);
      assert RemoveAll(roles, wanted[..0], t) == t;
    }
  }

  lemma DoomedPair(a: RoleType, b: RoleType)
    requires a.name != b.name && !a.deleted && !b.deleted
    ensures Doomed([a, b], [Some(a), Some(b)]) == [a, b]
    ensures Deleted([a, b], [a, b][..1]) == [b]
  {
    var roles, wanted := [a, b], [Some(a), Some(b)];
    assert roles[..1] == [a] && roles[..0] == [] && wanted[..1] == [Some(a)] && wanted[..0] == [];
    assert Named([a], a.name) == [a] && Named([a], b.name) == [];
    assert Named(roles, a.name) == [a] && Named(roles, b.name) == [b];
    assert Doomed(roles, wanted[..0]) == [];
    assert Doomed(roles, wanted[..1]) == [a];
    assert [a][..0] == [] && roles[1..] == [b];
  }

  // Half a removal: when only one call succeeds, the first of two roles is gone.
  lemma HalfARemoval(c: Config, s: State, uid: string, a: RoleType, b: RoleType, fuse: nat)
    requires a.name != b.name && !a.deleted && !b.deleted && fuse == 1
    requires Wanted(c.roleTypes, [a.name, b.name]) == [Some(a), Some(b)]
    requires Check(s, uid).None? && s.principals[uid].accountType.RolesEditable() && s.principals[uid].roles == [a, b]
    ensures var o := Step(c, s, RemoveRoles(uid, [a.name, b.name]), fuse);
            o.reply == Thrown(Broken) && uid in o.state.principals && o.state.principals[uid].roles == [b]
  {
    DoomedPair(a, b);
    RemovalIsPrefix(c, s, uid, [a.name, b.name], fuse);
  }

  // ---------- Changing the account type ----------

  // The roles to add: those whose name was not held.
  ghost function Missing(loaded: seq<RoleType>, defaults: seq<RoleType>): seq<RoleType> {
    if defaults == [] then []
    else
      var n := |defaults| - 1;
      Missing(loaded, defaults[..n]) + if HoldsName(loaded, defaults[n].name) then [] else [defaults[n]]
  }

  lemma {:induction false} AddAllIsPrefix(loaded: seq<RoleType>, defaults: seq<RoleType>, t: Tally)
    requires t.ok
    ensures var more := Missing(loaded, defaults);
            var k := Min(t.fuse, |more|);
            AddAll(loaded, Given(defaults), t) == Tally(t.rows + more[..k], t.fuse - k, k == |more|)
  {
    if defaults == [] {
      assert t.rows + Missing(loaded, defaults)[..0] == t.rows;
    } else {
      var n := |defaults| - 1;
      var before, more := Missing(loaded, defaults[..n]), Missing(loaded, defaults);
      assert Given(defaults)[..n] == Given(defaults[..n]);
      AddAllIsPrefix(loaded, defaults[..n], t);
      if t.fuse < |before| {
        assert more[..t.fuse] == before[..t.fuse];
      } else {
        assert more[..|before|] == before == before[..|before|];
      }
    }
  }

  // Dropping the rows in their own order leaves the later ones.
  lemma {:induction false} DroppedAreFirst(rows: seq<RoleType>, k: nat)
    requires k <= |rows|
    ensures Deleted(rows, rows[..k]) == rows[k..]
  {
    if k > 0 {
      DroppedAreFirst(rows, k - 1);
      assert rows[..k][..k - 1] == rows[..k - 1];
      assert rows[k - 1..][0] == rows[k - 1] && rows[k - 1..][1..] == rows[k..];
    }
  }

  lemma ResetIsPrefix(loaded: seq<RoleType>, defaults: seq<RoleType>, fuse: nat)
    ensures var more, n := Missing(loaded, defaults), |loaded|;
            AddAll(loaded, Given(defaults), DropEach(loaded, Tally(loaded, fuse, true))) ==
            if fuse < n then Tally(loaded[fuse..], 0, false)
            else var k := Min(fuse - n, |more|); Tally(more[..k], fuse - n - k, k == |more|)
  {
    var t := Tally(loaded, fuse, true);
    DropEachIsPrefix(loaded, t);
    DroppedAreFirst(loaded, Min(fuse, |loaded|));
    var dropped := DropEach(loaded, t);
    if dropped.ok {
      AddAllIsPrefix(loaded, defaults, dropped);
    } else {
      NothingAfterFailure(loaded, Given(defaults), dropped);
    }
  }

  lemma ChangeOfTypeIsReset(c: Config, s: State, uid: string, accountType: AccountType, fuse: nat)
    requires Check(s, uid).None?
    ensures var p, defaults := s.principals[uid], Defaults(c.roleTypes, accountType);
            var u := AddAll(p.roles, Given(defaults), DropEach(p.roles, Tally(p.roles, fuse, true)));
            var o := Step(c, s, UpdateUserAccountType(uid, accountType), fuse);
            && uid in o.state.principals
            && o.state.principals[uid] ==
               p.(roles := u.rows, accountType := if u.ok && u.fuse >= 1 then accountType else p.accountType)
            && o.reply == DoneIf(u.ok && u.fuse >= 2)
  {
    assert InitialRoles(c, accountType, None) == Given(Defaults(c.roleTypes, accountType));
  }

  // For every point of failure: a change of type drops the roles one by one, adds the
  // missing defaults one by one, and then writes the type.
  lemma ChangeOfTypeIsPrefix(c: Config, s: State, uid: string, accountType: AccountType, fuse: nat)
    requires Check(s, uid).None?
    ensures var p, more := s.principals[uid], Missing(s.principals[uid].roles, Defaults(c.roleTypes, accountType));
            var n, o := |p.roles|, Step(c, s, UpdateUserAccountType(uid, accountType), fuse);
            && uid in o.state.principals
            && o.state.principals[uid] ==
               p.(roles := if fuse <= n then p.roles[fuse..] else more[..Min(fuse - n, |more|)],
                  accountType := if fuse > n + |more| then accountType else p.accountType)
            && o.reply == DoneIf(fuse >= n + |more| + 2)
  {
    ChangeOfTypeIsReset(c, s, uid, accountType, fuse);
    ResetIsPrefix(s.principals[uid].roles, Defaults(c.roleTypes, accountType), fuse);
  }

  lemma {:induction false} NothingAfterFailure(loaded: seq<RoleType>, wanted: seq<Option<RoleType>>, t: Tally)
    requires !t.ok
    ensures AddAll(loaded, wanted, t) == t
  {
    if wanted != [] {
      NothingAfterFailure(loaded, wanted[..|wanted| - 1], t);
    }
  }

  lemma {:induction false} MissingAreNew(loaded: seq<RoleType>, defaults: seq<RoleType>)
    requires forall d :: d in defaults ==> !d.deleted
    ensures forall d :: d in Missing(loaded, defaults) ==> d !in loaded
    ensures loaded == [] ==> |Missing(loaded, defaults)| == |defaults|
  {
    if defaults != [] {
      MissingAreNew(loaded, defaults[..|defaults| - 1]);
    }
  }

  // So a change of type, failed or not, keeps the principal as it was if and only if its
  // first call failed or there was nothing to change.
  lemma ChangeOfTypeKeepsPrincipalIff(c: Config, s: State, uid: string, accountType: AccountType, fuse: nat)
    requires Check(s, uid).None?
    ensures var p, t := s.principals[uid], Step(c, s, UpdateUserAccountType(uid, accountType), fuse).state;
            && uid in t.principals
            && (t.principals[uid] == p <==>
                || fuse == 0
                || (p.roles == [] && Defaults(c.roleTypes, accountType) == [] && p.accountType == accountType))
  {
    var p, defaults := s.principals[uid], Defaults(c.roleTypes, accountType);
    var more, n := Missing(p.roles, defaults), |p.roles|;
    ChangeOfTypeIsPrefix(c, s, uid, accountType, fuse);
    DefaultsAreLive(c.roleTypes, accountType);
    MissingAreNew(p.roles, defaults);
    if fuse == 0 {
      assert p.roles[0..] == p.roles;
    } else if fuse > n {
      var roles := more[..Min(fuse - n, |more|)];
      if more != [] {
        assert roles[0] == more[0] && more[0] in more && roles[0] !in p.roles;
      }
    }
  }

  // ---------- The other updates ----------

  // A new name or mail is in the back-end once its first call succeeded, also when the
  // principal turns out to be missing or the event is not posted.
  lemma ProfileUpdateLeaves(c: Config, s: State, op: Op, fuse: nat)
    requires op.UpdateBasicUserData? || op.UpdateMail?
    ensures var o := Step(c, s, op, fuse);
            && o.reply == (if op.uid in s.backend && op.uid in s.principals && fuse >= 2 then Done else Thrown(Broken))
            && o.state.principals == s.principals
            && if op.uid !in s.backend || fuse == 0 then o.state.backend == s.backend
               else
                 var b := s.backend[op.uid];
                 o.state.backend == s.backend[op.uid :=
                   if op.UpdateMail? then b.(mail := op.mail)
                   else b.(firstName := op.firstName, lastName := op.lastName)]
  {
  }

  lemma LanguageUpdateLeaves(c: Config, s: State, uid: string, language: string, fuse: nat)
    requires Check(s, uid).None?
    ensures var o := Step(c, s, UpdatePreferredLanguage(uid, language), fuse);
            && o.reply == (if fuse >= 2 then Done else Thrown(Broken))
            && o.state.backend == s.backend
            && o.state.principals ==
               if fuse == 0 then s.principals
               else s.principals[uid := s.principals[uid].(preferredLanguage := Some(language))]
  {
  }

  // An activation changes both stores or neither, but for a back-end outside the
  // transaction when the last call fails.
  lemma ActivationLeaves(c: Config, s: State, uid: string, active: bool, fuse: nat)
    requires Check(s, uid).None?
    ensures var o := Step(c, s, UpdateActivationStatus(uid, active), fuse);
            var p, b := s.principals[uid].(isActive := active), s.backend[uid].(isActive := active);
            && o.reply == (if fuse >= 3 then Done else Thrown(Broken))
            && o.state.principals == (if fuse >= 3 then s.principals[uid := p] else s.principals)
            && (fuse >= 3 ==> o.state.backend == s.backend[uid := b])
            && (fuse <= 1 ==> o.state.backend == s.backend)
            && (fuse == 2 ==> o.state.backend == if c.backendInTransaction then s.backend else s.backend[uid := b])
  {
  }

  // A deletion takes the account from both stores or from neither.
  lemma DeletionLeaves(c: Config, s: State, uid: string, fuse: nat)
    requires Check(s, uid).None?
    ensures var o := Step(c, s, DeleteAccount(uid), fuse);
            && o.reply == (if fuse >= 3 then Done else Thrown(Broken))
            && (fuse >= 2 ==> uid !in o.state.principals && uid !in o.state.backend)
            && (fuse <= 1 ==> SameStores(s, o.state))
            && forall u :: u != uid ==>
                 SameAt(s.principals, o.state.principals, u) && SameAt(s.backend, o.state.backend, u)
  {
  }

  // When a password change, which outside master mode does nothing, and a resynchronisation
  // succeed; what neither changes.
  lemma PasswordOrResyncLeaves(c: Config, s: State, op: Op, fuse: nat)
    requires op.UpdatePassword? || op.Resync?
    ensures var o := Step(c, s, op, fuse);
            && o.state.principals == s.principals
            && (op.UpdatePassword? ==>
                  && (o.reply == Done <==> !c.masterMode || (op.uid in s.backend && fuse >= 1))
                  && (o.reply != Done || !c.masterMode ==> o.state.backend == s.backend))
            && (op.Resync? ==>
                  && (o.reply == Done <==> op.uid in s.principals && op.uid in s.backend && fuse >= 1)
                  && o.state.backend == s.backend)
  {
  }

  // What is answered for a principal that lost its back-end account, and for a uid without
  // a principal; neither store changes.
  lemma BrokenAccountsAreReported(c: Config, s: State, op: Op, fuse: nat)
    requires op.NeedsAccount() || op.FindByUid? || op.IsUserIdExists? || op.Resync?
    requires op.uid !in s.principals || op.uid !in s.backend
    requires op.uid !in s.cache
    ensures var o := Step(c, s, op, fuse);
            && SameStores(s, o.state)
            && (op.uid in s.principals ==> o.reply == Thrown(Inconsistency))
            && (op.uid !in s.principals ==>
                  && (op.NeedsAccount() ==> o.reply == Thrown(UnknownAccount))
                  && (op.FindByUid? ==> o.reply == Reply.Missing)
                  && (op.IsUserIdExists? ==> o.reply == Answer(false))
                  && (op.Resync? ==> o.reply == Thrown(Broken)))
  {
  }

  // ---------- Roles in a transaction ----------

  ghost function Unheld(loaded: seq<RoleType>, wanted: seq<Option<RoleType>>): nat {
    if wanted == [] then 0
    else
      var n := |wanted| - 1;
      Unheld(loaded, wanted[..n]) + if wanted[n].None? || HoldsName(loaded, wanted[n].value.name) then 0 else 1
  }

  // Adding succeeds if every name is known and there is a call for each role not held.
  lemma {:induction false} AddAllOkIff(loaded: seq<RoleType>, wanted: seq<Option<RoleType>>, t: Tally)
    requires t.ok
    ensures var u := AddAll(loaded, wanted, t);
            && (u.ok <==> None !in wanted && t.fuse >= Unheld(loaded, wanted))
            && (u.ok ==> u.fuse == t.fuse - Unheld(loaded, wanted))
  {
    if wanted != [] {
      var n := |wanted| - 1;
      assert wanted == wanted[..n] + [wanted[n]];
      AddAllOkIff(loaded, wanted[..n], t);
    }
  }

  // Additions and replacements of roles are whole or leave everything as it was.
  lemma RoleChangesAreWhole(c: Config, s: State, op: Op, fuse: nat)
    requires op.AddRoles? || op.OverwriteRoles?
    ensures var o := Step(c, s, op, fuse);
            && (o.reply != Done ==> SameStores(s, o.state))
            && (Check(s, op.uid).None? && s.principals[op.uid].accountType == STANDARD ==>
                  var loaded, wanted := s.principals[op.uid].roles, Wanted(c.roleTypes, op.names);
                  var surplus := if op.AddRoles? then [] else Doomed(loaded, Given(Unlisted(loaded, op.names)));
                  o.reply == Done <==> None !in wanted && fuse >= Unheld(loaded, wanted) + |surplus| + 1)
  {
    if Check(s, op.uid).None? {
      var loaded, wanted := s.principals[op.uid].roles, Wanted(c.roleTypes, op.names);
      var t := Tally(loaded, fuse, true);
      AddAllOkIff(loaded, wanted, t);
      var added, surplus := AddAll(loaded, wanted, t), Given(Unlisted(loaded, op.names));
      if added.ok {
        RemoveAllIsPrefix(loaded, surplus, added);
      } else if RemoveAll(loaded, surplus, added).ok {
        RemoveAllOk(loaded, surplus, added);
      }
    }
  }

  // One role is added, or held already; it stays when only the event fails.
  lemma RoleAdditionLeaves(c: Config, s: State, uid: string, name: string, fuse: nat)
    requires Check(s, uid).None? && s.principals[uid].accountType == STANDARD
    ensures var roles, role := s.principals[uid].roles, LookupRole(ActiveRoles(c.roleTypes), name);
            var o := Step(c, s, AddRole(uid, name), fuse);
            var calls := if HoldsName(roles, name) then 0 else 1;
            && o.reply == (if role.Some? && fuse >= calls + 1 then Done else Thrown(Broken))
            && uid in o.state.principals
            && o.state.principals[uid].roles ==
               if role.Some? && fuse >= 1 && calls == 1 then roles + [role.value] else roles
  {
  }

  // The roles of the other account type cannot be edited: nothing happens, and well.
  lemma FixedRolesStay(c: Config, s: State, op: Op, fuse: nat)
    requires op.AddRoles? || op.RemoveRoles? || op.AddRole? || op.RemoveRole? || op.OverwriteRoles?
    requires Check(s, op.uid).None? && s.principals[op.uid].accountType == VIEWER
    ensures var o := Step(c, s, op, fuse); o.reply == Done && SameStores(s, o.state)
  {
  }
}
