/**
 The items of a menu, the pure forest that a menu's lists represent, and the two
 rewrites of that forest: inserting beside an item and pruning listed items.
 */
module MenuItems {
  import opened FrameworkConstants
  import opened Wrappers
  import opened Inheritance

  type Permissions = seq<seq<string>>

  // The mutable list object that a menu or a header item owns.
  class MenuItemList {
    var items: seq<MenuItem>

    constructor ()
      ensures items == []
    {
      items := [];
    }
  }

  // A header item owns a list; a clickable item or a separator owns none.
  class MenuItem {
    const uuid: string
    const subMenuItems: MenuItemList?
    var parent: MenuItem?
    var authorizedPermissions: Option<Permissions>

    constructor (uuid: string, subMenuItems: MenuItemList?)
      ensures this.uuid == uuid && this.subMenuItems == subMenuItems
      ensures parent == null && authorizedPermissions == None
    {
      this.uuid := uuid;
      this.subMenuItems := subMenuItems;
      parent := null;
      authorizedPermissions := None;
    }

    predicate HasSubMenuItems()
      reads subMenuItems
    {
      subMenuItems != null && subMenuItems.items != []
    }

    // `all` holds this item and every ancestor, and `rank` shows that the links end.
    method GetAuthorizedPermissions(ghost all: set<MenuItem>, ghost rank: map<MenuItem, nat>) returns (r: Permissions)
      requires this in all && Linked(all, rank)
      modifies all`authorizedPermissions
      ensures r == old(Effective(ParentsOf(all), OwnOf(all), rank, this, PRIVATE))
      ensures OwnOf(all) == old(Memo(ParentsOf(all), OwnOf(all), rank, this, PRIVATE))
      decreases rank[this]
    {
      if authorizedPermissions == None && parent != null {
        assert this in ParentsOf(all) && ParentsOf(all)[this] == parent;
        r := parent.GetAuthorizedPermissions(all, rank);
        return;
      }
      if authorizedPermissions == None {
        authorizedPermissions := Some(PRIVATE);
      }
      return authorizedPermissions.value;
    }

    method SetAuthorizedPermissions(authorizedRoles: Option<Permissions>)
      modifies this`authorizedPermissions
      ensures authorizedPermissions == authorizedRoles
    {
      authorizedPermissions := authorizedRoles;
    }

    method AddSubMenuItem(menuItem: MenuItem)
      requires subMenuItems != null
      modifies menuItem`parent, subMenuItems
      ensures menuItem.parent == this
      ensures subMenuItems.items == old(subMenuItems.items) + [menuItem]
    {
      menuItem.parent := this;
      subMenuItems.items := subMenuItems.items + [menuItem];
    }
  }

  const PRIVATE: Permissions := [[DEFAULT_PERMISSION_PRIVATE]]

  ghost function ParentsOf(all: set<MenuItem>): map<MenuItem, MenuItem>
    reads all
  {
    map x | x in all && x.parent != null :: var p: MenuItem := x.parent; p
  }

  ghost function OwnOf(all: set<MenuItem>): map<MenuItem, Permissions>
    reads all
  {
    map x | x in all && x.authorizedPermissions.Some? :: x.authorizedPermissions.value
  }

  // The set is closed under parents and has no cycle of them.
  ghost predicate Linked(all: set<MenuItem>, rank: map<MenuItem, nat>)
    reads all
  {
    rank.Keys == all && Ranked(ParentsOf(all), rank)
  }

  // One sibling list: its first item, the forest below that item, and its later items.
  datatype Forest = Nil | Cons(item: MenuItem, sub: Forest, rest: Forest)

  ghost function Roots(f: Forest): seq<MenuItem> {
    match f
    case Nil => []
    case Cons(m, _, rest) => [m] + Roots(rest)
  }

  ghost function Preorder(f: Forest): seq<MenuItem> {
    match f
    case Nil => []
    case Cons(m, sub, rest) => [m] + Preorder(sub) + Preorder(rest)
  }

  // Every node of the forest, in preorder, as the path of items that leads to it.
  ghost function Paths(f: Forest, above: seq<MenuItem>): seq<seq<MenuItem>> {
    match f
    case Nil => []
    case Cons(m, sub, rest) => [above + [m]] + Paths(sub, above + [m]) + Paths(rest, above)
  }

  ghost predicate Has(f: Forest, uuid: string) {
    match f
    case Nil => false
    case Cons(m, sub, rest) => m.uuid == uuid || Has(sub, uuid) || Has(rest, uuid)
  }

  ghost function Append(f: Forest, g: Forest): Forest {
    match f
    case Nil => g
    case Cons(m, sub, rest) => Cons(m, sub, Append(rest, g))
  }

  // ---------- The heap behind a forest ----------

  ghost function OwnList(m: MenuItem): set<MenuItemList> {
    if m.subMenuItems == null then {} else {m.subMenuItems}
  }

  ghost function Lists(f: Forest): set<MenuItemList> {
    match f
    case Nil => {}
    case Cons(m, sub, rest) => OwnList(m) + Lists(sub) + Lists(rest)
  }

  // No list object is owned twice.
  ghost predicate Unshared(f: Forest) {
    match f
    case Nil => true
    case Cons(m, sub, rest) =>
      && OwnList(m) !! Lists(sub) !! Lists(rest)
      && Unshared(sub)
      && Unshared(rest)
  }

  ghost predicate OwnsSub(m: MenuItem, sub: Forest)
    reads m.subMenuItems
  {
    if m.subMenuItems == null then sub.Nil? else m.subMenuItems.items == Roots(sub)
  }

  // Every header of the forest holds exactly the items the forest puts below it.
  ghost predicate Represented(f: Forest)
    reads Lists(f)
  {
    match f
    case Nil => true
    case Cons(m, sub, rest) => OwnsSub(m, sub) && Represented(sub) && Represented(rest)
  }

  ghost function Footprint(list: MenuItemList, f: Forest): set<MenuItemList> {
    {list} + Lists(f)
  }

  ghost predicate Holds(list: MenuItemList, f: Forest)
    reads Footprint(list, f)
  {
    && list !in Lists(f)
    && Unshared(f)
    && list.items == Roots(f)
    && Represented(f)
  }

  // ---------- Inserting beside an item ----------

  // The list position at which an item is added beside the item at position k.
  function Slot(after: bool, k: nat): nat {
    if after then k + 1 else if k != 0 then k - 1 else 0
  }

  function InsertAt<T>(s: seq<T>, k: nat, x: T): seq<T>
    requires k <= |s|
  {
    s[..k] + [x] + s[k..]
  }

  // The first sibling that carries the uuid itself or somewhere below it.
  ghost function Host(f: Forest, uuid: string): (k: nat)
    requires Has(f, uuid)
    ensures k < |Roots(f)|
  {
    if f.item.uuid == uuid || Has(f.sub, uuid) then 0 else 1 + Host(f.rest, uuid)
  }

  ghost function SubAt(f: Forest, k: nat): (r: Forest)
    requires k < |Roots(f)|
    ensures r < f
  {
    if k == 0 then f.sub else SubAt(f.rest, k - 1)
  }

  ghost function WithSub(f: Forest, k: nat, sub: Forest): (r: Forest)
    requires k < |Roots(f)|
    ensures Roots(r) == Roots(f)
  {
    if k == 0 then f.(sub := sub) else f.(rest := WithSub(f.rest, k - 1, sub))
  }

  ghost function Splice(f: Forest, k: nat, m: MenuItem, sub: Forest): (r: Forest)
    requires k <= |Roots(f)|
    ensures Roots(r) == InsertAt(Roots(f), k, m)
  {
    if k == 0 then Cons(m, sub, f) else f.(rest := Splice(f.rest, k - 1, m, sub))
  }

  // The new item, with the forest already below it, goes into the list of the
  // first item in preorder that carries the uuid.
  ghost function Insert(after: bool, uuid: string, m: MenuItem, sub: Forest, f: Forest): Forest
    decreases f
  {
    if !Has(f, uuid) then f
    else
      var k := Host(f, uuid);
      if Roots(f)[k].uuid == uuid then Splice(f, Slot(after, k), m, sub)
      else WithSub(f, k, Insert(after, uuid, m, sub, SubAt(f, k)))
  }

  ghost function FirstMatch(s: seq<MenuItem>, uuid: string): (r: Option<MenuItem>)
    ensures r.Some? ==> r.value in s && r.value.uuid == uuid
    ensures r.None? <==> forall m :: m in s ==> m.uuid != uuid
  {
    if s == [] then None
    else if s[0].uuid == uuid then Some(s[0])
    else FirstMatch(s[1..], uuid)
  }

  // ---------- Pruning listed items ----------

  ghost function Prune(uuids: set<string>, f: Forest): Forest {
    match f
    case Nil => Nil
    case Cons(m, sub, rest) =>
      if m.uuid in uuids then Prune(uuids, rest)
      else Cons(m, Prune(uuids, sub), Prune(uuids, rest))
  }

  ghost predicate Untouched(path: seq<MenuItem>, uuids: set<string>) {
    forall i :: 0 <= i < |path| ==> path[i].uuid !in uuids
  }

  ghost function Survivors(paths: seq<seq<MenuItem>>, uuids: set<string>): seq<seq<MenuItem>> {
    if paths == [] then []
    else (if Untouched(paths[0], uuids) then [paths[0]] else []) + Survivors(paths[1..], uuids)
  }

  // ---------- Lemmas about forests as values ----------

  lemma {:induction false} HasIsPreorder(f: Forest, uuid: string)
    ensures Has(f, uuid) <==> exists m :: m in Preorder(f) && m.uuid == uuid
  {
    match f
    case Nil =>
    case Cons(m, sub, rest) =>
      HasIsPreorder(sub, uuid);
      HasIsPreorder(rest, uuid);
  }

  lemma {:induction false} FirstMatchConcat(s: seq<MenuItem>, t: seq<MenuItem>, uuid: string)
    ensures FirstMatch(s + t, uuid) ==
            if FirstMatch(s, uuid).Some? then FirstMatch(s, uuid) else FirstMatch(t, uuid)
  {
    if s == [] {
      assert s + t == t;
    } else {
      assert (s + t)[1..] == s[1..] + t;
      FirstMatchConcat(s[1..], t, uuid);
    }
  }

  // The preorder-first match lies at the host itself or below the host.
  lemma {:induction false} FirstMatchAtHost(f: Forest, uuid: string)
    requires Has(f, uuid)
    ensures var k := Host(f, uuid);
            FirstMatch(Preorder(f), uuid) ==
            if Roots(f)[k].uuid == uuid then Some(Roots(f)[k])
            else FirstMatch(Preorder(SubAt(f, k)), uuid)
    ensures var k := Host(f, uuid);
            Roots(f)[k].uuid == uuid || Has(SubAt(f, k), uuid)
  {
    PreorderSearch(f, uuid);
    HasIsFirstMatch(f.sub, uuid);
    if f.item.uuid == uuid || Has(f.sub, uuid) {
      assert Host(f, uuid) == 0 && Roots(f)[0] == f.item && SubAt(f, 0) == f.sub;
    } else {
      FirstMatchAtHost(f.rest, uuid);
      HostInRest(f, uuid);
    }
  }

  lemma HostInRest(f: Forest, uuid: string)
    requires Has(f, uuid) && f.item.uuid != uuid && !Has(f.sub, uuid)
    ensures var k := Host(f.rest, uuid);
            Host(f, uuid) == k + 1 && Roots(f)[k + 1] == Roots(f.rest)[k] && SubAt(f, k + 1) == SubAt(f.rest, k)
  {
  }

  lemma HasIsFirstMatch(f: Forest, uuid: string)
    ensures Has(f, uuid) <==> FirstMatch(Preorder(f), uuid).Some?
  {
    HasIsPreorder(f, uuid);
  }

  lemma PreorderSearch(f: Forest, uuid: string)
    requires f.Cons?
    ensures FirstMatch(Preorder(f), uuid) ==
            if f.item.uuid == uuid then Some(f.item)
            else if FirstMatch(Preorder(f.sub), uuid).Some? then FirstMatch(Preorder(f.sub), uuid)
            else FirstMatch(Preorder(f.rest), uuid)
  {
    FirstMatchConcat([f.item] + Preorder(f.sub), Preorder(f.rest), uuid);
    FirstMatchConcat([f.item], Preorder(f.sub), uuid);
    assert |[f.item][1..]| == 0;
  }

  lemma {:induction false} SurvivorsConcat(s: seq<seq<MenuItem>>, t: seq<seq<MenuItem>>, uuids: set<string>)
    ensures Survivors(s + t, uuids) == Survivors(s, uuids) + Survivors(t, uuids)
  {
    if s == [] {
      assert s + t == t;
    } else {
      assert (s + t)[0] == s[0] && (s + t)[1..] == s[1..] + t;
      SurvivorsConcat(s[1..], t, uuids);
    }
  }

  lemma {:induction false} NoSurvivorBelow(f: Forest, above: seq<MenuItem>, uuids: set<string>)
    requires !Untouched(above, uuids)
    ensures Survivors(Paths(f, above), uuids) == []
  {
    match f
    case Nil =>
    case Cons(m, sub, rest) =>
      var here := above + [m];
      assert forall i :: 0 <= i < |above| ==> here[i] == above[i];
      NoSurvivorBelow(sub, here, uuids);
      NoSurvivorBelow(rest, above, uuids);
      SurvivorsConcat([here] + Paths(sub, here), Paths(rest, above), uuids);
      SurvivorsConcat([here], Paths(sub, here), uuids);
  }

  // Pruning keeps exactly the nodes with no listed uuid on their path, in order.
  lemma {:induction false} PruneKeepsUntouchedPaths(uuids: set<string>, f: Forest, above: seq<MenuItem>)
    requires Untouched(above, uuids)
    ensures Paths(Prune(uuids, f), above) == Survivors(Paths(f, above), uuids)
  {
    match f
    case Nil =>
    case Cons(m, sub, rest) =>
      var here := above + [m];
      var single: seq<seq<MenuItem>> := [here];
      assert single[1..] == [];
      SurvivorsConcat(single + Paths(sub, here), Paths(rest, above), uuids);
      SurvivorsConcat(single, Paths(sub, here), uuids);
      PruneKeepsUntouchedPaths(uuids, rest, above);
      if m.uuid in uuids {
        assert here[|above|] == m;
        NoSurvivorBelow(sub, here, uuids);
      } else {
        PruneKeepsUntouchedPaths(uuids, sub, here);
      }
  }

  lemma {:induction false} PruneTwice(a: set<string>, b: set<string>, f: Forest)
    ensures Prune(b, Prune(a, f)) == Prune(a + b, f)
  {
    match f
    case Nil =>
    case Cons(m, sub, rest) =>
      PruneTwice(a, b, sub);
      PruneTwice(a, b, rest);
  }

  lemma {:induction false} PruneAbsent(uuid: string, f: Forest)
    requires !Has(f, uuid)
    ensures Prune({uuid}, f) == f
  {
    match f
    case Nil =>
    case Cons(m, sub, rest) =>
      PruneAbsent(uuid, sub);
      PruneAbsent(uuid, rest);
  }

  lemma {:induction false} PruneSplice(f: Forest, k: nat, m: MenuItem, sub: Forest)
    requires k <= |Roots(f)|
    requires !Has(f, m.uuid)
    ensures Prune({m.uuid}, Splice(f, k, m, sub)) == f
  {
    PruneAbsent(m.uuid, f);
    if k != 0 {
      PruneAbsent(m.uuid, f.sub);
      PruneSplice(f.rest, k - 1, m, sub);
    }
  }

  lemma {:induction false} PruneWithSub(uuid: string, f: Forest, k: nat, sub: Forest)
    requires k < |Roots(f)|
    requires !Has(f, uuid)
    requires Prune({uuid}, sub) == SubAt(f, k)
    ensures Prune({uuid}, WithSub(f, k, sub)) == f
  {
    PruneAbsent(uuid, f.rest);
    if k != 0 {
      PruneAbsent(uuid, f.sub);
      PruneWithSub(uuid, f.rest, k - 1, sub);
    }
  }

  lemma {:induction false} HasNotSubAt(f: Forest, k: nat, uuid: string)
    requires k < |Roots(f)| && !Has(f, uuid)
    ensures !Has(SubAt(f, k), uuid)
  {
    if k != 0 {
      HasNotSubAt(f.rest, k - 1, uuid);
    }
  }

  // Removing a freshly inserted item restores the forest, whatever it was added
  // beside, on whichever side, and whatever was already below it.
  lemma {:induction false} RemoveUndoesInsert(after: bool, uuid: string, m: MenuItem, sub: Forest, f: Forest)
    requires !Has(f, m.uuid)
    ensures Prune({m.uuid}, Insert(after, uuid, m, sub, f)) == f
    decreases f
  {
    PruneAbsent(m.uuid, f);
    if Has(f, uuid) {
      var k := Host(f, uuid);
      if Roots(f)[k].uuid == uuid {
        PruneSplice(f, Slot(after, k), m, sub);
      } else {
        HasNotSubAt(f, k, m.uuid);
        RemoveUndoesInsert(after, uuid, m, sub, SubAt(f, k));
        PruneWithSub(m.uuid, f, k, Insert(after, uuid, m, sub, SubAt(f, k)));
      }
    }
  }

  // The documentation promises "before the item". The new item does come before
  // it, but next to it only when that item was first in its list: otherwise the
  // item that used to precede it still stands between them.
  lemma BeforeIsAdjacentOnlyForFirst(s: seq<MenuItem>, k: nat, m: MenuItem)
    requires k < |s| && m !in s
    ensures var t := InsertAt(s, Slot(false, k), m);
            && t[Slot(false, k)] == m
            && t[k + 1] == s[k]
            && Slot(false, k) < k + 1
            && (t[k] == m <==> k == 0)
            && (k != 0 ==> t[k] == s[k - 1])
  {
    var t := InsertAt(s, Slot(false, k), m);
    if k != 0 {
      assert t[k] == s[k - 1];
    }
  }

  // ---------- Lemmas that connect forests and lists ----------

  lemma {:induction false} RootsAppend(f: Forest, g: Forest)
    ensures Roots(Append(f, g)) == Roots(f) + Roots(g)
  {
    match f
    case Nil =>
    case Cons(m, sub, rest) => RootsAppend(rest, g);
  }

  lemma {:induction false} AppendAssoc(f: Forest, g: Forest, h: Forest)
    ensures Append(Append(f, g), h) == Append(f, Append(g, h))
  {
    match f
    case Nil =>
    case Cons(m, sub, rest) => AppendAssoc(rest, g, h);
  }

  lemma {:induction false} AppendNil(f: Forest)
    ensures Append(f, Nil) == f
  {
    match f
    case Nil =>
    case Cons(m, sub, rest) => AppendNil(rest);
  }

  lemma {:induction false} AppendLists(f: Forest, g: Forest)
    ensures Lists(Append(f, g)) == Lists(f) + Lists(g)
    ensures Unshared(Append(f, g)) <==> Unshared(f) && Unshared(g) && Lists(f) !! Lists(g)
  {
    match f
    case Nil =>
    case Cons(m, sub, rest) => AppendLists(rest, g);
  }

  lemma {:induction false} AppendRepresented(f: Forest, g: Forest)
    ensures Represented(Append(f, g)) <==> Represented(f) && Represented(g)
  {
    match f
    case Nil =>
    case Cons(m, sub, rest) => AppendRepresented(rest, g);
  }

  lemma {:induction false} PruneAppend(uuids: set<string>, f: Forest, g: Forest)
    ensures Prune(uuids, Append(f, g)) == Append(Prune(uuids, f), Prune(uuids, g))
  {
    match f
    case Nil =>
    case Cons(m, sub, rest) => PruneAppend(uuids, rest, g);
  }

  lemma {:induction false} PruneLists(uuids: set<string>, f: Forest)
    ensures Lists(Prune(uuids, f)) <= Lists(f)
    ensures Unshared(f) ==> Unshared(Prune(uuids, f))
    ensures forall m :: m in Roots(Prune(uuids, f)) ==> m.uuid !in uuids
  {
    match f
    case Nil =>
    case Cons(m, sub, rest) =>
      PruneLists(uuids, sub);
      PruneLists(uuids, rest);
  }

  lemma {:induction false} SpliceIsAppend(f: Forest, g: Forest, m: MenuItem, sub: Forest)
    ensures Roots(Append(f, g)) == Roots(f) + Roots(g)
    ensures Splice(Append(f, g), |Roots(f)|, m, sub) == Append(f, Cons(m, sub, g))
  {
    RootsAppend(f, g);
    match f
    case Nil =>
    case Cons(_, _, rest) => SpliceIsAppend(rest, g, m, sub);
  }

  lemma {:induction false} SplitAt(f: Forest, k: nat) returns (front: Forest, back: Forest)
    requires k <= |Roots(f)|
    ensures f == Append(front, back) && |Roots(front)| == k
  {
    if k == 0 {
      front, back := Nil, f;
    } else {
      var rest, b := SplitAt(f.rest, k - 1);
      front, back := Cons(f.item, f.sub, rest), b;
    }
  }

  lemma WithSubIsAppend(front: Forest, m: MenuItem, was: Forest, sub: Forest, back: Forest)
    ensures Roots(Append(front, Cons(m, was, back))) == Roots(front) + [m] + Roots(back)
    ensures SubAt(Append(front, Cons(m, was, back)), |Roots(front)|) == was
    ensures WithSub(Append(front, Cons(m, was, back)), |Roots(front)|, sub) == Append(front, Cons(m, sub, back))
  {
    RootsAppend(front, Cons(m, was, back));
    match front
    case Nil =>
    case Cons(_, _, rest) => WithSubIsAppend(rest, m, was, sub, back);
  }

  lemma {:induction false} HostAppend(front: Forest, back: Forest, uuid: string)
    requires !Has(front, uuid)
    ensures Has(Append(front, back), uuid) <==> Has(back, uuid)
    ensures Has(back, uuid) ==> Host(Append(front, back), uuid) == |Roots(front)| + Host(back, uuid)
  {
    match front
    case Nil =>
    case Cons(m, sub, rest) => HostAppend(rest, back, uuid);
  }

  lemma {:induction false} HasAppend(f: Forest, g: Forest, uuid: string)
    ensures Has(Append(f, g), uuid) <==> Has(f, uuid) || Has(g, uuid)
  {
    match f
    case Nil =>
    case Cons(m, sub, rest) => HasAppend(rest, g, uuid);
  }

  // ---------- An insertion keeps the lists apart and changes one of them ----------

  lemma {:induction false} SubAtLists(f: Forest, k: nat)
    requires k < |Roots(f)| && Unshared(f)
    ensures Lists(SubAt(f, k)) <= Lists(f) && Unshared(SubAt(f, k))
    ensures OwnList(Roots(f)[k]) <= Lists(f) && OwnList(Roots(f)[k]) !! Lists(SubAt(f, k))
  {
    if k != 0 {
      SubAtLists(f.rest, k - 1);
    }
  }

  lemma {:induction false} SpliceLists(f: Forest, k: nat, m: MenuItem, sub: Forest)
    requires k <= |Roots(f)| && Unshared(f)
    requires Unshared(Cons(m, sub, Nil)) && Lists(f) !! OwnList(m) + Lists(sub)
    ensures Lists(Splice(f, k, m, sub)) == Lists(f) + OwnList(m) + Lists(sub)
    ensures Unshared(Splice(f, k, m, sub))
  {
    if k != 0 {
      SpliceLists(f.rest, k - 1, m, sub);
    }
  }

  lemma {:induction false} WithSubLists(f: Forest, k: nat, sub: Forest, added: set<MenuItemList>)
    requires k < |Roots(f)| && Unshared(f) && Unshared(sub)
    requires Lists(f) !! added && Lists(sub) == Lists(SubAt(f, k)) + added
    ensures Lists(WithSub(f, k, sub)) == Lists(f) + added
    ensures Unshared(WithSub(f, k, sub))
  {
    if k != 0 {
      SubAtLists(f.rest, k - 1);
      WithSubLists(f.rest, k - 1, sub, added);
    }
  }

  lemma {:induction false} InsertedLists(after: bool, uuid: string, m: MenuItem, sub: Forest, f: Forest)
    requires Unshared(f)
    requires Unshared(Cons(m, sub, Nil)) && Lists(f) !! OwnList(m) + Lists(sub)
    ensures Lists(Insert(after, uuid, m, sub, f)) ==
            Lists(f) + if Has(f, uuid) then OwnList(m) + Lists(sub) else {}
    ensures Unshared(Insert(after, uuid, m, sub, f))
    decreases f
  {
    if Has(f, uuid) {
      var k := Host(f, uuid);
      if Roots(f)[k].uuid == uuid {
        SpliceLists(f, Slot(after, k), m, sub);
      } else {
        FirstMatchAtHost(f, uuid);
        SubAtLists(f, k);
        InsertedLists(after, uuid, m, sub, SubAt(f, k));
        WithSubLists(f, k, Insert(after, uuid, m, sub, SubAt(f, k)), OwnList(m) + Lists(sub));
      }
    }
  }

  // The list object l is one of the lists of this forest, and s is what it holds.
  ghost predicate HoldsBelow(f: Forest, l: MenuItemList, s: seq<MenuItem>) {
    match f
    case Nil => false
    case Cons(m, sub, rest) =>
      (m.subMenuItems == l && s == Roots(sub)) || HoldsBelow(sub, l, s) || HoldsBelow(rest, l, s)
  }

  ghost predicate HoldsIn(list: MenuItemList?, f: Forest, l: MenuItemList, s: seq<MenuItem>) {
    (l == list && s == Roots(f)) || HoldsBelow(f, l, s)
  }

  // The list that holds the first match.
  ghost function Target(list: MenuItemList?, f: Forest, uuid: string): MenuItemList?
    requires Has(f, uuid)
    decreases f
  {
    var k := Host(f, uuid);
    FirstMatchAtHost(f, uuid);
    if Roots(f)[k].uuid == uuid then list
    else Target(Roots(f)[k].subMenuItems, SubAt(f, k), uuid)
  }

  // The heap agrees with the forest on every list.
  lemma {:induction false} HeapHolds(list: MenuItemList, f: Forest, l: MenuItemList, s: seq<MenuItem>)
    requires list.items == Roots(f) && Represented(f)
    requires HoldsIn(list, f, l, s)
    ensures l.items == s
  {
    if HoldsBelow(f, l, s) {
      HeapHoldsBelow(f, l, s);
    }
  }

  lemma {:induction false} HeapHoldsBelow(f: Forest, l: MenuItemList, s: seq<MenuItem>)
    requires Represented(f) && HoldsBelow(f, l, s)
    ensures l.items == s
  {
    if HoldsBelow(f.sub, l, s) {
      HeapHoldsBelow(f.sub, l, s);
    } else if HoldsBelow(f.rest, l, s) {
      HeapHoldsBelow(f.rest, l, s);
    }
  }

  lemma {:induction false} SpliceHolds(f: Forest, k: nat, m: MenuItem, sub: Forest, l: MenuItemList, s: seq<MenuItem>)
    requires k <= |Roots(f)|
    ensures HoldsBelow(Splice(f, k, m, sub), l, s) <==> HoldsBelow(f, l, s) || HoldsBelow(Cons(m, sub, Nil), l, s)
  {
    if k != 0 {
      SpliceHolds(f.rest, k - 1, m, sub, l, s);
    }
  }

  lemma {:induction false} WithSubHolds(f: Forest, k: nat, sub: Forest, l: MenuItemList, s: seq<MenuItem>, added: bool)
    requires k < |Roots(f)|
    requires HoldsIn(Roots(f)[k].subMenuItems, sub, l, s) <==>
             HoldsIn(Roots(f)[k].subMenuItems, SubAt(f, k), l, s) || added
    ensures HoldsBelow(WithSub(f, k, sub), l, s) <==> HoldsBelow(f, l, s) || added
  {
    if k != 0 {
      WithSubHolds(f.rest, k - 1, sub, l, s, added);
    }
  }

  // No list but the target changes; the lists below the new item come with it.
  lemma {:induction false} InsertElsewhere(after: bool, uuid: string, m: MenuItem, sub: Forest,
                                           list: MenuItemList?, f: Forest, l: MenuItemList, s: seq<MenuItem>)
    requires Has(f, uuid) && l != Target(list, f, uuid)
    ensures HoldsIn(list, Insert(after, uuid, m, sub, f), l, s) <==>
            HoldsIn(list, f, l, s) || HoldsBelow(Cons(m, sub, Nil), l, s)
    decreases f
  {
    var k := Host(f, uuid);
    FirstMatchAtHost(f, uuid);
    if Roots(f)[k].uuid == uuid {
      SpliceHolds(f, Slot(after, k), m, sub, l, s);
    } else {
      var here := Roots(f)[k].subMenuItems;
      InsertElsewhere(after, uuid, m, sub, here, SubAt(f, k), l, s);
      WithSubHolds(f, k, Insert(after, uuid, m, sub, SubAt(f, k)), l, s, HoldsBelow(Cons(m, sub, Nil), l, s));
    }
  }

  lemma {:induction false} SubAtHolds(f: Forest, k: nat, sub: Forest, l: MenuItemList, s: seq<MenuItem>)
    requires k < |Roots(f)|
    ensures HoldsIn(Roots(f)[k].subMenuItems, SubAt(f, k), l, s) ==> HoldsBelow(f, l, s)
    ensures HoldsIn(Roots(f)[k].subMenuItems, sub, l, s) ==> HoldsBelow(WithSub(f, k, sub), l, s)
  {
    if k != 0 {
      SubAtHolds(f.rest, k - 1, sub, l, s);
    }
  }

  // The target gains the new item, at the slot given by the position of the
  // preorder-first match, and keeps all its items in their order.
  lemma {:induction false} InsertAtTarget(after: bool, uuid: string, m: MenuItem, sub: Forest,
                                          list: MenuItemList?, f: Forest) returns (was: seq<MenuItem>, at: nat)
    requires Has(f, uuid) && Target(list, f, uuid) != null
    ensures at < |was| && FirstMatch(Preorder(f), uuid) == Some(was[at])
    ensures HoldsIn(list, f, Target(list, f, uuid), was)
    ensures HoldsIn(list, Insert(after, uuid, m, sub, f), Target(list, f, uuid), InsertAt(was, Slot(after, at), m))
    decreases f
  {
    var k := Host(f, uuid);
    FirstMatchAtHost(f, uuid);
    if Roots(f)[k].uuid == uuid {
      was, at := Roots(f), k;
    } else {
      var l, here, sub' := Target(list, f, uuid), Roots(f)[k].subMenuItems, Insert(after, uuid, m, sub, SubAt(f, k));
      was, at := InsertAtTarget(after, uuid, m, sub, here, SubAt(f, k));
      SubAtHolds(f, k, sub', l, was);
      SubAtHolds(f, k, sub', l, InsertAt(was, Slot(after, at), m));
    }
  }

  // ---------- The same on the heap ----------

  type Contents = map<MenuItemList, seq<MenuItem>>

  ghost function ListsNow(lists: set<MenuItemList>): Contents
    reads lists
  {
    map l | l in lists :: l.items
  }

  // The item at this position of this list is the first in preorder with the uuid.
  ghost predicate IsFirstMatch(uuid: string, order: seq<MenuItem>, was: Contents, l: MenuItemList, at: nat) {
    && l in was && at < |was[l]| && was[l][at].uuid == uuid
    && exists k: nat :: k < |order| && order[k] == was[l][at] && forall i: nat :: i < k ==> order[i].uuid != uuid
  }

  // The new item comes right after the first match, and every other list is as it was.
  ghost predicate AddedAfterFirst(uuid: string, m: MenuItem, order: seq<MenuItem>, was: Contents, now: Contents) {
    exists l, at: nat :: l in was && AddedAfter(uuid, m, order, was, now, l, at)
  }

  ghost predicate AddedAfter(uuid: string, m: MenuItem, order: seq<MenuItem>, was: Contents, now: Contents,
                             l: MenuItemList, at: nat)
  {
    IsFirstMatch(uuid, order, was, l, at) && now == was[l := was[l][..at + 1] + [m] + was[l][at + 1..]]
  }

  // On the other side it comes before the item that precedes the first match, if there is one.
  ghost predicate AddedBeforeFirst(uuid: string, m: MenuItem, order: seq<MenuItem>, was: Contents, now: Contents) {
    exists l, at: nat :: l in was && AddedBefore(uuid, m, order, was, now, l, at)
  }

  ghost predicate AddedBefore(uuid: string, m: MenuItem, order: seq<MenuItem>, was: Contents, now: Contents,
                              l: MenuItemList, at: nat)
  {
    && IsFirstMatch(uuid, order, was, l, at)
    && now == was[l := if at == 0 then [m] + was[l] else was[l][..at - 1] + [m] + was[l][at - 1..]]
  }

  ghost predicate AddedBeside(after: bool, uuid: string, m: MenuItem, order: seq<MenuItem>,
                              was: Contents, now: Contents) {
    if after then AddedAfterFirst(uuid, m, order, was, now) else AddedBeforeFirst(uuid, m, order, was, now)
  }

  lemma AddedAtSlot(after: bool, uuid: string, m: MenuItem, order: seq<MenuItem>, was: Contents,
                    l: MenuItemList, at: nat)
    requires l in was && at < |was[l]| && FirstMatch(order, uuid) == Some(was[l][at])
    ensures var now := was[l := InsertAt(was[l], Slot(after, at), m)];
            AddedBeside(after, uuid, m, order, was, now)
  {
    var now := was[l := InsertAt(was[l], Slot(after, at), m)];
    var k := FirstMatchAt(order, uuid);
    assert IsFirstMatch(uuid, order, was, l, at);
    if after {
      assert AddedAfter(uuid, m, order, was, now, l, at);
    } else {
      assert was[l][..0] + [m] + was[l][0..] == [m] + was[l];
      assert AddedBefore(uuid, m, order, was, now, l, at);
    }
  }

  lemma {:induction false} FirstMatchAt(s: seq<MenuItem>, uuid: string) returns (k: nat)
    requires FirstMatch(s, uuid).Some?
    ensures k < |s| && FirstMatch(s, uuid) == Some(s[k]) && forall i: nat :: i < k ==> s[i].uuid != uuid
  {
    if s[0].uuid == uuid {
      k := 0;
    } else {
      k := FirstMatchAt(s[1..], uuid);
      k := k + 1;
    }
  }

  lemma {:induction false} HeldBelow(f: Forest, l: MenuItemList)
    requires Represented(f) && l in Lists(f)
    ensures HoldsBelow(f, l, l.items)
  {
    if l in Lists(f.sub) {
      HeldBelow(f.sub, l);
    } else if l in Lists(f.rest) {
      HeldBelow(f.rest, l);
    }
  }

  lemma {:induction false} OwnsSubAt(f: Forest, k: nat)
    requires k < |Roots(f)| && Represented(f)
    ensures OwnsSub(Roots(f)[k], SubAt(f, k)) && Represented(SubAt(f, k))
  {
    if k != 0 {
      OwnsSubAt(f.rest, k - 1);
    }
  }

  lemma {:induction false} TargetIsAList(list: MenuItemList?, f: Forest, uuid: string)
    requires Has(f, uuid) && list != null && Represented(f) && Unshared(f)
    ensures Target(list, f, uuid) != null && Target(list, f, uuid) in {list} + Lists(f)
    decreases f
  {
    var k := Host(f, uuid);
    FirstMatchAtHost(f, uuid);
    if Roots(f)[k].uuid != uuid {
      OwnsSubAt(f, k);
      SubAtLists(f, k);
      TargetIsAList(Roots(f)[k].subMenuItems, SubAt(f, k), uuid);
    }
  }

  lemma ListsAre(list: MenuItemList, f: Forest, lists: set<MenuItemList>, now: Contents)
    requires list.items == Roots(f) && Represented(f) && now.Keys == lists
    requires forall l :: l in lists ==> l.items == now[l] || HoldsIn(list, f, l, now[l])
    ensures ListsNow(lists) == now
  {
    forall l | l in lists
      ensures ListsNow(lists)[l] == now[l]
    {
      if HoldsIn(list, f, l, now[l]) {
        HeapHolds(list, f, l, now[l]);
      }
    }
  }

  lemma HeldOnLists(list: MenuItemList, f: Forest)
    requires Holds(list, f)
    ensures forall l :: l in Footprint(list, f) ==> HoldsIn(list, f, l, l.items)
  {
    forall l | l in Lists(f)
      ensures HoldsBelow(f, l, l.items)
    {
      HeldBelow(f, l);
    }
  }

  // What every list is to hold after an insertion.
  lemma InsertOnLists(after: bool, uuid: string, m: MenuItem, sub: Forest, list: MenuItemList, f: Forest)
    returns (target: MenuItemList, at: nat)
    requires Holds(list, f) && Has(f, uuid)
    ensures target in Footprint(list, f) && at < |target.items|
    ensures FirstMatch(Preorder(f), uuid) == Some(target.items[at])
    ensures forall l :: l in Footprint(list, f) ==>
              HoldsIn(list, Insert(after, uuid, m, sub, f), l,
                      if l == target then InsertAt(target.items, Slot(after, at), m) else l.items)
  {
    TargetIsAList(list, f, uuid);
    target := Target(list, f, uuid);
    var was;
    was, at := InsertAtTarget(after, uuid, m, sub, list, f);
    HeapHolds(list, f, target, was);
    HeldOnLists(list, f);
    forall l | l in Footprint(list, f) && l != target
      ensures HoldsIn(list, Insert(after, uuid, m, sub, f), l, l.items)
    {
      InsertElsewhere(after, uuid, m, sub, list, f, l, l.items);
    }
  }
}
