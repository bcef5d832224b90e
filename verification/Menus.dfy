/**
 The menu itself: a list of top-level items that the operations change in place.
 The ghost forest records what the nested lists hold.
 */
module Menus {
  import opened Wrappers
  import opened MenuItems

  datatype MenuError = UnsupportedOperation

  // The characters that Java's Character.isWhitespace accepts.
  predicate IsWhitespace(c: char) {
    || '\t' <= c <= '\r'
    || '\U{1C}' <= c <= ' '
    || c in {'\U{1680}', '\U{180E}', '\U{205F}', '\U{3000}', '\U{2028}', '\U{2029}'}
    || ('\U{2000}' <= c <= '\U{200A}' && c != '\U{2007}')
  }

  predicate IsBlank(s: string) {
    forall c :: c in s ==> IsWhitespace(c)
  }

  // The items have object identity, so the first equal element is the first occurrence.
  method IndexOf(s: seq<MenuItem>, m: MenuItem) returns (k: nat)
    requires m in s
    ensures k < |s| && s[k] == m && m !in s[..k]
  {
    k := 0;
    while s[k] != m
      invariant k < |s| && m !in s[..k]
      decreases |s| - k
    {
      k := k + 1;
    }
  }

  // The step that ends the search: the match is at position `at` of this list, and
  // g is the forest that the list is to represent.
  method AddBeside(addAfter: bool, newMenuItem: MenuItem, subMenuItems: MenuItemList, menuItem: MenuItem,
                   ghost g: Forest, ghost at: nat, ghost repr: set<MenuItemList>)
    requires at < |subMenuItems.items| && subMenuItems.items[at] == menuItem && menuItem !in subMenuItems.items[..at]
    requires Roots(g) == InsertAt(subMenuItems.items, Slot(addAfter, at), newMenuItem)
    requires Represented(g) && subMenuItems !in Lists(g) && Lists(g) <= repr
    modifies subMenuItems
    ensures subMenuItems.items == Roots(g) && Represented(g)
  {
    var index := IndexOf(subMenuItems.items, menuItem);
    assert index == at;
    if addAfter {
      subMenuItems.items := InsertAt(subMenuItems.items, index + 1, newMenuItem);
    } else {
      if index != 0 {
        index := index - 1;
      }
      subMenuItems.items := InsertAt(subMenuItems.items, index, newMenuItem);
    }
  }

  method RecursiveAddMenuItem(addAfter: bool, uuid: string, newMenuItem: MenuItem, subMenuItems: MenuItemList,
                              ghost f: Forest, ghost newSub: Forest, ghost repr: set<MenuItemList>)
    returns (found: bool)
    requires Holds(subMenuItems, f)
    requires Represented(Cons(newMenuItem, newSub, Nil)) && Unshared(Cons(newMenuItem, newSub, Nil))
    requires Lists(Cons(newMenuItem, newSub, Nil)) !! Footprint(subMenuItems, f)
    requires Footprint(subMenuItems, f) <= repr && Lists(Cons(newMenuItem, newSub, Nil)) <= repr
    modifies Footprint(subMenuItems, f)
    ensures found <==> Has(f, uuid)
    ensures subMenuItems.items == Roots(Insert(addAfter, uuid, newMenuItem, newSub, f))
    ensures Represented(Insert(addAfter, uuid, newMenuItem, newSub, f))
    decreases f, 0
  {
    var copySubMenuItems := subMenuItems.items;
    ghost var added := Cons(newMenuItem, newSub, Nil);
    ghost var front, back := Nil, f;
    var i := 0;
    while i < |copySubMenuItems|
      invariant i <= |copySubMenuItems|
      invariant f == Append(front, back) && |Roots(front)| == i && |Roots(f)| == i + |Roots(back)|
      invariant !Has(front, uuid)
      invariant Represented(f) && subMenuItems.items == Roots(f)
      invariant Represented(added)
    {
      var menuItem := copySubMenuItems[i];
      ghost var sub, rest := back.sub, back.rest;
      AtFront(front, back, uuid);
      if menuItem.uuid == uuid {
        FirstIsHere(front, back, uuid);
        InsertedRepresented(addAfter, uuid, newMenuItem, newSub, f, i);
        AddBeside(addAfter, newMenuItem, subMenuItems, menuItem,
                  Insert(addAfter, uuid, newMenuItem, newSub, f), i, repr);
        return true;
      } else {
        AtSub(subMenuItems, front, menuItem, sub, rest, Insert(addAfter, uuid, newMenuItem, newSub, sub), added);
        found := SearchBelow(addAfter, uuid, newMenuItem, menuItem, front, sub, rest, newSub, repr - {subMenuItems});
        if found {
          return true;
        }
      }
      front, back := Advance(front, back, uuid);
      i := i + 1;
    }
    AppendNil(front);
    return false;
  }

  // One turn of the loop: the match, if any, is below the item at hand.
  method SearchBelow(addAfter: bool, uuid: string, newMenuItem: MenuItem, menuItem: MenuItem,
                     ghost front: Forest, ghost sub: Forest, ghost rest: Forest, ghost newSub: Forest,
                     ghost repr: set<MenuItemList>)
    returns (found: bool)
    requires Represented(front) && OwnsSub(menuItem, sub) && Represented(sub) && Represented(rest)
    requires Represented(Cons(newMenuItem, newSub, Nil)) && Unshared(Cons(newMenuItem, newSub, Nil))
    requires Unshared(sub) && OwnList(menuItem) !! Lists(sub)
    requires Lists(front) !! OwnList(menuItem) && Lists(front) !! Lists(sub)
    requires Lists(rest) !! OwnList(menuItem) && Lists(rest) !! Lists(sub)
    requires Lists(Cons(newMenuItem, newSub, Nil)) !! OwnList(menuItem)
    requires Lists(Cons(newMenuItem, newSub, Nil)) !! Lists(sub)
    requires OwnList(menuItem) <= repr && Lists(sub) <= repr && Lists(front) <= repr && Lists(rest) <= repr
    requires Lists(Cons(newMenuItem, newSub, Nil)) <= repr
    modifies OwnList(menuItem), Lists(sub)
    ensures found <==> Has(sub, uuid)
    ensures Represented(Append(front, Cons(menuItem, Insert(addAfter, uuid, newMenuItem, newSub, sub), rest)))
    ensures Represented(Cons(newMenuItem, newSub, Nil))
    decreases sub, 1
  {
    found := false;
    if menuItem.HasSubMenuItems() {
      found := RecursiveAddMenuItem(addAfter, uuid, newMenuItem, menuItem.subMenuItems, sub, newSub, repr);
    }
    AppendRepresented(front, Cons(menuItem, Insert(addAfter, uuid, newMenuItem, newSub, sub), rest));
  }

  method RecursiveRemoveMenuItem(uuids: seq<string>, subMenuItems: MenuItemList, ghost f: Forest,
                                 ghost repr: set<MenuItemList>)
    requires Holds(subMenuItems, f) && Footprint(subMenuItems, f) <= repr
    modifies Footprint(subMenuItems, f)
    ensures subMenuItems.items == Roots(Prune(Listed(uuids), f))
    ensures Represented(Prune(Listed(uuids), f))
    decreases f, 0
  {
    var copySubMenuItems := subMenuItems.items;
    ghost var front, back, kept := Nil, f, Nil;
    var i := 0;
    while i < |copySubMenuItems|
      invariant f == Append(front, back) && |Roots(front)| == i && |Roots(f)| == i + |Roots(back)|
      invariant kept == Prune(Listed(uuids), front)
      invariant subMenuItems.items == Roots(kept) + Roots(back)
      invariant Represented(kept) && Represented(back)
    {
      var menuItem := copySubMenuItems[i];
      ghost var sub, rest := back.sub, back.rest;
      PassedOver(uuids, front, back);
      kept := RemoveOrDescend(uuids, subMenuItems, menuItem, kept, sub, rest, repr - {subMenuItems});
      front, back := Append(front, Cons(menuItem, sub, Nil)), rest;
      i := i + 1;
    }
    AppendNil(front);
  }

  // One turn of the loop: `kept` stands for the items already passed over.
  method RemoveOrDescend(uuids: seq<string>, subMenuItems: MenuItemList, menuItem: MenuItem,
                         ghost kept: Forest, ghost sub: Forest, ghost rest: Forest, ghost repr: set<MenuItemList>)
    returns (ghost kept': Forest)
    requires subMenuItems.items == Roots(kept) + [menuItem] + Roots(rest)
    requires menuItem.uuid in uuids ==> menuItem !in Roots(kept)
    requires Represented(kept) && OwnsSub(menuItem, sub) && Represented(sub) && Represented(rest)
    requires Unshared(sub) && OwnList(menuItem) !! Lists(sub)
    requires Lists(kept) !! OwnList(menuItem) && Lists(kept) !! Lists(sub)
    requires Lists(rest) !! OwnList(menuItem) && Lists(rest) !! Lists(sub)
    requires OwnList(menuItem) <= repr && Lists(sub) <= repr && Lists(kept) <= repr && Lists(rest) <= repr
    requires subMenuItems !in repr
    modifies subMenuItems, OwnList(menuItem), Lists(sub)
    ensures kept' == if menuItem.uuid in uuids then kept
                     else Append(kept, Cons(menuItem, Prune(Listed(uuids), sub), Nil))
    ensures subMenuItems.items == Roots(kept') + Roots(rest)
    ensures Represented(kept') && Represented(rest)
    decreases sub, 2
  {
    kept' := kept;
    if menuItem.uuid in uuids {
      RemoveFirst(subMenuItems, menuItem, |Roots(kept)|);
    } else {
      RemoveBelow(uuids, menuItem, sub, repr);
      Keeps(kept, menuItem, Prune(Listed(uuids), sub));
      kept' := Append(kept, Cons(menuItem, Prune(Listed(uuids), sub), Nil));
    }
  }

  method RemoveBelow(uuids: seq<string>, menuItem: MenuItem, ghost sub: Forest, ghost repr: set<MenuItemList>)
    requires OwnsSub(menuItem, sub) && Represented(sub) && Unshared(sub)
    requires OwnList(menuItem) !! Lists(sub) && OwnList(menuItem) + Lists(sub) <= repr
    modifies OwnList(menuItem), Lists(sub)
    ensures OwnsSub(menuItem, Prune(Listed(uuids), sub)) && Represented(Prune(Listed(uuids), sub))
    decreases sub, 1
  {
    if menuItem.HasSubMenuItems() {
      RecursiveRemoveMenuItem(uuids, menuItem.subMenuItems, sub, repr);
    }
  }

  // What java.util.List.remove(Object) does to the list.
  method RemoveFirst(list: MenuItemList, menuItem: MenuItem, ghost at: nat)
    requires at < |list.items| && list.items[at] == menuItem && menuItem !in list.items[..at]
    modifies list
    ensures list.items == old(list.items)[..at] + old(list.items)[at + 1..]
  {
    var index := IndexOf(list.items, menuItem);
    assert index == at;
    list.items := list.items[..index] + list.items[index + 1..];
  }

  lemma Keeps(kept: Forest, m: MenuItem, sub: Forest)
    requires Represented(kept) && OwnsSub(m, sub) && Represented(sub)
    ensures Represented(Append(kept, Cons(m, sub, Nil)))
    ensures Roots(Append(kept, Cons(m, sub, Nil))) == Roots(kept) + [m]
  {
    AppendRepresented(kept, Cons(m, sub, Nil));
    RootsAppend(kept, Cons(m, sub, Nil));
  }

  ghost function Listed(uuids: seq<string>): set<string> {
    set u | u in uuids
  }

  // What the pruning loop knows when it looks at one item.
  lemma PassedOver(uuids: seq<string>, front: Forest, back: Forest)
    requires back.Cons? && Unshared(Append(front, back))
    ensures var f, one, s := Append(front, back), Cons(back.item, back.sub, Nil), Listed(uuids);
            && |Roots(front)| < |Roots(f)| && Roots(f)[|Roots(front)|] == back.item
            && Append(Append(front, one), back.rest) == f
            && |Roots(Append(front, one))| == |Roots(front)| + 1
            && (if back.item.uuid in uuids
                then Prune(s, Append(front, one)) == Prune(s, front) && back.item !in Roots(Prune(s, front))
                else Prune(s, Append(front, one)) == Append(Prune(s, front), Cons(back.item, Prune(s, back.sub), Nil)))
            && OwnList(back.item) <= Lists(f) && Lists(back.sub) <= Lists(f)
            && Lists(back.rest) <= Lists(f) && Lists(Prune(s, front)) <= Lists(f)
            && back.sub < f && Unshared(back.sub) && OwnList(back.item) !! Lists(back.sub)
    ensures Lists(Prune(Listed(uuids), front)) !! OwnList(back.item)
    ensures Lists(Prune(Listed(uuids), front)) !! Lists(back.sub)
    ensures Lists(back.rest) !! OwnList(back.item) && Lists(back.rest) !! Lists(back.sub)
    ensures Roots(Append(front, back)) == Roots(front) + Roots(back)
  {
    var one, s := Cons(back.item, back.sub, Nil), Listed(uuids);
    AppendSmaller(front, back);
    AppendAssoc(front, one, back.rest);
    RootsAppend(front, back);
    RootsAppend(front, one);
    PruneAppend(s, front, one);
    PruneLists(s, front);
    AppendLists(front, back);
    AppendNil(Prune(s, front));
  }

  lemma Advance(front: Forest, back: Forest, uuid: string) returns (front': Forest, back': Forest)
    requires back.Cons? && !Has(front, uuid) && back.item.uuid != uuid && !Has(back.sub, uuid)
    ensures Append(front', back') == Append(front, back)
    ensures |Roots(front')| == |Roots(front)| + 1 && |Roots(front')| + |Roots(back')| == |Roots(Append(front, back))|
    ensures !Has(front', uuid)
  {
    var one := Cons(back.item, back.sub, Nil);
    front', back' := Append(front, one), back.rest;
    HasAppend(front, one, uuid);
    AppendAssoc(front, one, back.rest);
    RootsAppend(front, one);
    RootsAppend(front', back');
  }

  // What the loop knows of the item it looks at.
  lemma AtFront(front: Forest, back: Forest, uuid: string)
    requires back.Cons? && !Has(front, uuid)
    ensures var f, n := Append(front, back), |Roots(front)|;
            && n < |Roots(f)|
            && Roots(f)[n] == back.item
            && SubAt(f, n) == back.sub
            && back.sub < f
            && (Has(f, uuid) <==> Has(back, uuid))
            && (back.item.uuid == uuid || Has(back.sub, uuid) ==>
                  && Host(f, uuid) == n
                  && FirstMatch(Preorder(f), uuid) ==
                     if back.item.uuid == uuid then Some(back.item) else FirstMatch(Preorder(back.sub), uuid))
  {
    var f := Append(front, back);
    HostAppend(front, back, uuid);
    WithSubIsAppend(front, back.item, back.sub, back.sub, back.rest);
    AppendSmaller(front, back);
    if Has(f, uuid) {
      FirstMatchAtHost(f, uuid);
    }
  }

  // How a forest splits around one of its top items, as values and on the heap.
  lemma AtSub(list: MenuItemList, front: Forest, m: MenuItem, sub: Forest, rest: Forest, sub': Forest, other: Forest)
    requires Holds(list, Append(front, Cons(m, sub, rest)))
    requires Lists(other) !! Footprint(list, Append(front, Cons(m, sub, rest)))
    ensures var f := Append(front, Cons(m, sub, rest));
            && |Roots(front)| < |Roots(f)|
            && WithSub(f, |Roots(front)|, sub') == Append(front, Cons(m, sub', rest))
            && OwnList(m) <= Lists(f) && Lists(sub) <= Lists(f)
            && Lists(front) <= Lists(f) && Lists(rest) <= Lists(f)
    ensures list !in OwnList(m) && list !in Lists(sub)
    ensures Lists(front) !! OwnList(m) && Lists(front) !! Lists(sub)
    ensures Lists(rest) !! OwnList(m) && Lists(rest) !! Lists(sub)
    ensures Lists(other) !! OwnList(m) && Lists(other) !! Lists(sub)
    ensures OwnList(m) !! Lists(sub) && Unshared(sub)
    ensures Represented(front) && OwnsSub(m, sub) && Represented(sub) && Represented(rest)
  {
    WithSubIsAppend(front, m, sub, sub', rest);
    AppendLists(front, Cons(m, sub, rest));
    AppendRepresented(front, Cons(m, sub, rest));
  }

  lemma {:induction false} AppendSmaller(front: Forest, back: Forest)
    ensures front.Nil? ==> Append(front, back) == back
    ensures front.Cons? ==> back < Append(front, back)
  {
    match front
    case Nil =>
    case Cons(_, _, rest) => AppendSmaller(rest, back);
  }

  lemma FirstIsHere(front: Forest, back: Forest, uuid: string)
    requires back.Cons? && back.item.uuid == uuid && !Has(front, uuid)
    ensures var s, n := Roots(Append(front, back)), |Roots(front)|;
            n < |s| && s[n] == back.item && back.item !in s[..n]
  {
    RootsAppend(front, back);
    forall k | 0 <= k < |Roots(front)|
      ensures Roots(front)[k].uuid != uuid
    {
      if Roots(front)[k].uuid == uuid {
        RootHas(front, k, uuid);
      }
    }
  }

  lemma {:induction false} RootHas(f: Forest, k: nat, uuid: string)
    requires k < |Roots(f)| && Roots(f)[k].uuid == uuid
    ensures Has(f, uuid)
  {
    if k != 0 {
      RootHas(f.rest, k - 1, uuid);
    }
  }

  lemma InsertedRepresented(after: bool, uuid: string, m: MenuItem, sub: Forest, f: Forest, k: nat)
    requires Has(f, uuid) && Host(f, uuid) == k && Roots(f)[k].uuid == uuid
    requires Represented(f) && Represented(Cons(m, sub, Nil))
    requires Unshared(f) && Unshared(Cons(m, sub, Nil)) && Lists(f) !! OwnList(m) + Lists(sub)
    ensures Roots(Insert(after, uuid, m, sub, f)) == InsertAt(Roots(f), Slot(after, k), m)
    ensures Represented(Insert(after, uuid, m, sub, f))
    ensures Lists(Insert(after, uuid, m, sub, f)) == Lists(f) + Lists(Cons(m, sub, Nil))
  {
    InsertedLists(after, uuid, m, sub, f);
    var front, back := SplitAt(f, Slot(after, k));
    SpliceIsAppend(front, back, m, sub);
    AppendRepresented(front, back);
    AppendRepresented(front, Cons(m, sub, back));
  }
}
