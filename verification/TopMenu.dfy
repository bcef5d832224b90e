/** A navigation menu: the public operations, which keep its forest and its lists in step. */
module TopMenu {
  import opened Wrappers
  import opened MenuItems
  import opened Menus

  class Menu {
    const menuItems: MenuItemList
    ghost var forest: Forest
    ghost var repr: set<MenuItemList>

    ghost predicate Valid()
      reads this, repr
    {
      && Footprint(menuItems, forest) <= repr
      && Holds(menuItems, forest)
    }

    // The item and all that is already below it, not yet part of this menu.
    ghost predicate Detached(m: MenuItem, sub: Forest)
      reads this, Lists(Cons(m, sub, Nil))
    {
      && Represented(Cons(m, sub, Nil))
      && Unshared(Cons(m, sub, Nil))
      && Lists(Cons(m, sub, Nil)) !! repr
    }

    constructor ()
      ensures Valid() && forest == Nil
    {
      menuItems := new MenuItemList();
      forest := Nil;
      new;
      repr := {menuItems};
    }

    method AddMenuItem(menuItem: MenuItem, ghost sub: Forest, ghost lists: set<MenuItemList>)
      requires Valid() && Detached(menuItem, sub) && Lists(Cons(menuItem, sub, Nil)) <= lists
      modifies this`forest, this`repr, menuItems
      ensures Valid() && repr == old(repr) + lists
      ensures forest == Append(old(forest), Cons(menuItem, sub, Nil))
      ensures menuItems.items == old(menuItems.items) + [menuItem]
    {
      ghost var one := Cons(menuItem, sub, Nil);
      RootsAppend(forest, one);
      AppendLists(forest, one);
      menuItems.items := menuItems.items + [menuItem];
      AppendRepresented(forest, one);
      forest, repr := Append(forest, one), repr + lists;
    }

    method AddMenuItemAfter(uuid: string, newMenuItem: MenuItem, ghost sub: Forest, ghost lists: set<MenuItemList>)
      returns (added: bool)
      requires Valid() && Detached(newMenuItem, sub) && Lists(Cons(newMenuItem, sub, Nil)) <= lists
      modifies this`forest, this`repr, repr
      ensures Valid() && repr == old(repr) + lists
      ensures added <==> !IsBlank(uuid) && Has(old(forest), uuid)
      ensures forest == if added then Insert(true, uuid, newMenuItem, sub, old(forest)) else old(forest)
      ensures added ==> AddedAfterFirst(uuid, newMenuItem, Preorder(old(forest)),
                                        old(ListsNow(repr)), ListsNow(old(repr)))
      ensures !added ==> ListsNow(old(repr)) == old(ListsNow(repr))
    {
      ghost var now;
      added, now := AddBesideItem(true, uuid, newMenuItem, sub, lists);
    }

    method AddMenuItemBefore(uuid: string, newMenuItem: MenuItem, ghost sub: Forest, ghost lists: set<MenuItemList>)
      returns (added: bool)
      requires Valid() && Detached(newMenuItem, sub) && Lists(Cons(newMenuItem, sub, Nil)) <= lists
      modifies this`forest, this`repr, repr
      ensures Valid() && repr == old(repr) + lists
      ensures added <==> !IsBlank(uuid) && Has(old(forest), uuid)
      ensures forest == if added then Insert(false, uuid, newMenuItem, sub, old(forest)) else old(forest)
      ensures added ==> AddedBeforeFirst(uuid, newMenuItem, Preorder(old(forest)),
                                         old(ListsNow(repr)), ListsNow(old(repr)))
      ensures !added ==> ListsNow(old(repr)) == old(ListsNow(repr))
    {
      ghost var now;
      added, now := AddBesideItem(false, uuid, newMenuItem, sub, lists);
    }

    method AddBesideItem(after: bool, uuid: string, newMenuItem: MenuItem, ghost sub: Forest,
                         ghost lists: set<MenuItemList>)
      returns (added: bool, ghost now: Contents)
      requires Valid() && Detached(newMenuItem, sub) && Lists(Cons(newMenuItem, sub, Nil)) <= lists
      modifies this`forest, this`repr, repr
      ensures Valid() && repr == old(repr) + lists
      ensures added <==> !IsBlank(uuid) && Has(old(forest), uuid)
      ensures forest == if added then Insert(after, uuid, newMenuItem, sub, old(forest)) else old(forest)
      ensures added ==> now == ListsNow(old(repr))
      ensures added ==> AddedBeside(after, uuid, newMenuItem, Preorder(old(forest)), old(ListsNow(repr)), now)
      ensures !added ==> ListsNow(old(repr)) == old(ListsNow(repr))
    {
      ghost var f, before := forest, repr;
      repr := repr + lists;
      if IsBlank(uuid) {
        return false, map[];
      }
      forest := Insert(after, uuid, newMenuItem, sub, f);
      added, now := AddInLists(after, uuid, newMenuItem, menuItems, f, sub, before, repr);
      InsertedHolds(after, uuid, newMenuItem, menuItems, f, sub);
    }

    // The first top-level header with the uuid takes the item at the end of its list.
    method AddSubMenuItemTo(uuid: string, newMenuItem: MenuItem, ghost sub: Forest, ghost lists: set<MenuItemList>)
      returns (added: bool, ghost at: nat)
      requires Valid() && Detached(newMenuItem, sub) && Lists(Cons(newMenuItem, sub, Nil)) <= lists
      modifies this`forest, this`repr, repr, newMenuItem`parent
      ensures Valid() && repr == old(repr) + lists
      ensures var s := Roots(old(forest));
              && at <= |s|
              && (forall j :: 0 <= j < at ==> !(s[j].uuid == uuid && s[j].subMenuItems != null))
              && (added <==> at < |s|)
              && (added ==> s[at].uuid == uuid && s[at].subMenuItems != null && newMenuItem.parent == s[at])
      ensures forest == if !added then old(forest)
                        else WithSub(old(forest), at, Append(SubAt(old(forest), at), Cons(newMenuItem, sub, Nil)))
      ensures !added ==> ListsNow(old(repr)) == old(ListsNow(repr))
      ensures added ==>
                var l, was := Roots(old(forest))[at].subMenuItems, old(ListsNow(repr));
                l in was && ListsNow(old(repr)) == was[l := was[l] + [newMenuItem]]
    {
      var s := menuItems.items;
      var i := 0;
      while i < |s|
        invariant i <= |s|
        invariant forall j :: 0 <= j < i ==> !(s[j].uuid == uuid && s[j].subMenuItems != null)
      {
        var menuItem := s[i];
        if menuItem.uuid == uuid && menuItem.subMenuItems != null {
          AddToHeader(menuItem, newMenuItem, sub, lists, i);
          return true, i;
        }
        i := i + 1;
      }
      repr := repr + lists;
      return false, i;
    }

    method AddToHeader(header: MenuItem, newMenuItem: MenuItem, ghost sub: Forest, ghost lists: set<MenuItemList>,
                       ghost at: nat)
      requires Valid() && Detached(newMenuItem, sub) && Lists(Cons(newMenuItem, sub, Nil)) <= lists
      requires at < |Roots(forest)| && Roots(forest)[at] == header && header.subMenuItems != null
      modifies this`forest, this`repr, repr, newMenuItem`parent
      ensures Valid() && repr == old(repr) + lists && newMenuItem.parent == header
      ensures forest == WithSub(old(forest), at, Append(SubAt(old(forest), at), Cons(newMenuItem, sub, Nil)))
      ensures var l, was := header.subMenuItems, old(ListsNow(repr));
              l in was && ListsNow(old(repr)) == was[l := was[l] + [newMenuItem]]
    {
      SubAtLists(forest, at);
      ghost var f, before, was := forest, repr, ListsNow(repr);
      forest := WithSub(f, at, Append(SubAt(f, at), Cons(newMenuItem, sub, Nil)));
      repr := repr + lists;
      AddBelow(menuItems, header, newMenuItem, f, sub, at, repr);
      assert ListsNow(before) == was[header.subMenuItems := was[header.subMenuItems] + [newMenuItem]];
    }

    // A blank uuid makes the call throw before it looks at the menu: the list that
    // Arrays.asList gives has a fixed size and cannot drop the blank element.
    method RemoveMenuItem(uuids: seq<string>) returns (r: Result<(), MenuError>)
      requires Valid()
      modifies this`forest, repr
      ensures Valid()
      ensures r.Ok? <==> forall u :: u in uuids ==> !IsBlank(u)
      ensures forest == if r.Ok? then Prune(Listed(uuids), old(forest)) else old(forest)
      ensures r.Err? ==> ListsNow(repr) == old(ListsNow(repr))
    {
      var i := 0;
      while i < |uuids|
        invariant i <= |uuids|
        invariant forall u :: u in uuids[..i] ==> !IsBlank(u)
      {
        if IsBlank(uuids[i]) {
          return Err(UnsupportedOperation);
        }
        i := i + 1;
      }
      assert uuids[..i] == uuids;
      PruneLists(Listed(uuids), forest);
      RecursiveRemoveMenuItem(uuids, menuItems, forest, repr);
      forest := Prune(Listed(uuids), forest);
      return Ok(());
    }

    method Clear()
      requires Valid()
      modifies this`forest, menuItems
      ensures Valid() && forest == Nil && menuItems.items == []
    {
      menuItems.items := [];
      forest := Nil;
    }
  }

  lemma InsertedHolds(after: bool, uuid: string, m: MenuItem, list: MenuItemList, f: Forest, sub: Forest)
    requires list !in Lists(f) && Unshared(f)
    requires Unshared(Cons(m, sub, Nil)) && Lists(Cons(m, sub, Nil)) !! Footprint(list, f)
    requires var g := Insert(after, uuid, m, sub, f); list.items == Roots(g) && Represented(g)
    ensures var g := Insert(after, uuid, m, sub, f);
            Holds(list, g) && Footprint(list, g) <= Footprint(list, f) + Lists(Cons(m, sub, Nil))
  {
    InsertedLists(after, uuid, m, sub, f);
  }

  // The search and insertion, seen on the lists.
  method AddInLists(after: bool, uuid: string, newMenuItem: MenuItem, list: MenuItemList,
                    ghost f: Forest, ghost sub: Forest, ghost before: set<MenuItemList>, ghost repr: set<MenuItemList>)
    returns (added: bool, ghost now: Contents)
    requires Holds(list, f) && Footprint(list, f) <= before <= repr
    requires Represented(Cons(newMenuItem, sub, Nil)) && Unshared(Cons(newMenuItem, sub, Nil))
    requires Lists(Cons(newMenuItem, sub, Nil)) !! before && Lists(Cons(newMenuItem, sub, Nil)) <= repr
    modifies Footprint(list, f)
    ensures added <==> Has(f, uuid)
    ensures list.items == Roots(Insert(after, uuid, newMenuItem, sub, f))
    ensures Represented(Insert(after, uuid, newMenuItem, sub, f))
    ensures now == ListsNow(before)
    ensures !added ==> now == old(ListsNow(before))
    ensures added ==> AddedBeside(after, uuid, newMenuItem, Preorder(f), old(ListsNow(before)), now)
  {
    ghost var was, g := ListsNow(before), Insert(after, uuid, newMenuItem, sub, f);
    now := was;
    ghost var target, at := list, 0;
    if Has(f, uuid) {
      target, at := InsertOnLists(after, uuid, newMenuItem, sub, list, f);
    } else {
      HeldOnLists(list, f);
    }
    added := RecursiveAddMenuItem(after, uuid, newMenuItem, list, f, sub, repr);
    if added {
      now := was[target := InsertAt(was[target], Slot(after, at), newMenuItem)];
      AddedAtSlot(after, uuid, newMenuItem, Preorder(f), was, target, at);
    }
    ListsAre(list, g, before, now);
  }

  method AddBelow(list: MenuItemList, header: MenuItem, newMenuItem: MenuItem,
                  ghost f: Forest, ghost sub: Forest, ghost k: nat, ghost repr: set<MenuItemList>)
    requires Holds(list, f) && Footprint(list, f) <= repr
    requires k < |Roots(f)| && Roots(f)[k] == header && header.subMenuItems != null
    requires Represented(Cons(newMenuItem, sub, Nil)) && Unshared(Cons(newMenuItem, sub, Nil))
    requires Lists(Cons(newMenuItem, sub, Nil)) !! Footprint(list, f) && Lists(Cons(newMenuItem, sub, Nil)) <= repr
    modifies header.subMenuItems, newMenuItem`parent
    ensures newMenuItem.parent == header
    ensures header.subMenuItems.items == old(header.subMenuItems.items) + [newMenuItem]
    ensures Holds(list, WithSub(f, k, Append(SubAt(f, k), Cons(newMenuItem, sub, Nil))))
    ensures Lists(WithSub(f, k, Append(SubAt(f, k), Cons(newMenuItem, sub, Nil)))) ==
            Lists(f) + Lists(Cons(newMenuItem, sub, Nil))
  {
    ghost var one := Cons(newMenuItem, sub, Nil);
    ghost var front, was, rest := SplitAround(f, k);
    AtSub(list, front, header, was, rest, Append(was, one), one);
    SubAtLists(f, k);
    AppendLists(was, one);
    WithSubLists(f, k, Append(was, one), Lists(one));
    header.AddSubMenuItem(newMenuItem);
    RootsAppend(was, one);
    AppendRepresented(was, one);
    AppendRepresented(front, Cons(header, Append(was, one), rest));
  }

  lemma SplitAround(f: Forest, k: nat) returns (front: Forest, sub: Forest, rest: Forest)
    requires k < |Roots(f)|
    ensures f == Append(front, Cons(Roots(f)[k], sub, rest)) && |Roots(front)| == k && sub == SubAt(f, k)
  {
    var back;
    front, back := SplitAt(f, k);
    RootsAppend(front, back);
    sub, rest := back.sub, back.rest;
    WithSubIsAppend(front, back.item, sub, sub, rest);
  }
}
