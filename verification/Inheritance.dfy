/**
 Permission inheritance along parent links, as a function of two finite maps: the
 links themselves and the permissions that items own. Looking permissions up may
 store the default at the top of a chain; the lemmas say when that can be seen.
 */
module Inheritance {
  import opened Wrappers

  // The links are acyclic: every link goes to an item of smaller rank.
  ghost predicate Ranked<T>(parents: map<T, T>, rank: map<T, nat>) {
    forall x :: x in parents ==> x in rank && parents[x] in rank && rank[parents[x]] < rank[x]
  }

  // What the item or its nearest ancestor owns.
  ghost function Nearest<T, P>(parents: map<T, T>, own: map<T, P>, rank: map<T, nat>, x: T): Option<P>
    requires Ranked(parents, rank) && x in rank
    decreases rank[x]
  {
    if x in own then Some(own[x])
    else if x in parents then Nearest(parents, own, rank, parents[x])
    else None
  }

  ghost function Effective<T, P>(parents: map<T, T>, own: map<T, P>, rank: map<T, nat>, x: T, default: P): P
    requires Ranked(parents, rank) && x in rank
  {
    match Nearest(parents, own, rank, x)
    case Some(p) => p
    case None => default
  }

  ghost function Top<T>(parents: map<T, T>, rank: map<T, nat>, x: T): (r: T)
    requires Ranked(parents, rank) && x in rank
    ensures r !in parents && r in rank
    decreases rank[x]
  {
    if x in parents then Top(parents, rank, parents[x]) else x
  }

  // The item itself, its parent, the parent's parent, and so on.
  ghost function Ancestor<T>(parents: map<T, T>, x: T, k: nat): Option<T> {
    if k == 0 then Some(x)
    else
      match Ancestor(parents, x, k - 1)
      case Some(y) => if y in parents then Some(parents[y]) else None
      case None => None
  }

  ghost predicate Owns<T, P>(parents: map<T, T>, own: map<T, P>, x: T, k: nat) {
    Ancestor(parents, x, k).Some? && Ancestor(parents, x, k).value in own
  }

  lemma {:induction false} AncestorOfParent<T>(parents: map<T, T>, x: T, k: nat)
    requires x in parents
    ensures Ancestor(parents, x, k + 1) == Ancestor(parents, parents[x], k)
  {
    if k > 0 {
      AncestorOfParent(parents, x, k - 1);
    } else {
      assert Ancestor(parents, x, 0) == Some(x);
    }
  }

  lemma OwnsAbove<T, P>(parents: map<T, T>, own: map<T, P>, x: T)
    requires x in parents && x !in own
    ensures !Owns(parents, own, x, 0)
    ensures forall k: nat :: Owns(parents, own, x, k + 1) <==> Owns(parents, own, parents[x], k)
  {
    forall k: nat
      ensures Owns(parents, own, x, k + 1) <==> Owns(parents, own, parents[x], k)
    {
      AncestorOfParent(parents, x, k);
    }
  }

  lemma {:induction false} NoneIsOwned<T, P>(parents: map<T, T>, own: map<T, P>, rank: map<T, nat>, x: T, k: nat)
    requires Ranked(parents, rank) && x in rank && Nearest(parents, own, rank, x).None?
    ensures !Owns(parents, own, x, k)
    decreases rank[x]
  {
    if x in parents {
      OwnsAbove(parents, own, x);
      if k > 0 {
        NoneIsOwned(parents, own, rank, parents[x], k - 1);
        assert Owns(parents, own, x, k - 1 + 1) <==> Owns(parents, own, parents[x], k - 1);
      }
    } else if k > 0 {
      NoneAbove(parents, x, k);
    }
  }

  // The item at this distance is the first to own something, and this is what it owns.
  ghost predicate FirstOwned<T, P>(parents: map<T, T>, own: map<T, P>, x: T, k: nat, p: P) {
    && Owns(parents, own, x, k) && own[Ancestor(parents, x, k).value] == p
    && forall j: nat :: j < k ==> !Owns(parents, own, x, j)
  }

  lemma {:induction false} SomeIsOwned<T, P>(parents: map<T, T>, own: map<T, P>, rank: map<T, nat>, x: T)
    returns (k: nat)
    requires Ranked(parents, rank) && x in rank && Nearest(parents, own, rank, x).Some?
    ensures FirstOwned(parents, own, x, k, Nearest(parents, own, rank, x).value)
    decreases rank[x]
  {
    if x in own {
      k := 0;
    } else {
      var above := SomeIsOwned(parents, own, rank, parents[x]);
      OwnsAbove(parents, own, x);
      AncestorOfParent(parents, x, above);
      k := above + 1;
      forall j: nat | j < k
        ensures !Owns(parents, own, x, j)
      {
        assert j > 0 ==> (Owns(parents, own, x, j - 1 + 1) <==> Owns(parents, own, parents[x], j - 1));
      }
    }
  }

  // An item's answer is what the first owner on its way up owns, or the default if none does.
  lemma EffectiveIsFirstOwned<T, P>(parents: map<T, T>, own: map<T, P>, rank: map<T, nat>, x: T, default: P)
    requires Ranked(parents, rank) && x in rank
    ensures var answer := Effective(parents, own, rank, x, default);
            || (answer == default && forall k: nat :: !Owns(parents, own, x, k))
            || exists k: nat :: FirstOwned(parents, own, x, k, answer)
  {
    if Nearest(parents, own, rank, x).Some? {
      var k := SomeIsOwned(parents, own, rank, x);
    } else {
      forall k: nat
        ensures !Owns(parents, own, x, k)
      {
        NoneIsOwned(parents, own, rank, x, k);
      }
    }
  }

  lemma {:induction false} NoneAbove<T>(parents: map<T, T>, x: T, k: nat)
    requires x !in parents && k > 0
    ensures Ancestor(parents, x, k).None?
  {
    if k > 1 {
      NoneAbove(parents, x, k - 1);
    } else {
      assert Ancestor(parents, x, 0) == Some(x);
    }
  }

  // What a lookup leaves behind: the default, at the top of a chain that owns nothing.
  ghost function Memo<T, P>(parents: map<T, T>, own: map<T, P>, rank: map<T, nat>, x: T, default: P): map<T, P>
    requires Ranked(parents, rank) && x in rank
  {
    if Nearest(parents, own, rank, x).Some? then own else own[Top(parents, rank, x) := default]
  }

  // The answers of a sequence of lookups, each run on what the earlier ones left behind.
  ghost function Answers<T, P>(parents: map<T, T>, own: map<T, P>, rank: map<T, nat>, xs: seq<T>, default: P): seq<P>
    requires Ranked(parents, rank) && forall x :: x in xs ==> x in rank
    decreases xs
  {
    if xs == [] then []
    else
      [Effective(parents, own, rank, xs[0], default)]
      + Answers(parents, Memo(parents, own, rank, xs[0], default), rank, xs[1..], default)
  }

  lemma {:induction false} NoneToTheTop<T, P>(parents: map<T, T>, own: map<T, P>, rank: map<T, nat>, x: T)
    requires Ranked(parents, rank) && x in rank
    requires Nearest(parents, own, rank, x).None?
    ensures Top(parents, rank, x) !in own
    decreases rank[x]
  {
    if x in parents {
      NoneToTheTop(parents, own, rank, parents[x]);
    }
  }

  lemma {:induction false} DefaultAtTop<T, P>(parents: map<T, T>, own: map<T, P>, rank: map<T, nat>,
                                                   top: T, y: T, default: P)
    requires Ranked(parents, rank) && y in rank && top !in own && top !in parents
    ensures Effective(parents, own[top := default], rank, y, default) == Effective(parents, own, rank, y, default)
    decreases rank[y]
  {
    if y !in own && y in parents {
      DefaultAtTop(parents, own, rank, top, parents[y], default);
    }
  }

  // A lookup changes no item's answer.
  lemma MemoIsInvisible<T, P>(parents: map<T, T>, own: map<T, P>, rank: map<T, nat>, x: T, y: T, default: P)
    requires Ranked(parents, rank) && x in rank && y in rank
    ensures Effective(parents, Memo(parents, own, rank, x, default), rank, y, default)
            == Effective(parents, own, rank, y, default)
  {
    if Nearest(parents, own, rank, x).None? {
      NoneToTheTop(parents, own, rank, x);
      DefaultAtTop(parents, own, rank, Top(parents, rank, x), y, default);
    }
  }

  // So in every run of lookups each answer is the one the untouched items give.
  lemma {:induction false} RunsOfLookupsAgree<T, P>(parents: map<T, T>, own: map<T, P>, rank: map<T, nat>,
                                                         xs: seq<T>, default: P)
    requires Ranked(parents, rank) && forall x :: x in xs ==> x in rank
    ensures |Answers(parents, own, rank, xs, default)| == |xs|
    ensures forall i :: 0 <= i < |xs| ==>
              Answers(parents, own, rank, xs, default)[i] == Effective(parents, own, rank, xs[i], default)
    decreases xs
  {
    if xs != [] {
      var own' := Memo(parents, own, rank, xs[0], default);
      RunsOfLookupsAgree(parents, own', rank, xs[1..], default);
      forall i | 1 <= i < |xs|
        ensures Answers(parents, own, rank, xs, default)[i] == Effective(parents, own, rank, xs[i], default)
      {
        assert xs[1..][i - 1] == xs[i];
        MemoIsInvisible(parents, own, rank, xs[0], xs[i], default);
      }
    }
  }

  // Nothing on the way from x up to the top item owns permissions.
  ghost predicate OwnsNoneUpTo<T, P>(parents: map<T, T>, own: map<T, P>, rank: map<T, nat>, x: T, top: T)
    requires Ranked(parents, rank) && x in rank
  {
    Nearest(parents, own, rank, x).None? && Top(parents, rank, x) == top
  }

  // A stored default is visible once its top item gets a parent of its own. For a lookup
  // at any item y before that, and the answer of any item z after it: the answer is still
  // the one of the untouched items, unless both y and z owned nothing up to that top item
  // and the new parent's answer is not the default, which then is hidden.
  lemma MemoHidesALaterParent<T, P>(parents: map<T, T>, own: map<T, P>, rank: map<T, nat>, top: T, h: T,
                                    y: T, z: T, default: P)
    requires Ranked(parents, rank) && top in rank && h in rank && y in rank && z in rank
    requires top !in parents && top !in own
    requires Ranked(parents[top := h], rank)
    ensures var linked, memo := parents[top := h], Memo(parents, own, rank, y, default);
            var stale := OwnsNoneUpTo(parents, own, rank, y, top) && OwnsNoneUpTo(parents, own, rank, z, top);
            && (Effective(linked, memo, rank, z, default) == Effective(linked, own, rank, z, default) <==>
                !stale || Effective(parents, own, rank, h, default) == default)
            && (stale ==>
                  && Effective(linked, memo, rank, z, default) == default
                  && Effective(linked, own, rank, z, default) == Effective(parents, own, rank, h, default))
  {
    LinkBelow(parents, own, rank, top, h, z);
    if Nearest(parents, own, rank, y).None? {
      NoneToTheTop(parents, own, rank, y);
      if Top(parents, rank, y) == top {
        MemoBelow(parents, own, rank, top, h, z, default);
      } else {
        DefaultAtTop(parents[top := h], own, rank, Top(parents, rank, y), z, default);
      }
    }
  }

  // Below the top item the new parent is what an item without own permissions inherits from.
  lemma {:induction false} LinkBelow<T, P>(parents: map<T, T>, own: map<T, P>, rank: map<T, nat>, top: T, h: T, z: T)
    requires Ranked(parents, rank) && top in rank && h in rank && z in rank
    requires top !in parents && top !in own && Ranked(parents[top := h], rank)
    ensures Nearest(parents[top := h], own, rank, z) ==
            if OwnsNoneUpTo(parents, own, rank, z, top) then Nearest(parents, own, rank, h)
            else Nearest(parents, own, rank, z)
    decreases rank[z]
  {
    if z == top {
      assert top in parents[top := h] && parents[top := h][top] == h;
      LinkAbove(parents, own, rank, top, h, h);
    } else if z !in own && z in parents {
      LinkBelow(parents, own, rank, top, h, parents[z]);
    }
  }

  // With a default at the top item it is the default.
  lemma {:induction false} MemoBelow<T, P>(parents: map<T, T>, own: map<T, P>, rank: map<T, nat>, top: T, h: T, z: T,
                                           default: P)
    requires Ranked(parents, rank) && top in rank && h in rank && z in rank
    requires top !in parents && top !in own && Ranked(parents[top := h], rank)
    ensures Nearest(parents[top := h], own[top := default], rank, z) ==
            if OwnsNoneUpTo(parents, own, rank, z, top) then Some(default) else Nearest(parents, own, rank, z)
    decreases rank[z]
  {
    if z != top && z !in own && z in parents {
      MemoBelow(parents, own, rank, top, h, parents[z], default);
    }
  }

  lemma {:induction false} LinkAbove<T, P>(parents: map<T, T>, own: map<T, P>, rank: map<T, nat>, x: T, h: T, y: T)
    requires Ranked(parents, rank) && x in rank && h in rank && y in rank
    requires Ranked(parents[x := h], rank) && rank[y] < rank[x]
    ensures Nearest(parents[x := h], own, rank, y) == Nearest(parents, own, rank, y)
    decreases rank[y]
  {
    if y !in own && y in parents {
      LinkAbove(parents, own, rank, x, h, parents[y]);
    }
  }
}
