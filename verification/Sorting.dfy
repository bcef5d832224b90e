/** Stable sorting as a function, and what makes it one. */
module Sorting {

  // Whether the first element may stand before the second.
  type Order<!T> = (T, T) -> bool

  ghost predicate TotalPreorder<T(!new)>(leq: Order<T>) {
    && (forall a, b :: leq(a, b) || leq(b, a))
    && (forall a, b, c :: leq(a, b) && leq(b, c) ==> leq(a, c))
  }

  function Reversed<T>(leq: Order<T>): Order<T> {
    (a, b) => leq(b, a)
  }

  function Insert<T>(leq: Order<T>, x: T, s: seq<T>): seq<T> {
    if s == [] || leq(x, s[0]) then [x] + s else [s[0]] + Insert(leq, x, s[1..])
  }

  function StableSort<T>(leq: Order<T>, s: seq<T>): seq<T> {
    if s == [] then [] else Insert(leq, s[0], StableSort(leq, s[1..]))
  }

  ghost predicate Ordered<T>(leq: Order<T>, s: seq<T>) {
    forall i, j :: 0 <= i < j < |s| ==> leq(s[i], s[j])
  }

  predicate Tied<T>(leq: Order<T>, x: T, y: T) {
    leq(x, y) && leq(y, x)
  }

  function TieOf<T>(leq: Order<T>, x: T, y: T): seq<T> {
    if Tied(leq, x, y) then [y] else []
  }

  // The elements that tie with x, in their order.
  function Ties<T>(leq: Order<T>, x: T, s: seq<T>): seq<T> {
    if s == [] then []
    else TieOf(leq, x, s[0]) + Ties(leq, x, s[1..])
  }

  lemma {:induction false} InsertKeepsElements<T>(leq: Order<T>, x: T, s: seq<T>)
    ensures multiset(Insert(leq, x, s)) == multiset(s) + multiset{x}
  {
    if s != [] && !leq(x, s[0]) {
      InsertKeepsElements(leq, x, s[1..]);
      assert s == [s[0]] + s[1..];
    }
  }

  lemma {:induction false} InsertKeepsOrder<T(!new)>(leq: Order<T>, x: T, s: seq<T>)
    requires TotalPreorder(leq) && Ordered(leq, s)
    ensures Ordered(leq, Insert(leq, x, s))
  {
    if s == [] {
    } else if leq(x, s[0]) {
      forall j | 0 <= j < |s|
        ensures leq(x, s[j])
      {
        assert leq(s[0], s[j]);
      }
    } else {
      var t := Insert(leq, x, s[1..]);
      InsertKeepsOrder(leq, x, s[1..]);
      InsertKeepsElements(leq, x, s[1..]);
      forall j | 0 <= j < |t|
        ensures leq(s[0], t[j])
      {
        assert t[j] in multiset(t);
        if t[j] != x {
          var i :| 0 <= i < |s[1..]| && s[1..][i] == t[j];
          assert s[i + 1] == t[j];
        }
      }
    }
  }

  lemma TiesOfCons<T>(leq: Order<T>, y: T, x: T, s: seq<T>)
    ensures Ties(leq, y, [x] + s) == TieOf(leq, y, x) + Ties(leq, y, s)
  {
    assert ([x] + s)[1..] == s;
  }

  // All elements that tie with y may stand before x, if x ties with y.
  ghost predicate TiesPass<T(!new)>(leq: Order<T>, x: T, y: T) {
    forall z :: Tied(leq, y, z) && Tied(leq, y, x) ==> leq(x, z)
  }

  lemma {:induction false} InsertKeepsTies<T(!new)>(leq: Order<T>, x: T, s: seq<T>, y: T)
    requires TiesPass(leq, x, y)
    ensures Ties(leq, y, Insert(leq, x, s)) == Ties(leq, y, [x] + s)
  {
    if s != [] && !leq(x, s[0]) {
      var rest := s[1..];
      var one, other := TieOf(leq, y, s[0]), TieOf(leq, y, x);
      calc {
        Ties(leq, y, Insert(leq, x, s));
        { TiesOfCons(leq, y, s[0], Insert(leq, x, rest)); }
        one + Ties(leq, y, Insert(leq, x, rest));
        { InsertKeepsTies(leq, x, rest, y); TiesOfCons(leq, y, x, rest); }
        one + (other + Ties(leq, y, rest));
        { assert one == [] || other == []; }
        other + (one + Ties(leq, y, rest));
        { TiesOfCons(leq, y, x, s); }
        Ties(leq, y, [x] + s);
      }
    }
  }

  // The result is ordered, has the same elements, and keeps ties in their order.
  lemma {:induction false} StableSortSorts<T(!new)>(leq: Order<T>, s: seq<T>)
    requires TotalPreorder(leq)
    ensures Ordered(leq, StableSort(leq, s))
    ensures multiset(StableSort(leq, s)) == multiset(s)
    ensures forall x :: Ties(leq, x, StableSort(leq, s)) == Ties(leq, x, s)
  {
    if s != [] {
      var t := StableSort(leq, s[1..]);
      StableSortSorts(leq, s[1..]);
      InsertKeepsOrder(leq, s[0], t);
      InsertKeepsElements(leq, s[0], t);
      assert s == [s[0]] + s[1..];
      forall x
        ensures Ties(leq, x, Insert(leq, s[0], t)) == Ties(leq, x, s)
      {
        InsertKeepsTies(leq, s[0], t, x);
        TiesOfCons(leq, x, s[0], t);
      }
    }
  }

  lemma {:induction false} StableSortLength<T>(leq: Order<T>, s: seq<T>)
    ensures |StableSort(leq, s)| == |s|
  {
    if s != [] {
      StableSortLength(leq, s[1..]);
      InsertKeepsElements(leq, s[0], StableSort(leq, s[1..]));
      assert |multiset(StableSort(leq, s))| == |StableSort(leq, s)|;
    }
  }
}
