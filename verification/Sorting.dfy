/** Sorting by a strict order: what a sort gives, and that nothing else could. */
module Sorting {

  type Order<!T> = (T, T) -> bool

  ghost predicate Strict<T(!new)>(less: Order<T>) {
    && (forall a, b :: less(a, b) ==> !less(b, a))
    && (forall a, b, c :: less(a, b) && less(b, c) ==> less(a, c))
  }

  /** Each comes before all that follow it. */
  predicate Ordered<T>(xs: seq<T>, less: Order<T>) {
    forall i, j :: 0 <= i < j < |xs| ==> less(xs[i], xs[j])
  }

  /** No two are level in the order. */
  predicate Comparable<T>(xs: seq<T>, less: Order<T>) {
    forall i, j :: 0 <= i < j < |xs| ==> less(xs[i], xs[j]) || less(xs[j], xs[i])
  }

  function Insert<T>(x: T, xs: seq<T>, less: Order<T>): seq<T> {
    if xs == [] || !less(xs[0], x) then [x] + xs else [xs[0]] + Insert(x, xs[1..], less)
  }

  function Sorted<T>(xs: seq<T>, less: Order<T>): seq<T> {
    if xs == [] then [] else Insert(xs[0], Sorted(xs[1..], less), less)
  }

  lemma {:induction false} InsertKeeps<T>(x: T, xs: seq<T>, less: Order<T>)
    ensures multiset(Insert(x, xs, less)) == multiset(xs) + multiset{x}
  {
    if !(xs == [] || !less(xs[0], x)) {
      InsertKeeps(x, xs[1..], less);
      assert xs == [xs[0]] + xs[1..];
    }
  }

  lemma SameMembers<T>(a: seq<T>, b: seq<T>)
    requires multiset(a) == multiset(b)
    ensures forall x :: x in a <==> x in b
  {
    forall x
      ensures x in a <==> x in b
    {
      assert x in a <==> x in multiset(a);
      assert x in b <==> x in multiset(b);
    }
  }

  lemma InsertMembers<T>(x: T, xs: seq<T>, less: Order<T>)
    ensures forall y :: y in Insert(x, xs, less) <==> y == x || y in xs
  {
    InsertKeeps(x, xs, less);
    assert multiset(xs + [x]) == multiset(Insert(x, xs, less));
    SameMembers(Insert(x, xs, less), xs + [x]);
  }

  /** A sort leaves nothing out and adds nothing. */
  lemma {:induction false} SortedKeeps<T>(xs: seq<T>, less: Order<T>)
    ensures multiset(Sorted(xs, less)) == multiset(xs)
    ensures forall x :: x in Sorted(xs, less) <==> x in xs
  {
    if xs != [] {
      SortedKeeps(xs[1..], less);
      InsertKeeps(xs[0], Sorted(xs[1..], less), less);
      assert xs == [xs[0]] + xs[1..];
    }
    SameMembers(Sorted(xs, less), xs);
  }

  lemma OrderedCons<T>(x: T, xs: seq<T>, less: Order<T>)
    requires Ordered(xs, less) && forall y <- xs :: less(x, y)
    ensures Ordered([x] + xs, less)
  {
  }

  lemma OrderedTail<T>(xs: seq<T>, less: Order<T>)
    requires Ordered(xs, less) && xs != []
    ensures Ordered(xs[1..], less) && forall y <- xs[1..] :: less(xs[0], y)
  {
  }

  lemma {:induction false} InsertOrdered<T(!new)>(x: T, xs: seq<T>, less: Order<T>)
    requires Strict(less) && Ordered(xs, less) && forall y <- xs :: less(x, y) || less(y, x)
    ensures Ordered(Insert(x, xs, less), less)
  {
    if xs != [] {
      OrderedTail(xs, less);
      if less(xs[0], x) {
        InsertOrdered(x, xs[1..], less);
        InsertMembers(x, xs[1..], less);
        OrderedCons(xs[0], Insert(x, xs[1..], less), less);
      } else {
        assert xs[0] in xs;
        forall y | y in xs
          ensures less(x, y)
        {
          if y in xs[1..] { assert less(xs[0], y); }
        }
        OrderedCons(x, xs, less);
      }
    }
  }

  lemma {:induction false} SortedOrdered<T(!new)>(xs: seq<T>, less: Order<T>)
    requires Strict(less) && Comparable(xs, less)
    ensures Ordered(Sorted(xs, less), less)
  {
    if xs != [] {
      SortedOrdered(xs[1..], less);
      SortedKeeps(xs[1..], less);
      InsertOrdered(xs[0], Sorted(xs[1..], less), less);
    }
  }

  lemma FirstsAgree<T(!new)>(a: seq<T>, b: seq<T>, less: Order<T>)
    requires Strict(less) && Ordered(a, less) && Ordered(b, less) && a != [] && b != []
    requires a[0] in b && b[0] in a
    ensures a[0] == b[0]
  {
    FirstIsLeast(a, b[0], less);
    FirstIsLeast(b, a[0], less);
  }

  lemma FirstIsLeast<T>(xs: seq<T>, x: T, less: Order<T>)
    requires Ordered(xs, less) && x in xs
    ensures xs[0] == x || less(xs[0], x)
  {
  }

  lemma SomeMember<T>(xs: seq<T>)
    ensures xs != [] ==> xs[0] in xs
    ensures xs == [] || exists x :: x in xs
  {
  }

  lemma TailMembers<T(!new)>(xs: seq<T>, x: T, less: Order<T>)
    requires Strict(less) && Ordered(xs, less) && xs != []
    ensures x in xs[1..] <==> x in xs && x != xs[0]
  {
    OrderedTail(xs, less);
    assert xs == [xs[0]] + xs[1..];
  }

  /** However it is sorted, the result is the same. */
  lemma {:induction false} OrderedUnique<T(!new)>(a: seq<T>, b: seq<T>, less: Order<T>)
    requires Strict(less) && Ordered(a, less) && Ordered(b, less) && forall x :: x in a <==> x in b
    ensures a == b
  {
    SomeMember(a);
    SomeMember(b);
    if a != [] {
      FirstsAgree(a, b, less);
      assert a == [a[0]] + a[1..] && b == [b[0]] + b[1..];
      forall x
        ensures x in a[1..] <==> x in b[1..]
      {
        TailMembers(a, x, less);
        TailMembers(b, x, less);
      }
      OrderedTail(a, less);
      OrderedTail(b, less);
      OrderedUnique(a[1..], b[1..], less);
    }
  }
}
