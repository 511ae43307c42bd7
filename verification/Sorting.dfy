/** Sorting by an arbitrary strict total order, and why its result is unique. */
module Sorting {
  import opened Common

  ghost predicate Order<T(!new)>(lt: (T, T) -> bool) {
    && (forall a, b :: lt(a, b) ==> !lt(b, a))
    && (forall a, b, c :: lt(a, b) && lt(b, c) ==> lt(a, c))
    && (forall a, b :: a == b || lt(a, b) || lt(b, a))
  }

  /** What sorting needs: entries may also tie. */
  ghost predicate WeakOrder<T(!new)>(lt: (T, T) -> bool) {
    && (forall a, b :: lt(a, b) ==> !lt(b, a))
    && (forall a, b, c :: lt(a, c) ==> lt(a, b) || lt(b, c))
  }

  lemma OrderIsWeak<T(!new)>(lt: (T, T) -> bool)
    requires Order(lt)
    ensures WeakOrder(lt)
  {
  }

  /** Strings are totally ordered. */
  lemma BeforeIsOrder()
    ensures Order(Before)
  {
    forall a, b
      ensures a == b || Before(a, b) || Before(b, a)
      ensures Before(a, b) ==> !Before(b, a)
    {
      BeforeTotal(a, b);
      if Before(a, b) {
        BeforeAsymmetric(a, b);
      }
    }
    forall a, b, c | Before(a, b) && Before(b, c)
      ensures Before(a, c)
    {
      BeforeTransitive(a, b, c);
    }
  }

  predicate Sorted<T>(lt: (T, T) -> bool, s: seq<T>) {
    forall i, j | 0 <= i < j < |s| :: !lt(s[j], s[i])
  }

  lemma SameLeast<T(!new)>(lt: (T, T) -> bool, a: seq<T>, b: seq<T>)
    requires Order(lt) && Sorted(lt, a) && Sorted(lt, b) && multiset(a) == multiset(b) && a != [] && b != []
    ensures a[0] == b[0]
  {
    var i := PlaceOf(a, b, 0);
    var j := PlaceOf(b, a, 0);
    assert !lt(b[i], b[0]) || i == 0;
    assert !lt(a[j], a[0]) || j == 0;
  }

  lemma SameRest<T>(a: seq<T>, b: seq<T>)
    requires multiset(a) == multiset(b) && a != [] && b != [] && a[0] == b[0]
    ensures multiset(a[1..]) == multiset(b[1..])
  {
    assert a == [a[0]] + a[1..] && b == [b[0]] + b[1..];
    assert multiset(a[1..]) == multiset(a) - multiset{a[0]};
  }

  /** A multiset has only one sorted listing. */
  lemma {:induction false} SortedIsUnique<T(!new)>(lt: (T, T) -> bool, a: seq<T>, b: seq<T>)
    requires Order(lt) && Sorted(lt, a) && Sorted(lt, b) && multiset(a) == multiset(b)
    ensures a == b
  {
    assert |multiset(a)| == |multiset(b)|;
    if a != [] {
      SameLeast(lt, a, b);
      SameRest(a, b);
      SortedIsUnique(lt, a[1..], b[1..]);
      assert a == [a[0]] + a[1..] && b == [b[0]] + b[1..];
    }
  }

  lemma PlaceOf<T>(from: seq<T>, to: seq<T>, i: nat) returns (k: nat)
    requires multiset(from) == multiset(to) && i < |from|
    ensures k < |to| && to[k] == from[i]
  {
    assert from[i] in multiset(from);
    k :| 0 <= k < |to| && to[k] == from[i];
  }

  /** Ordered up to position `i`, except that entry `j` may still have to move left. */
  predicate SortedBut<T>(lt: (T, T) -> bool, s: seq<T>, i: nat, j: nat)
    requires j <= i < |s|
  {
    forall k, l | 0 <= k < l <= i && l != j :: !lt(s[l], s[k])
  }

  lemma SwapLeft<T(!new)>(lt: (T, T) -> bool, s: seq<T>, i: nat, j: nat)
    requires WeakOrder(lt) && 0 < j <= i < |s| && SortedBut(lt, s, i, j) && lt(s[j], s[j - 1])
    ensures var swapped := s[j := s[j - 1]][j - 1 := s[j]];
            SortedBut(lt, swapped, i, j - 1) && multiset(swapped) == multiset(s)
  {
  }

  lemma Settles<T(!new)>(lt: (T, T) -> bool, s: seq<T>, i: nat, j: nat)
    requires WeakOrder(lt) && j <= i < |s| && SortedBut(lt, s, i, j) && (j == 0 || !lt(s[j], s[j - 1]))
    ensures Sorted(lt, s[..i + 1])
  {
    forall k | 0 <= k < j
      ensures !lt(s[j], s[k])
    {
      if k < j - 1 {
        assert !lt(s[j - 1], s[k]);
      }
    }
  }

  method SortInPlace<T(!new)>(lt: (T, T) -> bool, a: array<T>)
    requires WeakOrder(lt)
    modifies a
    ensures Sorted(lt, a[..]) && multiset(a[..]) == multiset(old(a[..]))
  {
    var i := 0;
    while i < a.Length
      invariant 0 <= i <= a.Length
      invariant Sorted(lt, a[..i]) && multiset(a[..]) == multiset(old(a[..]))
    {
      var j := i;
      while j > 0 && lt(a[j], a[j - 1])
        invariant 0 <= j <= i
        invariant SortedBut(lt, a[..], i, j) && multiset(a[..]) == multiset(old(a[..]))
      {
        SwapLeft(lt, a[..], i, j);
        ghost var before := a[..];
        a[j], a[j - 1] := a[j - 1], a[j];
        assert a[..] == before[j := before[j - 1]][j - 1 := before[j]];
        j := j - 1;
      }
      Settles(lt, a[..], i, j);
      assert a[..][..i + 1] == a[..i + 1];
      i := i + 1;
    }
    assert a[..a.Length] == a[..];
  }

  /** A sorted copy, as sort.Slice may leave it. */
  method SortedCopy<T(!new)>(lt: (T, T) -> bool, s: seq<T>) returns (sorted: seq<T>)
    requires WeakOrder(lt)
    ensures Sorted(lt, sorted) && multiset(sorted) == multiset(s) && |sorted| == |s|
  {
    if s == [] {
      return [];
    }
    var a := new T[|s|](i requires 0 <= i < |s| => s[i]);
    assert a[..] == s;
    SortInPlace(lt, a);
    sorted := a[..];
  }
}
