/** Small shared vocabulary: options, bounded first-in-first-out replay windows
    and the byte-wise order Go uses on strings. */
module Common {

  datatype Option<+T> = None | Some(value: T)

  predicate NoDup<T(==)>(s: seq<T>) {
    forall i, j :: 0 <= i < j < |s| ==> s[i] != s[j]
  }

  function Elems<T>(s: seq<T>): set<T> {
    set x | x in s
  }

  /** The newest `n` entries of a history. */
  function LastN<T>(s: seq<T>, n: nat): seq<T> {
    if |s| <= n then s else s[|s| - n..]
  }

  /** Every entry of the history was absent from the window that preceded it. */
  ghost predicate NeverInWindow<T>(history: seq<T>, capacity: nat) {
    forall j :: 0 <= j < |history| ==> history[j] !in LastN(history[..j], capacity)
  }

  lemma WindowStep<T>(history: seq<T>, x: T, capacity: nat)
    requires capacity > 0
    ensures LastN(history + [x], capacity) ==
            if |LastN(history, capacity)| < capacity then LastN(history, capacity) + [x]
            else LastN(history, capacity)[1..] + [x]
  {
  }

  lemma NeverInWindowExtends<T>(history: seq<T>, x: T, capacity: nat)
    requires NeverInWindow(history, capacity)
    requires x !in LastN(history, capacity)
    ensures NeverInWindow(history + [x], capacity)
  {
    var longer := history + [x];
    forall j | 0 <= j < |longer|
      ensures longer[j] !in LastN(longer[..j], capacity)
    {
      assert longer[..j] == history[..j];
      if j == |history| {
        assert history[..j] == history;
      }
    }
  }

  lemma WindowHasNoDuplicates<T>(history: seq<T>, capacity: nat)
    requires NeverInWindow(history, capacity)
    ensures NoDup(LastN(history, capacity))
  {
    var base := |history| - |LastN(history, capacity)|;
    forall i, j | base <= i < j < |history|
      ensures history[i] != history[j]
    {
      var before := LastN(history[..j], capacity);
      var offset := j - |before|;
      assert before[i - offset] == history[i];
    }
  }

  /** A repeated entry is separated from its earlier occurrence by a full window of
      pairwise different entries, none of which is the repeated one. */
  lemma RepeatsAreFarApart<T>(history: seq<T>, capacity: nat, i: nat, j: nat)
    requires NeverInWindow(history, capacity)
    requires i < j < |history| && history[i] == history[j]
    ensures i + capacity < j
    ensures NoDup(history[j - capacity..j]) && history[j] !in history[j - capacity..j]
    ensures |Elems(history[j - capacity..j])| == capacity
  {
    var before := LastN(history[..j], capacity);
    var offset := j - |before|;
    assert forall k :: offset <= k < j ==> history[k] == before[k - offset];
    assert before == history[j - capacity..j];
    forall k | 0 <= k < |history[..j]|
      ensures history[..j][k] !in LastN(history[..j][..k], capacity)
    {
      assert history[..j][..k] == history[..k];
    }
    WindowHasNoDuplicates(history[..j], capacity);
    NoDupCardinality(before);
  }

  lemma {:induction false} NoDupCardinality<T>(s: seq<T>)
    requires NoDup(s)
    ensures |Elems(s)| == |s|
  {
    if s != [] {
      var init, last := s[..|s| - 1], s[|s| - 1];
      NoDupCardinality(init);
      assert s == init + [last];
      assert Elems(s) == Elems(init) + {last};
      assert last !in Elems(init);
    }
  }

  lemma {:induction false} OnceEach<T>(s: seq<T>, x: T)
    requires NoDup(s)
    ensures multiset(s)[x] <= 1
  {
    if s != [] {
      var init, last := s[..|s| - 1], s[|s| - 1];
      OnceEach(init, x);
      assert s == init + [last];
      assert last !in multiset(init);
    }
  }

  lemma TwoOfOne<T>(s: seq<T>, i: nat, j: nat)
    requires i < j < |s| && s[i] == s[j]
    ensures multiset(s)[s[i]] >= 2
  {
    assert s == s[..j] + [s[j]] + s[j + 1..];
    assert s[..j][i] == s[i];
    assert s[i] in multiset(s[..j]);
  }

  /** Two listings of the same things hold the same things, in another order. */
  lemma SameMembers<T>(a: seq<T>, b: seq<T>)
    requires multiset(a) == multiset(b)
    ensures forall x :: x in a <==> x in b
  {
    assert forall x :: x in a <==> x in multiset(a);
    assert forall x :: x in b <==> x in multiset(b);
  }

  lemma NoDupPermuted<T>(a: seq<T>, b: seq<T>)
    requires multiset(a) == multiset(b) && NoDup(a)
    ensures NoDup(b)
  {
    forall i, j | 0 <= i < j < |b|
      ensures b[i] != b[j]
    {
      OnceEach(a, b[i]);
      if b[i] == b[j] {
        TwoOfOne(b, i, j);
      }
    }
  }

  lemma SameItems<T>(a: seq<T>, b: seq<T>)
    requires NoDup(a) && NoDup(b) && (forall x :: x in a <==> x in b)
    ensures multiset(a) == multiset(b)
  {
    forall x
      ensures multiset(a)[x] == multiset(b)[x]
    {
      OnceEach(a, x);
      OnceEach(b, x);
      assert x in multiset(a) <==> x in a;
      assert x in multiset(b) <==> x in b;
    }
  }

  lemma SubsetIsSmaller<T>(a: set<T>, b: set<T>)
    requires a <= b
    ensures |a| <= |b|
  {
    assert b == a + (b - a);
  }

  /** Go's `<` on strings: byte by byte, a proper prefix being smaller. */
  predicate Before(a: string, b: string) {
    if b == "" then false
    else if a == "" then true
    else a[0] < b[0] || (a[0] == b[0] && Before(a[1..], b[1..]))
  }

  lemma {:induction false} BeforeTotal(a: string, b: string)
    ensures a == b || Before(a, b) || Before(b, a)
  {
    if a != "" && b != "" && a[0] == b[0] {
      BeforeTotal(a[1..], b[1..]);
      assert a == [a[0]] + a[1..] && b == [b[0]] + b[1..];
    }
  }

  lemma {:induction false} BeforeAsymmetric(a: string, b: string)
    requires Before(a, b)
    ensures !Before(b, a) && a != b
  {
    if a != "" && b != "" && a[0] == b[0] {
      BeforeAsymmetric(a[1..], b[1..]);
    }
  }

  lemma {:induction false} BeforeTransitive(a: string, b: string, c: string)
    requires Before(a, b) && Before(b, c)
    ensures Before(a, c)
  {
    if a != "" && b != "" && c != "" && a[0] == b[0] == c[0] {
      BeforeTransitive(a[1..], b[1..], c[1..]);
    }
  }

  /** At the first place where they differ the smaller byte comes first, or one text ends. */
  predicate DifferAt(a: string, b: string, k: nat) {
    && k <= |a| && k < |b| && a[..k] == b[..k]
    && (k < |a| ==> a[k] < b[k])
  }

  lemma {:induction false} BeforeMeans(a: string, b: string)
    ensures Before(a, b) <==> exists k: nat :: DifferAt(a, b, k)
  {
    if a == "" || b == "" {
      assert b != "" ==> DifferAt(a, b, 0);
    } else if a[0] != b[0] {
      assert a[0] < b[0] ==> DifferAt(a, b, 0);
      assert forall k: nat | DifferAt(a, b, k) && k > 0 :: a[..k][0] == b[..k][0];
    } else {
      BeforeMeans(a[1..], b[1..]);
      if Before(a, b) {
        var k: nat :| DifferAt(a[1..], b[1..], k);
        assert a[..k + 1] == [a[0]] + a[1..][..k] && b[..k + 1] == [b[0]] + b[1..][..k];
        assert DifferAt(a, b, k + 1);
      }
      if k: nat :| DifferAt(a, b, k) {
        assert k > 0;
        assert a[1..][..k - 1] == a[..k][1..] && b[1..][..k - 1] == b[..k][1..];
        assert DifferAt(a[1..], b[1..], k - 1);
      }
    }
  }
}
