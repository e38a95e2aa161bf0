/** Sorting of distinct values, and the order of texts. */
module Ordering {

  type Comparison<!T> = (T, T) -> bool

  ghost predicate OrderedAt<T>(less: Comparison<T>, a: T, b: T, c: T)
  {
    !less(a, a) && (less(a, b) || less(b, a) || a == b) && (less(a, b) && less(b, c) ==> less(a, c))
  }

  /** Irreflexive, total and transitive. */
  ghost predicate StrictOrder<T(!new)>(less: Comparison<T>) { forall a, b, c :: OrderedAt(less, a, b, c) }

  ghost predicate SortedBy<T>(less: Comparison<T>, items: seq<T>) { forall i, j :: 0 <= i < j < |items| ==> less(items[i], items[j]) }

  method Least<T(==, !new)>(less: Comparison<T>, items: set<T>) returns (least: T)
    requires StrictOrder(less) && items != {}
    ensures least in items && forall k :: k in items && k != least ==> less(least, k)
  {
    var first :| first in items;
    least := first;
    var rest := items - {least};
    while rest != {}
      invariant rest <= items && least in items && least !in rest
      invariant forall k :: k in items && k !in rest && k != least ==> less(least, k)
      decreases |rest|
    {
      var k :| k in rest;
      assert OrderedAt(less, k, least, k);
      if less(k, least) {
        forall j | j in items && j !in rest && j != least
          ensures less(k, j)
        {
          assert OrderedAt(less, k, least, j);
        }
        least := k;
      }
      rest := rest - {k};
    }
  }

  /** The values in order, each once. */
  method SortSet<T(==, !new)>(less: Comparison<T>, items: set<T>) returns (sorted: seq<T>)
    requires StrictOrder(less)
    ensures SortedBy(less, sorted) && |sorted| == |items| && forall k :: k in sorted <==> k in items
  {
    sorted := [];
    var rest := items;
    while rest != {}
      invariant rest <= items && |sorted| + |rest| == |items|
      invariant SortedBy(less, sorted) && forall k :: k in sorted <==> k in items && k !in rest
      invariant forall a, b :: a in sorted && b in rest ==> less(a, b)
      decreases |rest|
    {
      var least := Least(less, rest);
      sorted := sorted + [least];
      rest := rest - {least};
    }
  }

  // ------------------------------------------------------------------------- texts

  predicate LessText(a: string, b: string)
  {
    b != [] && (a == [] || a[0] < b[0] || (a[0] == b[0] && LessText(a[1..], b[1..])))
  }

  lemma {:induction false} LessTextIrreflexive(a: string)
    ensures !LessText(a, a)
  {
    if a != [] { LessTextIrreflexive(a[1..]); }
  }

  lemma {:induction false} LessTextTotal(a: string, b: string)
    ensures LessText(a, b) || LessText(b, a) || a == b
  {
    if a != [] && b != [] && a[0] == b[0] {
      LessTextTotal(a[1..], b[1..]);
      assert a == [a[0]] + a[1..] && b == [b[0]] + b[1..];
    }
  }

  lemma {:induction false} LessTextTransitive(a: string, b: string, c: string)
    requires LessText(a, b) && LessText(b, c)
    ensures LessText(a, c)
    decreases |a|
  {
    if a != [] && a[0] == b[0] == c[0] {
      LessTextTransitive(a[1..], b[1..], c[1..]);
    }
  }

  /** Texts are compared at the first place where they differ, a text coming before its extensions. */
  ghost predicate DiffersAt(a: string, b: string, k: nat)
  {
    k <= |a| && k < |b| && a[..k] == b[..k] && (k == |a| || a[k] < b[k])
  }

  lemma {:induction false} LessTextIs(a: string, b: string)
    ensures LessText(a, b) <==> exists k :: DiffersAt(a, b, k)
  {
    if b == [] {
    } else if a == [] || a[0] < b[0] {
      assert DiffersAt(a, b, 0);
    } else if a[0] == b[0] {
      LessTextIs(a[1..], b[1..]);
      if k: nat :| DiffersAt(a[1..], b[1..], k) {
        assert a[..k + 1] == [a[0]] + a[1..][..k] && b[..k + 1] == [b[0]] + b[1..][..k];
        assert DiffersAt(a, b, k + 1);
      }
      if k: nat :| DiffersAt(a, b, k) {
        assert k > 0;
        assert a[1..][..k - 1] == a[..k][1..] && b[1..][..k - 1] == b[..k][1..];
        assert DiffersAt(a[1..], b[1..], k - 1);
      }
    } else {
      forall k: nat ensures !DiffersAt(a, b, k) {
        if 0 < k <= |a| && k < |b| { assert a[..k][0] == a[0] && b[..k][0] == b[0]; }
      }
    }
  }

  lemma LessTextIsOrder()
    ensures StrictOrder(LessText)
  {
    forall a, b, c ensures OrderedAt(LessText, a, b, c) {
      LessTextIrreflexive(a);
      LessTextTotal(a, b);
      if LessText(a, b) && LessText(b, c) { LessTextTransitive(a, b, c); }
    }
  }
}
