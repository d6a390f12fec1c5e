/** Shared vocabulary: optional values, names, the order Go uses on strings,
    and what a call to Go's (unstable) sort may return. */
module Basics {

  datatype Option<+T> = None | Some(value: T)

  datatype NamespacedName = NamespacedName(namespace: string, name: string)

  /** The value a Go map lookup finds, if any. */
  function Get<K, V>(m: map<K, V>, k: K): (r: Option<V>)
  {
    if k in m then Some(m[k]) else None
  }

  lemma Associative<T>(a: seq<T>, b: seq<T>, c: seq<T>)
    ensures (a + b) + c == a + (b + c)
  {
  }

  /** Go's `<` on strings: lexicographic. */
  predicate StringLess(a: string, b: string) {
    b != "" && (a == "" || a[0] < b[0] || (a[0] == b[0] && StringLess(a[1..], b[1..])))
  }

  /** The first difference decides, and a proper prefix is less. */
  lemma {:induction false} StringLessMeaning(a: string, b: string)
    ensures StringLess(a, b) <==>
      exists k :: 0 <= k <= |a| && k < |b| && a[..k] == b[..k] && (k == |a| || a[k] < b[k])
  {
    if a != "" && b != "" && a[0] == b[0] {
      StringLessMeaning(a[1..], b[1..]);
      if StringLess(a[1..], b[1..]) {
        var k :| 0 <= k <= |a[1..]| && k < |b[1..]| && a[1..][..k] == b[1..][..k]
          && (k == |a[1..]| || a[1..][k] < b[1..][k]);
        assert a[..k + 1] == [a[0]] + a[1..][..k] && b[..k + 1] == [b[0]] + b[1..][..k];
      }
      if k :| 0 <= k <= |a| && k < |b| && a[..k] == b[..k] && (k == |a| || a[k] < b[k]) {
        assert k > 0;
        assert a[1..][..k - 1] == a[..k][1..] && b[1..][..k - 1] == b[..k][1..];
        assert StringLess(a[1..], b[1..]);
      }
    } else if a == "" && b != "" {
      assert a[..0] == b[..0];
    } else if b != "" && a[0] < b[0] {
      assert a[..0] == b[..0];
    } else if a != "" && b != "" {
      assert forall k :: 0 < k <= |a| && k < |b| && a[..k] == b[..k] ==> a[..k][0] == b[..k][0];
    }
  }

  lemma {:induction false} StringLessIrreflexive(a: string)
    ensures !StringLess(a, a)
  {
    if a != "" {
      StringLessIrreflexive(a[1..]);
    }
  }

  lemma {:induction false} StringLessTotal(a: string, b: string)
    ensures StringLess(a, b) || a == b || StringLess(b, a)
    ensures !(StringLess(a, b) && StringLess(b, a))
    decreases |a| + |b|
  {
    if a != "" && b != "" && a[0] == b[0] {
      StringLessTotal(a[1..], b[1..]);
      if a[1..] == b[1..] {
        assert a == [a[0]] + a[1..] == [b[0]] + b[1..] == b;
      }
    }
  }

  lemma {:induction false} StringLessTransitive(a: string, b: string, c: string)
    requires StringLess(a, b) && StringLess(b, c)
    ensures StringLess(a, c)
  {
    if a != "" && a[0] == b[0] == c[0] {
      StringLessTransitive(a[1..], b[1..], c[1..]);
    }
  }

  /** `less` orders its arguments up to ties, which is what sort.Sort needs. */
  ghost predicate WeakOrder<T(!new)>(less: (T, T) -> bool) {
    && (forall x, y :: less(x, y) ==> !less(y, x))
    && (forall x, y, z :: !less(x, y) && !less(y, z) ==> !less(x, z))
  }

  /** No later element is less than an earlier one. */
  ghost predicate SortedBy<T>(xs: seq<T>, less: (T, T) -> bool) {
    forall i, j :: 0 <= i < j < |xs| ==> !less(xs[j], xs[i])
  }

  /** Everything a caller of sort.Sort may rely on: ties keep no particular order. */
  ghost predicate SortOf<T>(xs: seq<T>, less: (T, T) -> bool, sorted: seq<T>) {
    multiset(sorted) == multiset(xs) && SortedBy(sorted, less)
  }

  lemma StringOrderIsWeak()
    ensures WeakOrder(StringLess)
  {
    forall x, y ensures StringLess(x, y) ==> !StringLess(y, x) {
      StringLessTotal(x, y);
    }
    forall x, y, z | !StringLess(x, y) && !StringLess(y, z) ensures !StringLess(x, z) {
      StringLessTotal(x, y);
      StringLessTotal(y, z);
      StringLessTotal(x, z);
      if x != y && y != z {
        StringLessTransitive(z, y, x);
      } else {
        StringLessIrreflexive(x);
      }
    }
  }

  lemma InsertKeepsSorted<T>(xs: seq<T>, i: nat, x: T, less: (T, T) -> bool)
    requires SortedBy(xs, less) && i <= |xs|
    requires forall k :: 0 <= k < i ==> !less(x, xs[k])
    requires forall k :: i <= k < |xs| ==> !less(xs[k], x)
    ensures SortOf(xs + [x], less, xs[..i] + [x] + xs[i..])
  {
    var ys := xs[..i] + [x] + xs[i..];
    assert xs == xs[..i] + xs[i..];
    forall a, b | 0 <= a < b < |ys| ensures !less(ys[b], ys[a]) {
      var a' := if a < i then a else a - 1;
      var b' := if b < i then b else b - 1;
      assert a != i ==> ys[a] == xs[a'];
      assert b != i ==> ys[b] == xs[b'];
    }
  }

  lemma InsertNext<T>(xs: seq<T>, n: nat, sorted: seq<T>, i: nat, less: (T, T) -> bool)
    requires n < |xs| && SortOf(xs[..n], less, sorted) && i <= |sorted|
    requires forall k :: 0 <= k < i ==> !less(xs[n], sorted[k])
    requires forall k :: i <= k < |sorted| ==> !less(sorted[k], xs[n])
    ensures SortOf(xs[..n + 1], less, sorted[..i] + [xs[n]] + sorted[i..])
  {
    InsertKeepsSorted(sorted, i, xs[n], less);
    assert xs[..n + 1] == xs[..n] + [xs[n]];
  }

  lemma NotLessThanPrefix<T(!new)>(xs: seq<T>, i: nat, x: T, less: (T, T) -> bool)
    requires WeakOrder(less) && SortedBy(xs, less) && i <= |xs|
    requires i > 0 ==> !less(x, xs[i - 1])
    ensures forall k :: 0 <= k < i ==> !less(x, xs[k])
  {
  }

  /** sort.Sort. The contract promises a permutation without inversions and leaves
      the order of ties open. */
  method Sort<T(!new)>(xs: seq<T>, less: (T, T) -> bool) returns (sorted: seq<T>)
    requires WeakOrder(less)
    ensures SortOf(xs, less, sorted)
  {
    sorted := [];
    for n := 0 to |xs|
      invariant SortOf(xs[..n], less, sorted)
    {
      var i := Position(sorted, xs[n], less);
      InsertNext(xs, n, sorted, i, less);
      sorted := sorted[..i] + [xs[n]] + sorted[i..];
    }
    assert xs[..|xs|] == xs;
  }

  /** Where a sorted list may take one more element. */
  method Position<T(!new)>(sorted: seq<T>, x: T, less: (T, T) -> bool) returns (i: nat)
    requires WeakOrder(less) && SortedBy(sorted, less)
    ensures i <= |sorted|
    ensures forall k :: 0 <= k < i ==> !less(x, sorted[k])
    ensures forall k :: i <= k < |sorted| ==> !less(sorted[k], x)
  {
    i := |sorted|;
    while i > 0 && less(x, sorted[i - 1])
      invariant 0 <= i <= |sorted|
      invariant forall k :: i <= k < |sorted| ==> !less(sorted[k], x)
    {
      i := i - 1;
    }
    NotLessThanPrefix(sorted, i, x, less);
  }
}
