/** The helpers the load balancer uses on endpoint lists. */
module Shuffling {
  import opened Basics

  /** Each of 0..n-1 exactly once. */
  ghost predicate IsPermutation(p: seq<nat>, n: nat) {
    && |p| == n
    && (forall i :: 0 <= i < n ==> p[i] < n)
    && (forall i, j :: 0 <= i < j < n ==> p[i] != p[j])
  }

  /** utilrand.Perm: any permutation, built by inserting at random positions. */
  method Perm(n: nat) returns (p: seq<nat>)
    ensures IsPermutation(p, n)
  {
    p := [];
    for i := 0 to n
      invariant IsPermutation(p, i)
    {
      var at: nat := *;
      at := at % (i + 1);
      p := p[..at] + [i] + p[at..];
    }
  }

  method ShuffleStrings(s: seq<string>) returns (shuffled: seq<string>)
    ensures multiset(shuffled) == multiset(s)
  {
    var a := new string[|s|];
    var perm := Perm(|s|);
    for i := 0 to |s|
      invariant forall k :: 0 <= k < i ==> a[perm[k]] == s[k]
    {
      a[perm[i]] := s[i];
    }
    shuffled := a[..];
    PermutedSame(s, shuffled, perm);
  }

  /** Writing s[k] to position perm[k] for every k rearranges s. */
  lemma {:induction false} PermutedSame(s: seq<string>, t: seq<string>, perm: seq<nat>)
    requires |s| == |t| && IsPermutation(perm, |s|)
    requires forall k :: 0 <= k < |s| ==> t[perm[k]] == s[k]
    ensures multiset(t) == multiset(s)
    decreases |s|
  {
    var n := |s|;
    if n == 0 {
      assert s == [] && t == [];
    } else {
      // drop the last of s and its place in t
      var at := perm[n - 1];
      var s' := s[..n - 1];
      var t' := t[..at] + t[at + 1..];
      var perm' := seq(n - 1, k requires 0 <= k < n - 1 => if perm[k] > at then perm[k] - 1 else perm[k]);
      PermutationWithoutLast(perm, n, perm');
      forall k | 0 <= k < n - 1 ensures t'[perm'[k]] == s'[k] {
        assert perm[k] != at;
      }
      PermutedSame(s', t', perm');
      assert s == s' + [s[n - 1]];
      assert t == t[..at] + [t[at]] + t[at + 1..];
    }
  }

  lemma PermutationWithoutLast(perm: seq<nat>, n: nat, perm': seq<nat>)
    requires n > 0 && IsPermutation(perm, n)
    requires |perm'| == n - 1
    requires forall k :: 0 <= k < n - 1 ==> perm'[k] == if perm[k] > perm[n - 1] then perm[k] - 1 else perm[k]
    ensures IsPermutation(perm', n - 1)
  {
  }

  /** sort.Strings, in place. */
  method SortStrings(a: array<string>)
    modifies a
    ensures multiset(a[..]) == multiset(old(a[..])) && SortedBy(a[..], StringLess)
  {
    StringOrderIsWeak();
    var sorted := Sort(a[..], StringLess);
    assert |sorted| == |multiset(sorted)| == |multiset(a[..])| == a.Length;
    forall i | 0 <= i < a.Length {
      a[i] := sorted[i];
    }
    assert a[..] == sorted;
  }

  /** Decides whether two lists hold the same strings equally often, sorting both on the way
      when their lengths agree. */
  method SlicesEquiv(lhs: array<string>, rhs: array<string>) returns (equivalent: bool)
    requires lhs != rhs
    modifies lhs, rhs
    ensures equivalent <==> multiset(old(lhs[..])) == multiset(old(rhs[..]))
    ensures multiset(lhs[..]) == multiset(old(lhs[..])) && multiset(rhs[..]) == multiset(old(rhs[..]))
  {
    if lhs.Length != rhs.Length {
      assert |multiset(lhs[..])| == lhs.Length && |multiset(rhs[..])| == rhs.Length;
      return false;
    }
    SortStrings(lhs);
    SortStrings(rhs);
    if multiset(lhs[..]) == multiset(rhs[..]) {
      SortedStringsUnique(lhs[..], rhs[..]);
    }
    equivalent := lhs[..] == rhs[..];
  }

  lemma SortedSameHead(a: seq<string>, b: seq<string>)
    requires SortedBy(a, StringLess) && SortedBy(b, StringLess)
    requires a != [] && b != [] && a[0] in b && b[0] in a
    ensures a[0] == b[0]
  {
    var j :| 0 <= j < |b| && b[j] == a[0];
    var i :| 0 <= i < |a| && a[i] == b[0];
    StringLessTotal(a[0], b[0]);
  }

  lemma TailMultiset(a: seq<string>)
    requires a != []
    ensures multiset(a[1..]) == multiset(a) - multiset{a[0]}
    ensures a == [a[0]] + a[1..]
  {
    assert a == [a[0]] + a[1..];
  }

  lemma {:induction false} SortedStringsUnique(a: seq<string>, b: seq<string>)
    requires SortedBy(a, StringLess) && SortedBy(b, StringLess)
    requires multiset(a) == multiset(b)
    ensures a == b
  {
    assert |multiset(a)| == |a| && |multiset(b)| == |b|;
    if a != [] {
      assert a[0] in multiset(b) && b[0] in multiset(a);
      SortedSameHead(a, b);
      TailMultiset(a);
      TailMultiset(b);
      SortedStringsUnique(a[1..], b[1..]);
    }
  }
}
