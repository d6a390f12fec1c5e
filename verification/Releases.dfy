/** Which releases of shared holdings are last ones, whatever the order and the repetitions. */
module Releases {

  /** Whether `e` is the only holder of what it holds. */
  ghost predicate LastHolder<E, C>(held: map<E, C>, e: E) {
    e in held && forall x :: x in held && held[x] == held[e] ==> x == e
  }

  function Elements<E>(es: seq<E>): set<E> {
    set e | e in es
  }

  lemma ElementsOfSum<E>(a: seq<E>, b: seq<E>)
    ensures Elements(a + b) == Elements(a) + Elements(b)
  {
  }

  /** What becomes unheld, in order, when the holders release one after the other; releasing
      again, or without holding, does nothing. */
  ghost function Unheld<E, C>(held: map<E, C>, es: seq<E>): seq<C> {
    if es == [] then []
    else
      var n := |es| - 1;
      var rest := held - Elements(es[..n]);
      Unheld(held, es[..n]) + if LastHolder(rest, es[n]) then [rest[es[n]]] else []
  }

  ghost predicate AllRelease<E, C>(held: map<E, C>, es: seq<E>, c: C) {
    c in held.Values && forall e :: e in held && held[e] == c ==> e in es
  }

  lemma OtherUnaffected<E, C>(held: map<E, C>, prefix: seq<E>, last: E, c: C)
    requires last in held && last !in prefix ==> held[last] != c
    ensures AllRelease(held, prefix + [last], c) <==> AllRelease(held, prefix, c)
  {
  }

  /** Only a last release completes the releases of what it holds. */
  lemma ReleaseCompletes<E, C>(held: map<E, C>, prefix: seq<E>, last: E)
    requires last in held && last !in prefix
    ensures !AllRelease(held, prefix, held[last])
    ensures AllRelease(held, prefix + [last], held[last]) <==> LastHolder(held - Elements(prefix), last)
  {
    var rest := held - Elements(prefix);
    assert last in rest && held[last] in held.Values;
    assert forall e :: e in prefix + [last] <==> e in prefix || e == last;
    if LastHolder(rest, last) {
      forall e | e in held && held[e] == held[last] ensures e in prefix + [last] {
        if e !in prefix {
          assert e in rest;
        }
      }
    } else {
      var x :| x in rest && rest[x] == rest[last] && x != last;
      assert x !in prefix;
    }
  }

  /** Exactly what all its holders release becomes unheld, and it does so exactly once. */
  lemma {:induction false} UnheldOnceAllRelease<E, C>(held: map<E, C>, es: seq<E>, c: C)
    ensures multiset(Unheld(held, es))[c] == if AllRelease(held, es, c) then 1 else 0
  {
    if es == [] {
      if c in held.Values {
        var e :| e in held && held[e] == c;
        assert e !in es;
      }
    } else {
      var n := |es| - 1;
      UnheldOnceAllRelease(held, es[..n], c);
      OneMoreRelease(held, es[..n], es[n], c);
      assert es == es[..n] + [es[n]];
    }
  }

  lemma OneMoreRelease<E, C>(held: map<E, C>, prefix: seq<E>, last: E, c: C)
    requires multiset(Unheld(held, prefix))[c] == if AllRelease(held, prefix, c) then 1 else 0
    ensures multiset(Unheld(held, prefix + [last]))[c] == if AllRelease(held, prefix + [last], c) then 1 else 0
  {
    var rest := held - Elements(prefix);
    assert (prefix + [last])[..|prefix|] == prefix;
    if last in held && last !in prefix && held[last] == c {
      ReleaseCompletes(held, prefix, last);
    } else {
      OtherUnaffected(held, prefix, last, c);
      assert LastHolder(rest, last) ==> rest[last] != c;
    }
  }

  /** Order and repetitions do not matter. */
  lemma UnheldInAnyOrder<E, C>(held: map<E, C>, es: seq<E>, fs: seq<E>, c: C)
    requires Elements(es) == Elements(fs)
    ensures multiset(Unheld(held, es))[c] == multiset(Unheld(held, fs))[c]
  {
    assert forall e :: e in es <==> e in Elements(es);
    assert forall e :: e in fs <==> e in Elements(fs);
    UnheldOnceAllRelease(held, es, c);
    UnheldOnceAllRelease(held, fs, c);
  }

  /** Releasing again adds nothing. */
  lemma {:induction false} RepeatsAddNothing<E, C>(held: map<E, C>, es: seq<E>, again: seq<E>)
    requires Elements(again) <= Elements(es)
    ensures Unheld(held, es + again) == Unheld(held, es)
  {
    if again == [] {
      assert es + again == es;
    } else {
      var n := |again| - 1;
      assert again[n] in Elements(again);
      assert Elements(again[..n]) <= Elements(again);
      RepeatsAddNothing(held, es, again[..n]);
      assert (es + again)[..|es| + n] == es + again[..n];
      assert (es + again)[|es| + n] == again[n];
      assert again[n] in es + again[..n];
    }
  }

  /** Releases can be made in two steps. */
  lemma {:induction false} UnheldInSteps<E, C>(held: map<E, C>, es: seq<E>, fs: seq<E>)
    ensures Unheld(held, es + fs) == Unheld(held, es) + Unheld(held - Elements(es), fs)
  {
    if fs == [] {
      assert es + fs == es;
    } else {
      var n := |fs| - 1;
      UnheldInSteps(held, es, fs[..n]);
      assert (es + fs)[..|es| + n] == es + fs[..n];
      assert (es + fs)[|es| + n] == fs[n];
      assert held - Elements(es + fs[..n]) == held - Elements(es) - Elements(fs[..n]);
    }
  }

  // ----- counting holders -----

  ghost function HoldersOf<E, C>(held: map<E, C>, c: C): set<E> {
    set e | e in held && held[e] == c
  }

  /** Each count equals the number of holders. */
  ghost predicate Agrees<E, C>(held: map<E, C>, counts: map<C, int>) {
    && (forall e :: e in held ==> held[e] in counts)
    && (forall c :: c in counts ==> counts[c] == |HoldersOf(held, c)|)
  }

  /** One release counts down by one, never from 0, and from 1 exactly at the last holder. */
  lemma ReleaseKeepsAgreement<E, C>(held: map<E, C>, counts: map<C, int>, e: E)
    requires Agrees(held, counts) && e in held
    ensures counts[held[e]] > 0
    ensures counts[held[e]] == 1 <==> LastHolder(held, e)
    ensures Agrees(held - {e}, counts[held[e] := counts[held[e]] - 1])
  {
    var holders := HoldersOf(held, held[e]);
    assert e in holders;
    if |holders| == 1 {
      assert |holders - {e}| == 0;
      forall x | x in held && held[x] == held[e] ensures x == e {
        assert x !in holders - {e};
      }
    } else {
      assert holders != {e};
      var x :| x in holders && x != e;
    }
    forall c | c in counts
      ensures HoldersOf(held - {e}, c) == if c == held[e] then HoldersOf(held, c) - {e} else HoldersOf(held, c)
    {
    }
  }
}
