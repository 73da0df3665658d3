/**
 * Order-preserving filtering, first-occurrence de-duplication, and the
 * counting dictionary that both JavaScript's `acc[k] = (acc[k] || 0) + 1`
 * and Python's `Counter` build, together with the sum of its counts.
 */
module Counting {

  predicate NoDup<K(==)>(s: seq<K>) {
    forall i, j :: 0 <= i < j < |s| ==> s[i] != s[j]
  }

  /** `a` is obtained from `b` by deleting elements, keeping the rest in order. */
  predicate IsSubsequence<T(==)>(a: seq<T>, b: seq<T>)
    decreases |b|
  {
    a == [] || (b != [] && ((a[0] == b[0] && IsSubsequence(a[1..], b[1..])) || IsSubsequence(a, b[1..])))
  }

  /** A list comprehension `[x for x in s if keep(x)]`. */
  function Filter<T>(s: seq<T>, keep: T -> bool): seq<T>
    decreases |s|
  {
    if s == [] then [] else (if keep(s[0]) then [s[0]] else []) + Filter(s[1..], keep)
  }

  lemma {:induction false} FilterKeeps<T>(s: seq<T>, keep: T -> bool)
    ensures forall i :: 0 <= i < |Filter(s, keep)| ==> keep(Filter(s, keep)[i])
    ensures |Filter(s, keep)| <= |s|
    decreases |s|
  {
    if s != [] {
      FilterKeeps(s[1..], keep);
    }
  }

  lemma {:induction false} FilterIsSubsequence<T>(s: seq<T>, keep: T -> bool)
    ensures IsSubsequence(Filter(s, keep), s)
    decreases |s|
  {
    if s != [] {
      var rest := Filter(s[1..], keep);
      FilterIsSubsequence(s[1..], keep);
      if keep(s[0]) {
        assert Filter(s, keep) == [s[0]] + rest;
        assert ([s[0]] + rest)[1..] == rest;
      } else {
        assert Filter(s, keep) == rest;
      }
    }
  }

  lemma {:induction false} FilterCounts<T>(s: seq<T>, keep: T -> bool)
    ensures forall x :: multiset(Filter(s, keep))[x] == if keep(x) then multiset(s)[x] else 0
    decreases |s|
  {
    if s != [] {
      FilterCounts(s[1..], keep);
      assert s == [s[0]] + s[1..];
      assert multiset(s) == multiset{s[0]} + multiset(s[1..]);
    }
  }

  /**
   * The comprehension keeps exactly the elements that pass, each as often as
   * it occurs, in their original order.
   */
  lemma FilterSpec<T>(s: seq<T>, keep: T -> bool)
    ensures forall i :: 0 <= i < |Filter(s, keep)| ==> keep(Filter(s, keep)[i])
    ensures IsSubsequence(Filter(s, keep), s)
    ensures forall x :: multiset(Filter(s, keep))[x] == if keep(x) then multiset(s)[x] else 0
    ensures |Filter(s, keep)| <= |s|
  {
    FilterKeeps(s, keep);
    FilterIsSubsequence(s, keep);
    FilterCounts(s, keep);
  }

  lemma {:induction false} FilterSnoc<T>(s: seq<T>, x: T, keep: T -> bool)
    ensures Filter(s + [x], keep) == Filter(s, keep) + (if keep(x) then [x] else [])
    decreases |s|
  {
    var tail := if keep(x) then [x] else [];
    if s == [] {
      assert [] + [x] == [x];
      assert Filter([x], keep) == tail + Filter([x][1..], keep);
    } else {
      var head := if keep(s[0]) then [s[0]] else [];
      assert (s + [x])[0] == s[0];
      assert (s + [x])[1..] == s[1..] + [x];
      assert Filter(s + [x], keep) == head + Filter(s[1..] + [x], keep);
      FilterSnoc(s[1..], x, keep);
      assert head + (Filter(s[1..], keep) + tail) == (head + Filter(s[1..], keep)) + tail;
    }
  }

  /** The distinct elements of `xs` in order of first occurrence (the insertion order of a dictionary). */
  function Distinct<K(==,!new)>(xs: seq<K>): (r: seq<K>)
    ensures forall k :: k in r <==> k in xs
    ensures NoDup(r)
    decreases |xs|
  {
    if xs == [] then []
    else
      var d := Distinct(xs[..|xs| - 1]);
      var x := xs[|xs| - 1];
      assert xs == xs[..|xs| - 1] + [x];
      if x in d then d else d + [x]
  }

  function Get<K(==)>(m: map<K, nat>, k: K): nat { if k in m then m[k] else 0 }

  /** The counting dictionary of `xs`, built one element at a time. */
  function Tally<K>(xs: seq<K>): map<K, nat>
    decreases |xs|
  {
    if xs == [] then map[]
    else
      var t := Tally(xs[..|xs| - 1]);
      var x := xs[|xs| - 1];
      t[x := Get(t, x) + 1]
  }

  /** The dictionary has a key for each element that occurs, mapped to its number of occurrences. */
  lemma {:induction false} TallySpec<K>(xs: seq<K>)
    ensures forall k :: k in Tally(xs) <==> k in xs
    ensures forall k :: Get(Tally(xs), k) == multiset(xs)[k]
    decreases |xs|
  {
    if xs != [] {
      var ys, x := xs[..|xs| - 1], xs[|xs| - 1];
      TallySpec(ys);
      assert xs == ys + [x];
      assert multiset(xs) == multiset(ys) + multiset{x};
    }
  }

  /** The sum of the counts of the listed keys. */
  function SumOf<K(==)>(keys: seq<K>, m: map<K, nat>): nat
    decreases |keys|
  {
    if keys == [] then 0 else Get(m, keys[0]) + SumOf(keys[1..], m)
  }

  lemma {:induction false} SumOfSnoc<K>(keys: seq<K>, k: K, m: map<K, nat>)
    ensures SumOf(keys + [k], m) == SumOf(keys, m) + Get(m, k)
    decreases |keys|
  {
    if keys == [] {
      assert [] + [k] == [k];
    } else {
      assert (keys + [k])[1..] == keys[1..] + [k];
      SumOfSnoc(keys[1..], k, m);
    }
  }

  lemma {:induction false} SumOfUpdate<K>(keys: seq<K>, m: map<K, nat>, k: K, v: nat)
    requires NoDup(keys)
    ensures k in keys ==> SumOf(keys, m[k := v]) + Get(m, k) == SumOf(keys, m) + v
    ensures k !in keys ==> SumOf(keys, m[k := v]) == SumOf(keys, m)
    decreases |keys|
  {
    if keys != [] {
      assert NoDup(keys[1..]);
      assert k in keys[1..] <==> k in keys && k != keys[0];
      SumOfUpdate(keys[1..], m, k, v);
    }
  }

  /** The counts of a tally, summed over its keys in first-occurrence order, add up to the number of elements. */
  lemma {:induction false} TallyTotal<K(!new)>(xs: seq<K>)
    ensures SumOf(Distinct(xs), Tally(xs)) == |xs|
    decreases |xs|
  {
    if xs != [] {
      var ys, x := xs[..|xs| - 1], xs[|xs| - 1];
      var d, t := Distinct(ys), Tally(ys);
      var t' := t[x := Get(t, x) + 1];
      assert Tally(xs) == t';
      TallyTotal(ys);
      TallySpec(ys);
      SumOfUpdate(d, t, x, Get(t, x) + 1);
      if x in d {
        assert Distinct(xs) == d;
      } else {
        assert Distinct(xs) == d + [x];
        assert Get(t, x) == 0;
        SumOfSnoc(d, x, t');
      }
    }
  }
}
