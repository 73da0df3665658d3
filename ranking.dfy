/**
 * Ranking: a stable sort in non-increasing order of a numeric key, followed
 * by taking the first `n` entries. It models both
 * `arr.sort((a, b) => key(b) - key(a)).slice(0, n)` (JavaScript's sort is
 * stable) and `Counter.most_common(n)`, which uses `heapq.nlargest` when
 * `n` is given and keeps first-insertion order among equal counts.
 */
module Ranking {
  import opened Text

  predicate SortedDesc<T>(s: seq<T>, key: T -> real) {
    forall i, j :: 0 <= i < j < |s| ==> key(s[i]) >= key(s[j])
  }

  /** Inserts `x` in front of the first entry whose key is not larger, so earlier equal entries stay first. */
  function Insert<T(==)>(x: T, s: seq<T>, key: T -> real): (r: seq<T>)
    requires SortedDesc(s, key)
    ensures SortedDesc(r, key)
    ensures multiset(r) == multiset(s) + multiset{x}
    decreases |s|
  {
    if s == [] || key(s[0]) <= key(x) then
      InsertFront(x, s, key);
      [x] + s
    else
      var rest := Insert(x, s[1..], key);
      assert s == [s[0]] + s[1..];
      InsertBehind(x, s, key, rest);
      [s[0]] + rest
  }

  lemma InsertFront<T>(x: T, s: seq<T>, key: T -> real)
    requires SortedDesc(s, key)
    requires s == [] || key(s[0]) <= key(x)
    ensures SortedDesc([x] + s, key)
  {
    forall i, j | 0 <= i < j < |[x] + s| ensures key(([x] + s)[i]) >= key(([x] + s)[j]) {
      assert ([x] + s)[j] == s[j - 1];
      if i > 0 {
        assert ([x] + s)[i] == s[i - 1];
      }
    }
  }

  lemma InsertBehind<T>(x: T, s: seq<T>, key: T -> real, rest: seq<T>)
    requires SortedDesc(s, key) && s != [] && key(x) < key(s[0])
    requires SortedDesc(rest, key) && multiset(rest) == multiset(s[1..]) + multiset{x}
    ensures SortedDesc([s[0]] + rest, key)
  {
    var t := [s[0]] + rest;
    forall k | 0 <= k < |rest| ensures key(s[0]) >= key(rest[k]) {
      assert rest[k] in multiset(rest);
      if rest[k] != x {
        assert rest[k] in multiset(s[1..]);
        var m :| 0 <= m < |s[1..]| && s[1..][m] == rest[k];
        assert s[m + 1] == rest[k];
      }
    }
    forall i, j | 0 <= i < j < |t| ensures key(t[i]) >= key(t[j]) {
      assert t[j] == rest[j - 1];
      if i > 0 {
        assert t[i] == rest[i - 1];
      }
    }
  }

  /** The entries of `s`, stably sorted by non-increasing key. */
  function SortDesc<T(==)>(s: seq<T>, key: T -> real): (r: seq<T>)
    ensures SortedDesc(r, key)
    ensures multiset(r) == multiset(s)
    ensures |r| == |s|
    decreases |s|
  {
    if s == [] then []
    else
      assert s == [s[0]] + s[1..];
      Insert(s[0], SortDesc(s[1..], key), key)
  }

  /** The first `n` entries, or all of them when there are fewer. */
  function Top<T>(s: seq<T>, n: nat): seq<T> {
    s[..Min(n, |s|)]
  }

  /** Whatever a prefix of a sorted list leaves behind has no larger key than what it keeps. */
  lemma PrefixDominates<T>(t: seq<T>, key: T -> real, m: nat)
    requires SortedDesc(t, key) && m <= |t|
    ensures forall x, i :: x in multiset(t) - multiset(t[..m]) && 0 <= i < m ==> key(x) <= key(t[i])
  {
    var r, rest := t[..m], t[m..];
    assert t == r + rest;
    assert multiset(t) == multiset(r) + multiset(rest);
    forall x, i | x in multiset(t) - multiset(r) && 0 <= i < m
      ensures key(x) <= key(t[i])
    {
      assert x in multiset(rest);
      var j :| 0 <= j < |rest| && rest[j] == x;
      assert t[m + j] == x;
    }
  }

  lemma PrefixMultiset<T>(t: seq<T>, m: nat)
    requires m <= |t|
    ensures multiset(t[..m]) <= multiset(t)
  {
    assert t == t[..m] + t[m..];
  }

  /** A prefix of a sorted list is sorted. */
  lemma PrefixSorted<T>(t: seq<T>, key: T -> real, m: nat)
    requires SortedDesc(t, key) && m <= |t|
    ensures SortedDesc(t[..m], key)
  {
    var r := t[..m];
    forall i, j | 0 <= i < j < |r| ensures key(r[i]) >= key(r[j]) {
      assert r[i] == t[i] && r[j] == t[j];
    }
  }

  /**
   * The first `n` entries of the sorted list are sorted, are drawn from the
   * input, number `min(n, |s|)`, and no entry left out has a larger key than
   * any entry kept.
   */
  lemma TopOfSorted<T>(s: seq<T>, key: T -> real, n: nat)
    ensures |Top(SortDesc(s, key), n)| == Min(n, |s|)
    ensures SortedDesc(Top(SortDesc(s, key), n), key)
    ensures multiset(Top(SortDesc(s, key), n)) <= multiset(s)
    ensures forall x, i ::
              x in multiset(s) - multiset(Top(SortDesc(s, key), n)) && 0 <= i < |Top(SortDesc(s, key), n)|
              ==> key(x) <= key(Top(SortDesc(s, key), n)[i])
  {
    var t := SortDesc(s, key);
    PrefixMultiset(t, Min(n, |s|));
    PrefixSorted(t, key, Min(n, |s|));
    PrefixDominates(t, key, Min(n, |s|));
  }

  /** The same facts stated with sequence membership instead of multiplicities. */
  lemma TopMembers<T>(s: seq<T>, key: T -> real, n: nat, r: seq<T>)
    requires r == Top(SortDesc(s, key), n)
    ensures forall y :: y in r ==> y in s
    ensures forall x, y :: x in s && x !in r && y in r ==> key(x) <= key(y)
  {
    TopOfSorted(s, key, n);
    forall y | y in r ensures y in s {
      assert y in multiset(r);
    }
    forall x, y | x in s && x !in r && y in r ensures key(x) <= key(y) {
      assert x in multiset(s);
      assert x !in multiset(r);
      assert x in multiset(s) - multiset(r);
      var i :| 0 <= i < |r| && r[i] == y;
    }
  }
}
