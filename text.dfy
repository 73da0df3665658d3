/**
 * String helpers shared by the dashboard, the keyword analysis and the
 * content formatter: ASCII lower-casing, prefix and substring tests,
 * splitting on one character, Python's whitespace split, joining with a
 * separator, and JavaScript's first-occurrence `replace`.
 */
module Text {

  function Min(a: int, b: int): int { if a <= b then a else b }

  /** One character lower-cased; only the ASCII letters change. */
  function LowerChar(c: char): char {
    if 'A' <= c <= 'Z' then (c as int + 32) as char else c
  }

  predicate IsLowerChar(c: char) { !('A' <= c <= 'Z') }

  predicate IsLower(s: string) { forall i :: 0 <= i < |s| ==> IsLowerChar(s[i]) }

  /** `toLowerCase()` / `lower()` on the ASCII range. */
  function Lower(s: string): (r: string)
    ensures |r| == |s|
    ensures forall i {:trigger r[i]} :: 0 <= i < |s| ==> r[i] == LowerChar(s[i])
    decreases |s|
  {
    if s == [] then [] else [LowerChar(s[0])] + Lower(s[1..])
  }

  /** Lower-casing yields lower-case text and leaves lower-case text alone. */
  lemma LowerIsLower(s: string)
    ensures IsLower(Lower(s))
    ensures IsLower(s) ==> Lower(s) == s
  {
  }

  /** `s.includes(t)`: `t` occurs in `s` at some position. */
  predicate Includes(s: string, t: string)
    decreases |s|
  {
    t <= s || (|s| > 0 && Includes(s[1..], t))
  }

  lemma {:induction false} IncludesAt(s: string, t: string)
    ensures Includes(s, t) <==> exists i :: 0 <= i <= |s| && t <= s[i..]
    decreases |s|
  {
    if |s| > 0 {
      IncludesAt(s[1..], t);
      if Includes(s, t) {
        if t <= s {
          assert s[0..] == s;
        } else {
          var i :| 0 <= i <= |s[1..]| && t <= s[1..][i..];
          assert s[1..][i..] == s[i + 1..];
        }
      }
      if exists i :: 0 <= i <= |s| && t <= s[i..] {
        var i :| 0 <= i <= |s| && t <= s[i..];
        if i > 0 {
          assert s[1..][i - 1..] == s[i..];
          assert Includes(s[1..], t);
        } else {
          assert s[0..] == s;
        }
      }
    } else {
      assert forall i :: 0 <= i <= |s| ==> s[i..] == s;
    }
  }

  /** The parts joined with `sep` between consecutive parts (`sep.join(parts)`). */
  function Join(parts: seq<string>, sep: string): string
    decreases |parts|
  {
    if |parts| == 0 then "" else if |parts| == 1 then parts[0]
    else parts[0] + sep + Join(parts[1..], sep)
  }

  /** Occurrences of `c` in `s`. */
  function Count(s: string, c: char): nat { multiset(s)[c] }

  /** `s.split(c)` with a one-character separator, as JavaScript splits. */
  function SplitOn(s: string, c: char): (r: seq<string>)
    ensures |r| == Count(s, c) + 1
    ensures forall i :: 0 <= i < |r| ==> c !in r[i]
    decreases |s|
  {
    if s == [] then [""]
    else
      var rest := SplitOn(s[1..], c);
      CountCons(s, c);
      if s[0] == c then [""] + rest
      else
        MergeHeadFree(s[0], rest, c);
        [[s[0]] + rest[0]] + rest[1..]
  }

  /** Joining the parts with the separator gives back the text. */
  lemma {:induction false} SplitOnJoin(s: string, c: char)
    ensures Join(SplitOn(s, c), [c]) == s
    decreases |s|
  {
    if s != [] {
      SplitOnJoin(s[1..], c);
      if s[0] == c {
        SplitOnSeparator(s, c);
      } else {
        SplitOnOther(s, c);
      }
      HeadTail(s);
    }
  }

  lemma HeadTail<T>(s: seq<T>)
    requires s != []
    ensures s == [s[0]] + s[1..]
  {
  }

  /** A leading separator closes an empty first part. */
  lemma SplitOnSeparator(s: string, c: char)
    requires s != [] && s[0] == c
    ensures Join(SplitOn(s, c), [c]) == [c] + Join(SplitOn(s[1..], c), [c])
  {
    var rest := SplitOn(s[1..], c);
    assert SplitOn(s, c) == [""] + rest;
    JoinEmptyHead(rest, [c]);
  }

  /** Any other leading character starts the first part. */
  lemma SplitOnOther(s: string, c: char)
    requires s != [] && s[0] != c
    ensures Join(SplitOn(s, c), [c]) == [s[0]] + Join(SplitOn(s[1..], c), [c])
  {
    var rest := SplitOn(s[1..], c);
    assert SplitOn(s, c) == [[s[0]] + rest[0]] + rest[1..];
    JoinMergeHead(s[0], rest, [c]);
  }

  lemma JoinEmptyHead(rest: seq<string>, sep: string)
    requires |rest| >= 1
    ensures Join([""] + rest, sep) == sep + Join(rest, sep)
  {
    assert ([""] + rest)[1..] == rest;
  }

  lemma CountCons(s: string, c: char)
    requires s != []
    ensures Count(s, c) == (if s[0] == c then 1 else 0) + Count(s[1..], c)
  {
    assert s == [s[0]] + s[1..];
  }

  lemma MergeHeadFree(a: char, rest: seq<string>, c: char)
    requires |rest| >= 1 && a != c
    requires forall i :: 0 <= i < |rest| ==> c !in rest[i]
    ensures forall i :: 0 <= i < |rest| ==> c !in ([[a] + rest[0]] + rest[1..])[i]
  {
    forall i | 0 <= i < |rest| ensures c !in ([[a] + rest[0]] + rest[1..])[i] {
      if i > 0 {
        assert ([[a] + rest[0]] + rest[1..])[i] == rest[i];
      }
    }
  }

  lemma JoinMergeHead(a: char, rest: seq<string>, sep: string)
    requires |rest| >= 1
    ensures Join([[a] + rest[0]] + rest[1..], sep) == [a] + Join(rest, sep)
  {
    var r := [[a] + rest[0]] + rest[1..];
    assert r[1..] == rest[1..];
  }

  /** Python's whitespace characters in the ASCII range. */
  predicate IsSpace(c: char) {
    c == ' ' || 9 <= c as int <= 13 || 28 <= c as int <= 31
  }

  predicate IsWord(w: string) { w != [] && forall i :: 0 <= i < |w| ==> !IsSpace(w[i]) }

  /** Length of the run of non-space characters that begins `s`. */
  function LeadLen(s: string): (n: nat)
    ensures n <= |s|
    ensures forall i :: 0 <= i < n ==> !IsSpace(s[i])
    ensures n == |s| || IsSpace(s[n])
    decreases |s|
  {
    if s == [] || IsSpace(s[0]) then 0 else 1 + LeadLen(s[1..])
  }

  /** `s.split()` with no argument: the maximal runs of non-space characters. */
  function Words(s: string): (r: seq<string>)
    ensures forall i :: 0 <= i < |r| ==> IsWord(r[i])
    decreases |s|
  {
    if s == [] then []
    else if IsSpace(s[0]) then Words(s[1..])
    else
      var n := LeadLen(s);
      [s[..n]] + Words(s[n..])
  }

  lemma {:induction false} LeadLenOfWord(w: string, t: string)
    requires forall i :: 0 <= i < |w| ==> !IsSpace(w[i])
    requires t == [] || IsSpace(t[0])
    ensures LeadLen(w + t) == |w|
    decreases |w|
  {
    if w != [] {
      assert (w + t)[1..] == w[1..] + t;
      LeadLenOfWord(w[1..], t);
    }
  }

  /** A word followed by nothing or by a space is split off as the first word. */
  lemma WordsCons(w: string, t: string)
    requires IsWord(w)
    requires t == [] || IsSpace(t[0])
    ensures Words(w + t) == [w] + Words(t)
  {
    LeadLenOfWord(w, t);
    var s := w + t;
    assert s[0] == w[0];
    assert s[..|w|] == w && s[|w|..] == t;
  }

  /** A run of non-space characters ends where it ended in `a` when `a` is followed by nothing or a space. */
  lemma {:induction false} LeadLenBefore(a: string, t: string)
    requires t == [] || IsSpace(t[0])
    ensures LeadLen(a + t) == LeadLen(a)
    decreases |a|
  {
    if a != [] {
      assert (a + t)[0] == a[0];
      assert (a + t)[1..] == a[1..] + t;
      LeadLenBefore(a[1..], t);
    }
  }

  /** Text made only of spaces has no words. */
  lemma {:induction false} WordsOfSpaces(s: string)
    requires forall i :: 0 <= i < |s| ==> IsSpace(s[i])
    ensures Words(s) == []
    decreases |s|
  {
    if s != [] {
      WordsOfSpaces(s[1..]);
    }
  }

  /** A single word is split as itself. */
  lemma WordsOfWord(w: string)
    requires IsWord(w)
    ensures Words(w) == [w]
  {
    WordsCons(w, "");
    assert w + "" == w;
  }

  /**
   * Any whitespace character separates: text cut at one splits as its two
   * sides. With `WordsOfSpaces` and `WordsOfWord` this fixes `Words` on every
   * text, whatever runs of whitespace it holds.
   */
  lemma {:induction false} WordsSplitAt(a: string, c: char, b: string)
    requires IsSpace(c)
    ensures Words(a + [c] + b) == Words(a) + Words(b)
    decreases |a|
  {
    var s := a + [c] + b;
    if a == [] {
      assert s == [c] + b;
      assert s[1..] == b;
    } else if IsSpace(a[0]) {
      assert s[0] == a[0];
      assert s[1..] == a[1..] + [c] + b;
      WordsSplitAt(a[1..], c, b);
    } else {
      LeadLenBefore(a, [c] + b);
      assert s == a + ([c] + b);
      var n := LeadLen(a);
      assert s[0] == a[0];
      assert Words(s) == [s[..n]] + Words(s[n..]);
      assert s[..n] == a[..n];
      assert s[n..] == a[n..] + [c] + b;
      WordsSplitAt(a[n..], c, b);
    }
  }

  /** Splitting words joined by single spaces gives the words back. */
  lemma {:induction false} WordsOfJoin(ws: seq<string>)
    requires forall i :: 0 <= i < |ws| ==> IsWord(ws[i])
    ensures Words(Join(ws, " ")) == ws
    decreases |ws|
  {
    if |ws| == 1 {
      WordsCons(ws[0], "");
      assert ws[0] + "" == ws[0];
    } else if |ws| > 1 {
      var w, rest := ws[0], Join(ws[1..], " ");
      assert Join(ws, " ") == w + (" " + rest);
      WordsCons(w, " " + rest);
      assert (" " + rest)[1..] == rest;
      WordsOfJoin(ws[1..]);
      assert ws == [w] + ws[1..];
    }
  }

  /** JavaScript's `s.replace(pat, rep)` with a string pattern: only the first occurrence. */
  function ReplaceFirst(s: string, pat: string, rep: string): string
    decreases |s|
  {
    if pat <= s then rep + s[|pat|..]
    else if s == [] then s
    else [s[0]] + ReplaceFirst(s[1..], pat, rep)
  }
}
