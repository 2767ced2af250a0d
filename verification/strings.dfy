/**
 * The Python string operations the core relies on: `str.split` on a
 * one-character separator (all splits, and `maxsplit=1`), `sep.join`,
 * `str.strip()` and the ordering of `str` values.
 */
module Strings {

  function IndexOf(s: string, c: char): (i: nat)
    requires c in s
    ensures i < |s| && s[i] == c && c !in s[..i]
  {
    if s[0] == c then 0 else 1 + IndexOf(s[1..], c)
  }

  /** `sep.join(pieces)`. */
  function Join(pieces: seq<string>, sep: char): string
  {
    if |pieces| == 0 then ""
    else if |pieces| == 1 then pieces[0]
    else pieces[0] + [sep] + Join(pieces[1..], sep)
  }

  /** `s.split(sep)`: the pieces between separators; never empty. */
  function Split(s: string, sep: char): (r: seq<string>)
    ensures |r| >= 1
    ensures forall k :: 0 <= k < |r| ==> sep !in r[k]
    decreases |s|
  {
    if sep !in s then [s]
    else
      var i := IndexOf(s, sep);
      [s[..i]] + Split(s[i + 1..], sep)
  }

  /** Joining the pieces of a split gives the text back. */
  lemma {:induction false} JoinSplit(s: string, sep: char)
    ensures Join(Split(s, sep), sep) == s
    decreases |s|
  {
    if sep in s {
      var i := IndexOf(s, sep);
      var rest := Split(s[i + 1..], sep);
      JoinSplit(s[i + 1..], sep);
      assert Split(s, sep) == [s[..i]] + rest;
      assert s == s[..i] + [sep] + s[i + 1..];
    }
  }

  /** Splitting a joined list of separator-free pieces gives the pieces back. */
  lemma {:induction false} SplitJoin(pieces: seq<string>, sep: char)
    requires |pieces| >= 1
    requires forall k :: 0 <= k < |pieces| ==> sep !in pieces[k]
    ensures Split(Join(pieces, sep), sep) == pieces
  {
    if |pieces| > 1 {
      var s := Join(pieces, sep);
      var rest := Join(pieces[1..], sep);
      assert s == pieces[0] + [sep] + rest;
      assert sep in s by { assert s[|pieces[0]|] == sep; }
      var i := IndexOf(s, sep);
      assert i == |pieces[0]| by {
        assert s[..|pieces[0]|] == pieces[0];
      }
      assert s[..i] == pieces[0];
      assert s[i + 1..] == rest;
      SplitJoin(pieces[1..], sep);
    }
  }

  /** Joining two or more pieces, or one non-empty piece, gives non-empty text. */
  lemma JoinNonEmpty(pieces: seq<string>, sep: char)
    requires pieces != [] && (|pieces| == 1 ==> pieces[0] != "")
    ensures Join(pieces, sep) != ""
  {
    if |pieces| > 1 {
      assert |Join(pieces, sep)| >= |pieces[0] + [sep]|;
    }
  }

  /** `s.split(sep, maxsplit=1)`: one piece when `sep` is absent, else the text around its first occurrence. */
  function SplitOnce(s: string, sep: char): (r: seq<string>)
    ensures 1 <= |r| <= 2
    ensures sep !in r[0]
    ensures |r| == 1 <==> sep !in s
    ensures |r| == 1 ==> r[0] == s
    ensures |r| == 2 ==> s == r[0] + [sep] + r[1]
  {
    if sep !in s then [s]
    else
      var i := IndexOf(s, sep);
      assert s == s[..i] + [sep] + s[i + 1..];
      [s[..i], s[i + 1..]]
  }

  /** Text joined around the first occurrence of `sep` splits back into the same two parts. */
  lemma SplitOnceAround(a: string, b: string, sep: char)
    requires sep !in a
    ensures SplitOnce(a + [sep] + b, sep) == [a, b]
  {
    var s := a + [sep] + b;
    assert s[|a|] == sep;
    var r := SplitOnce(s, sep);
    assert r[0] == s[..|a|] == a;
    assert r[1] == s[|a| + 1..] == b;
  }

  /** The last piece closes the joined text. */
  lemma {:induction false} JoinEndsWithLast(pieces: seq<string>, sep: char)
    requires |pieces| >= 1
    ensures var j := Join(pieces, sep); var last := pieces[|pieces| - 1];
      |last| <= |j| && j[|j| - |last|..] == last
  {
    if |pieces| > 1 {
      JoinEndsWithLast(pieces[1..], sep);
    }
  }

  /** Text ending in `sep` splits with an empty last piece. */
  lemma {:induction false} SplitTrailing(t: string, sep: char)
    requires |t| > 0 && t[|t| - 1] == sep
    ensures var r := Split(t, sep); r[|r| - 1] == ""
    decreases |t|
  {
    assert sep in t;
    var u := t[IndexOf(t, sep) + 1..];
    assert Split(t, sep) == [t[..IndexOf(t, sep)]] + Split(u, sep);
    if u == [] {
      assert Split(u, sep) == [""];
    } else {
      assert u[|u| - 1] == sep;
      SplitTrailing(u, sep);
    }
  }

  /** Python's `str.isspace` on one character (the ASCII and Latin-1 white space). */
  predicate IsSpace(c: char)
  {
    c == ' ' || c == '\t' || c == '\n' || c == '\r' || c == '\U{000B}' || c == '\U{000C}'
    || c == '\U{001C}' || c == '\U{001D}' || c == '\U{001E}' || c == '\U{001F}'
    || c == '\U{0085}' || c == '\U{00A0}'
  }

  function StripStart(s: string): (r: string)
    ensures |r| <= |s| && r == s[|s| - |r|..]
    ensures r == [] || !IsSpace(r[0])
    ensures forall k :: 0 <= k < |s| - |r| ==> IsSpace(s[k])
  {
    if s != [] && IsSpace(s[0]) then StripStart(s[1..]) else s
  }

  function StripEnd(s: string): (r: string)
    ensures |r| <= |s| && r == s[..|r|]
    ensures r == [] || !IsSpace(r[|r| - 1])
    ensures forall k :: |r| <= k < |s| ==> IsSpace(s[k])
  {
    if s != [] && IsSpace(s[|s| - 1]) then StripEnd(s[..|s| - 1]) else s
  }

  /** `s.strip()`: `s` without its leading and trailing white space. */
  function Strip(s: string): (r: string)
    ensures |r| <= |s|
    ensures r == [] || (!IsSpace(r[0]) && !IsSpace(r[|r| - 1]))
    ensures exists i, j :: TrimmedTo(s, i, j, r)
  {
    TrimSlice(s, StripStart(s), StripEnd(StripStart(s)));
    StripEnd(StripStart(s))
  }

  /**
   * White space, then `t`; and `t` is `r`, then white space: so `r` is a
   * slice of `s` with only white space around it.
   */
  lemma TrimSlice(s: string, t: string, r: string)
    requires |t| <= |s| && t == s[|s| - |t|..] && (forall k :: 0 <= k < |s| - |t| ==> IsSpace(s[k]))
    requires |r| <= |t| && r == t[..|r|] && (forall k :: |r| <= k < |t| ==> IsSpace(t[k]))
    ensures TrimmedTo(s, |s| - |t|, |s| - |t| + |r|, r)
  {
    var i := |s| - |t|;
    forall k | i + |r| <= k < |s| ensures IsSpace(s[k]) {
      assert s[k] == t[k - i];
    }
  }

  /** `r` is `s[i..j]`, and only white space lies outside `i..j`. */
  predicate TrimmedTo(s: string, i: int, j: int, r: string)
  {
    && 0 <= i <= j <= |s| && r == s[i..j]
    && (forall k :: 0 <= k < i ==> IsSpace(s[k]))
    && (forall k :: j <= k < |s| ==> IsSpace(s[k]))
  }

  /** `a < b` on Python strings: code points compared left to right, a proper prefix first. */
  predicate StrLess(a: string, b: string)
  {
    if b == [] then false
    else if a == [] then true
    else if a[0] != b[0] then a[0] < b[0]
    else StrLess(a[1..], b[1..])
  }

  lemma {:induction false} StrLessIrreflexive(a: string)
    ensures !StrLess(a, a)
  {
    if a != [] {
      StrLessIrreflexive(a[1..]);
    }
  }

  lemma {:induction false} StrLessTransitive(a: string, b: string, c: string)
    requires StrLess(a, b) && StrLess(b, c)
    ensures StrLess(a, c)
  {
    if a != [] && a[0] == b[0] && b[0] == c[0] {
      StrLessTransitive(a[1..], b[1..], c[1..]);
    }
  }

  lemma {:induction false} StrLessTotal(a: string, b: string)
    requires a != b
    ensures StrLess(a, b) || StrLess(b, a)
  {
    if a != [] && b != [] && a[0] == b[0] {
      assert a == [a[0]] + a[1..] && b == [b[0]] + b[1..];
      StrLessTotal(a[1..], b[1..]);
    }
  }
}
