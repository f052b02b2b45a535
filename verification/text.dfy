/**
 The three Python string operations the business-unit parser is built from:
 `str.strip()` (no argument), `str.split(sep)` with a one-character separator
 and `sep.join(parts)`. Strings are sequences of Unicode scalar values:
 Python 3 `str` holds code points, which are these with lone surrogates aside.
 */
module Text {

  /** The characters for which Python's `str.isspace()` holds; these are the
      characters `str.strip()` removes when called without an argument. */
  predicate IsWhitespace(c: char) {
    || c == '\t' || c == '\n' || c == '\U{0B}' || c == '\U{0C}' || c == '\r'
    || c == '\U{1C}' || c == '\U{1D}' || c == '\U{1E}' || c == '\U{1F}'
    || c == ' ' || c == '\U{85}' || c == '\U{A0}' || c == '\U{1680}'
    || ('\U{2000}' <= c <= '\U{200A}')
    || c == '\U{2028}' || c == '\U{2029}' || c == '\U{202F}' || c == '\U{205F}'
    || c == '\U{3000}'
  }

  predicate AllWhitespace(s: string) {
    forall i :: 0 <= i < |s| ==> IsWhitespace(s[i])
  }

  /** Neither starts nor ends with whitespace (vacuously true of ""). */
  predicate IsStripped(s: string) {
    |s| == 0 || (!IsWhitespace(s[0]) && !IsWhitespace(s[|s| - 1]))
  }

  /** The first index at or after `i` that does not hold whitespace, or `|s|`. */
  function SkipForward(s: string, i: nat): (n: nat)
    requires i <= |s|
    ensures i <= n <= |s|
    ensures forall k :: i <= k < n ==> IsWhitespace(s[k])
    ensures n < |s| ==> !IsWhitespace(s[n])
    decreases |s| - i
  {
    if i < |s| && IsWhitespace(s[i]) then SkipForward(s, i + 1) else i
  }

  /** The end of the last non-whitespace character of `s[lo..j]`, or `lo`. */
  function SkipBackward(s: string, lo: nat, j: nat): (n: nat)
    requires lo <= j <= |s|
    ensures lo <= n <= j
    ensures forall k :: n <= k < j ==> IsWhitespace(s[k])
    ensures n > lo ==> !IsWhitespace(s[n - 1])
    decreases j - lo
  {
    if j > lo && IsWhitespace(s[j - 1]) then SkipBackward(s, lo, j - 1) else j
  }

  /** Python `s.strip()`: `s` with its leading and trailing whitespace removed.
      What is left is a contiguous slice of `s` with only whitespace on either
      side of it, and is itself stripped. */
  function Strip(s: string): (r: string)
    ensures IsStripped(r)
    ensures var i := SkipForward(s, 0);
            i + |r| <= |s| && r == s[i..i + |r|]
            && AllWhitespace(s[..i]) && AllWhitespace(s[i + |r|..])
  {
    var i := SkipForward(s, 0);
    var j := SkipBackward(s, i, |s|);
    assert AllWhitespace(s[..i]) by {
      forall k | 0 <= k < i ensures IsWhitespace(s[..i][k]) {
        assert s[..i][k] == s[k];
      }
    }
    assert AllWhitespace(s[j..]) by {
      forall k | 0 <= k < |s| - j ensures IsWhitespace(s[j..][k]) {
        assert s[j..][k] == s[j + k];
      }
    }
    s[i..j]
  }

  lemma {:induction false} SkipForwardIs(s: string, i: nat, n: nat)
    requires i <= n <= |s|
    requires forall k :: i <= k < n ==> IsWhitespace(s[k])
    requires n < |s| ==> !IsWhitespace(s[n])
    ensures SkipForward(s, i) == n
    decreases n - i
  {
    if i < n {
      SkipForwardIs(s, i + 1, n);
    }
  }

  lemma {:induction false} SkipBackwardIs(s: string, lo: nat, j: nat, n: nat)
    requires lo <= n <= j <= |s|
    requires forall k :: n <= k < j ==> IsWhitespace(s[k])
    requires n > lo ==> !IsWhitespace(s[n - 1])
    ensures SkipBackward(s, lo, j) == n
    decreases j - n
  {
    if n < j {
      SkipBackwardIs(s, lo, j - 1, n);
    }
  }

  /** `Strip` is determined by what it must do: a non-empty stripped string
      between two runs of whitespace is what stripping the whole gives. */
  lemma StripUnique(a: string, r: string, b: string)
    requires AllWhitespace(a) && AllWhitespace(b)
    requires r != "" && IsStripped(r)
    ensures Strip(a + r + b) == r
  {
    var s := a + r + b;
    var i, j := |a|, |a| + |r|;
    assert s[i] == r[0];
    SkipForwardIs(s, 0, i);
    assert s[j - 1] == r[|r| - 1];
    forall k | j <= k < |s| ensures IsWhitespace(s[k]) {
      assert s[k] == b[k - j];
    }
    SkipBackwardIs(s, i, |s|, j);
    assert s[i..j] == r;
  }

  /** A string of whitespace strips to nothing, and only such a string does. */
  lemma StripEmpty(s: string)
    ensures Strip(s) == "" <==> AllWhitespace(s)
  {
    if AllWhitespace(s) {
      SkipForwardIs(s, 0, |s|);
    }
    if Strip(s) == "" {
      var i := SkipForward(s, 0);
      forall k | 0 <= k < |s| ensures IsWhitespace(s[k]) {
        assert s[k] == s[..i][k];
      }
    }
  }

  /** Every character of `Strip(s)` occurs in `s`. */
  lemma StripChars(s: string, c: char)
    requires c in Strip(s)
    ensures c in s
  {
    var r := Strip(s);
    var i := SkipForward(s, 0);
    var k :| 0 <= k < |r| && r[k] == c;
    assert s[i + k] == c;
  }

  /** A string that is already stripped is left alone by `Strip`. */
  lemma StripStripped(s: string)
    requires IsStripped(s)
    ensures Strip(s) == s
  {
    if s != "" {
      StripUnique("", s, "");
      assert "" + s + "" == s;
    } else {
      StripEmpty(s);
    }
  }

  /** `Strip(s)` splits `s` into leading whitespace, itself, and trailing whitespace. */
  lemma StripSplits(s: string) returns (a: string, b: string)
    ensures AllWhitespace(a) && AllWhitespace(b)
    ensures s == a + Strip(s) + b
  {
    var r := Strip(s);
    var i := SkipForward(s, 0);
    a, b := s[..i], s[i + |r|..];
    assert s == s[..i] + s[i..i + |r|] + s[i + |r|..];
  }

  /** Two runs of whitespace make one. */
  lemma WhitespaceConcat(a: string, b: string)
    requires AllWhitespace(a) && AllWhitespace(b)
    ensures AllWhitespace(a + b)
  {
    forall k | 0 <= k < |a + b| ensures IsWhitespace((a + b)[k]) {
      if k < |a| { assert (a + b)[k] == a[k]; } else { assert (a + b)[k] == b[k - |a|]; }
    }
  }

  /** Whitespace in front of a string does not change what `Strip` leaves. */
  lemma StripWhitespacePrefix(c: char, s: string)
    requires IsWhitespace(c)
    ensures Strip([c] + s) == Strip(s)
  {
    var r := Strip(s);
    var a, b := StripSplits(s);
    assert AllWhitespace([c]);
    if r == "" {
      StripEmpty(s);
      WhitespaceConcat([c], s);
      StripEmpty([c] + s);
    } else {
      WhitespaceConcat([c], a);
      assert [c] + s == ([c] + a) + r + b;
      StripUnique([c] + a, r, b);
    }
  }

  /** Whitespace at the end of a string does not change what `Strip` leaves. */
  lemma StripWhitespaceSuffix(s: string, c: char)
    requires IsWhitespace(c)
    ensures Strip(s + [c]) == Strip(s)
  {
    var r := Strip(s);
    var a, b := StripSplits(s);
    assert AllWhitespace([c]);
    if r == "" {
      StripEmpty(s);
      WhitespaceConcat(s, [c]);
      StripEmpty(s + [c]);
    } else {
      WhitespaceConcat(b, [c]);
      assert s + [c] == a + r + (b + [c]);
      StripUnique(a, r, b + [c]);
    }
  }

  /** Python `sep.join(parts)`. */
  function Join(parts: seq<string>, sep: char): (r: string)
    ensures |parts| == 0 ==> r == ""
    ensures |parts| >= 1 ==> parts[0] <= r
    decreases |parts|
  {
    if |parts| == 0 then ""
    else if |parts| == 1 then parts[0]
    else parts[0] + [sep] + Join(parts[1..], sep)
  }

  /** Joining separator-free parts: the separator shows up exactly when there
      are two parts or more, and the text ends with the last part. */
  lemma {:induction false} JoinShape(parts: seq<string>, sep: char)
    requires forall i :: 0 <= i < |parts| ==> sep !in parts[i]
    ensures sep in Join(parts, sep) <==> |parts| >= 2
    ensures |parts| >= 1 ==>
              var last, r := parts[|parts| - 1], Join(parts, sep);
              |last| <= |r| && r[|r| - |last|..] == last
    decreases |parts|
  {
    if |parts| >= 2 {
      JoinShape(parts[1..], sep);
      var r := Join(parts, sep);
      assert r == parts[0] + [sep] + Join(parts[1..], sep);
      assert r[|parts[0]|] == sep;
      assert parts[1..][|parts| - 2] == parts[|parts| - 1];
    }
  }

  /** Python `s.split(sep)` for a one-character separator: the maximal
      separator-free pieces of `s`, at least one, which `Join` glues back into `s`. */
  function Split(s: string, sep: char): (r: seq<string>)
    ensures |r| >= 1
    ensures forall i :: 0 <= i < |r| ==> sep !in r[i]
    ensures Join(r, sep) == s
    decreases |s|
  {
    if |s| == 0 then [""]
    else if s[0] == sep then
      var t := Split(s[1..], sep);
      assert Join([""] + t, sep) == [sep] + Join(t, sep) by {
        assert ([""] + t)[1..] == t;
      }
      [""] + t
    else
      var t := Split(s[1..], sep);
      var r := [[s[0]] + t[0]] + t[1..];
      assert Join(r, sep) == [s[0]] + Join(t, sep) by {
        if |t| > 1 {
          assert r[1..] == t[1..];
        }
      }
      r
  }

  /** Splitting a separator-free string gives it back whole. */
  lemma {:induction false} SplitNoSeparator(s: string, sep: char)
    requires sep !in s
    ensures Split(s, sep) == [s]
    decreases |s|
  {
    if |s| > 0 {
      SplitNoSeparator(s[1..], sep);
    }
  }

  /** Splitting at the first separator: a separator-free head, then the rest. */
  lemma {:induction false} SplitAtSeparator(a: string, sep: char, b: string)
    requires sep !in a
    ensures Split(a + [sep] + b, sep) == [a] + Split(b, sep)
    decreases |a|
  {
    var s := a + [sep] + b;
    if |a| == 0 {
      assert s[1..] == b;
    } else {
      assert s[1..] == a[1..] + [sep] + b;
      SplitAtSeparator(a[1..], sep, b);
      assert [a[0]] + a[1..] == a;
    }
  }

  /** Round trip: `split` undoes `join` when no part contains the separator. */
  lemma {:induction false} SplitJoin(parts: seq<string>, sep: char)
    requires |parts| >= 1
    requires forall i :: 0 <= i < |parts| ==> sep !in parts[i]
    ensures Split(Join(parts, sep), sep) == parts
    decreases |parts|
  {
    if |parts| == 1 {
      SplitNoSeparator(parts[0], sep);
    } else {
      SplitJoin(parts[1..], sep);
      SplitAtSeparator(parts[0], sep, Join(parts[1..], sep));
      assert [parts[0]] + parts[1..] == parts;
    }
  }

  /** Splitting `s + [c]`: a separator opens a new empty last piece, any other
      character extends the last piece. */
  lemma {:induction false} SplitAppend(s: string, sep: char, c: char)
    ensures var t := Split(s, sep);
            Split(s + [c], sep) ==
              if c == sep then t + [""]
              else t[..|t| - 1] + [t[|t| - 1] + [c]]
    decreases |s|
  {
    var t := Split(s, sep);
    if |s| == 0 {
      if c == sep {
        assert Split([c], sep) == [""] + Split([c][1..], sep);
      } else {
        assert Split([c], sep) == [[c] + Split([c][1..], sep)[0]];
      }
    } else {
      var u, v := Split(s[1..], sep), Split(s[1..] + [c], sep);
      assert (s + [c])[0] == s[0] && (s + [c])[1..] == s[1..] + [c];
      SplitAppend(s[1..], sep, c);
      if s[0] == sep {
        assert t == [""] + u && Split(s + [c], sep) == [""] + v;
      } else {
        assert t == [[s[0]] + u[0]] + u[1..];
        assert Split(s + [c], sep) == [[s[0]] + v[0]] + v[1..];
      }
    }
  }
}
