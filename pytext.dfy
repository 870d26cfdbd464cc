/**
 * The pieces of Python's text handling that the commit command relies on:
 * `str.strip()` with no argument, the newline translation of a file opened
 * in text mode, and the substring test `pat in s`.
 */
module PyText {

  /**
   * `ch.isspace()`: the characters `str.strip()` removes when called without
   * argument. Among ASCII characters these are the space, the tab, the line
   * feed, the vertical tab, the form feed, the carriage return and the four
   * separators U+1C..U+1F.
   */
  function IsSpace(ch: char): (space: bool)
    ensures ch < '\U{80}' ==> (space <==> ch in " \t\n\r\U{0B}\U{0C}\U{1C}\U{1D}\U{1E}\U{1F}")
  {
    ('\t' <= ch <= '\r') || ('\U{1C}' <= ch <= ' ') || ch == '\U{85}' || ch == '\U{A0}'
    || ch == '\U{1680}' || ('\U{2000}' <= ch <= '\U{200A}') || ch == '\U{2028}' || ch == '\U{2029}'
    || ch == '\U{202F}' || ch == '\U{205F}' || ch == '\U{3000}'
  }

  /** A string with no white space at either end: what `strip()` returns. */
  predicate Stripped(s: string)
  {
    s == [] || (!IsSpace(s[0]) && !IsSpace(s[|s| - 1]))
  }

  /** `s.lstrip()`: the suffix of `s` left after removing leading white space. */
  function StripLeading(s: string): (r: string)
    ensures |r| <= |s| && r == s[|s| - |r|..]
    ensures forall k :: 0 <= k < |s| - |r| ==> IsSpace(s[k])
    ensures r == [] || !IsSpace(r[0])
  {
    if s != [] && IsSpace(s[0]) then
      var r := StripLeading(s[1..]);
      assert forall k :: 1 <= k < |s| ==> s[k] == s[1..][k - 1];
      r
    else s
  }

  /** `s.rstrip()`: the prefix of `s` left after removing trailing white space. */
  function StripTrailing(s: string): (r: string)
    ensures |r| <= |s| && r == s[..|r|]
    ensures forall k :: |r| <= k < |s| ==> IsSpace(s[k])
    ensures r == [] || !IsSpace(r[|r| - 1])
  {
    if s != [] && IsSpace(s[|s| - 1]) then
      var r := StripTrailing(s[..|s| - 1]);
      assert r == [] || !IsSpace(r[|r| - 1]);
      assert forall k :: 0 <= k < |s| - 1 ==> s[k] == s[..|s| - 1][k];
      r
    else s
  }

  /** `s.strip()`. */
  function Strip(s: string): (r: string)
    ensures Stripped(r)
    ensures |r| <= |s|
  {
    var t := StripLeading(s);
    var r := StripTrailing(t);
    assert r != [] ==> r[0] == t[0];
    r
  }

  /**
   * `r` is the slice of `s` starting at `i`, with white space only before it
   * and after it.
   */
  predicate TrimmedSliceAt(s: string, i: nat, r: string)
  {
    i + |r| <= |s| && r == s[i..i + |r|]
    && (forall k :: 0 <= k < i ==> IsSpace(s[k]))
    && (forall k :: i + |r| <= k < |s| ==> IsSpace(s[k]))
  }

  /** `StripLeading(s)` is the suffix of `s` after a white-space prefix. */
  lemma StripLeadingIsTrimmed(s: string)
    ensures TrimmedSliceAt(s, |s| - |StripLeading(s)|, StripLeading(s))
  {
  }

  /** `StripTrailing(t)` is the prefix of `t` before a white-space suffix. */
  lemma StripTrailingIsTrimmed(t: string)
    ensures TrimmedSliceAt(t, 0, StripTrailing(t))
  {
    assert StripTrailing(t) == t[0..|StripTrailing(t)|];
  }

  /**
   * A trimmed slice `r` of a suffix `t == s[i..]` that is itself a trimmed
   * slice of `s` is a trimmed slice of `s`.
   */
  lemma TrimmedOfTrimmed(s: string, i: nat, t: string, r: string)
    requires TrimmedSliceAt(s, i, t) && i + |t| == |s|
    requires TrimmedSliceAt(t, 0, r)
    ensures TrimmedSliceAt(s, i, r)
  {
    assert r == s[i..i + |r|];
    forall k | i + |r| <= k < |s| ensures IsSpace(s[k]) {
      assert s[k] == t[k - i];
    }
  }

  /**
   * `Strip(s)` is the slice of `s` between a white-space prefix and a
   * white-space suffix; together with `Stripped` this pins it down.
   */
  lemma StripIsTrimmedSlice(s: string)
    ensures TrimmedSliceAt(s, |s| - |StripLeading(s)|, Strip(s))
  {
    var t := StripLeading(s);
    StripLeadingIsTrimmed(s);
    StripTrailingIsTrimmed(t);
    TrimmedOfTrimmed(s, |s| - |t|, t, StripTrailing(t));
  }

  /** Every character of `Strip(s)` occurs in `s`. */
  lemma StripKeepsChars(s: string, ch: char)
    requires ch in Strip(s)
    ensures ch in s
  {
    StripIsTrimmedSlice(s);
    var i := |s| - |StripLeading(s)|;
    var k :| 0 <= k < |Strip(s)| && Strip(s)[k] == ch;
    assert s[i + k] == ch;
  }

  /** A string that is already stripped is left alone. */
  lemma StripOfStripped(s: string)
    requires Stripped(s)
    ensures Strip(s) == s
  {
  }

  /** `strip()` is idempotent. */
  lemma StripIdempotent(s: string)
    ensures Strip(Strip(s)) == Strip(s)
  {
    StripOfStripped(Strip(s));
  }

  /** `s` starts with a "\r\n" line end. */
  predicate StartsLineEnd(s: string)
  {
    |s| > 1 && s[0] == '\r' && s[1] == '\n'
  }

  /** A single character as a text-mode read yields it: a lone "\r" is a line end. */
  function NewlineOf(ch: char): (r: char)
    ensures r != '\r'
    ensures ch != '\r' ==> r == ch
  {
    if ch == '\r' then '\n' else ch
  }

  /**
   * What reading a file back in text mode (`open(path)` / `f.read()`, universal
   * newlines) yields for the stored characters `s`: every "\r\n" and every lone
   * "\r" becomes "\n".
   */
  function ReadText(s: string): (r: string)
    ensures '\r' !in r
    ensures |r| <= |s|
  {
    if s == [] then []
    else if StartsLineEnd(s) then "\n" + ReadText(s[2..])
    else [NewlineOf(s[0])] + ReadText(s[1..])
  }

  /** Text without carriage returns reads back unchanged. */
  lemma {:induction false} ReadTextOfPlain(s: string)
    requires '\r' !in s
    ensures ReadText(s) == s
  {
    if s != [] {
      assert s == [s[0]] + s[1..];
      ReadTextOfPlain(s[1..]);
    }
  }

  /** The translation of the two carriage-return line ends and of any other character. */
  lemma ReadTextUnits(ch: char)
    ensures ReadText("\r\n") == "\n" && ReadText("\r") == "\n"
    ensures ch != '\r' ==> ReadText([ch]) == [ch]
  {
    assert "\r\n"[2..] == [];
    assert "\r"[1..] == [];
    assert [ch][1..] == [];
  }

  /** `x + (y + z)` and `(x + y) + z` are the same string. */
  lemma ConcatAssoc(x: string, y: string, z: string)
    ensures x + (y + z) == (x + y) + z
  {
  }

  /**
   * Cutting `a + b` after `a` keeps the first unit of `a` (and whether it is a
   * "\r\n") when the cut does not split a "\r\n"; what follows that unit is
   * the rest of `a` followed by `b`.
   */
  lemma FirstUnitOfAppend(a: string, b: string, n: nat)
    requires a != []
    requires !(a[|a| - 1] == '\r' && b != [] && b[0] == '\n')
    requires n == if StartsLineEnd(a) then 2 else 1
    ensures (a + b)[0] == a[0]
    ensures StartsLineEnd(a + b) <==> StartsLineEnd(a)
    ensures (a + b)[n..] == a[n..] + b
    ensures a[n..] == [] || a[n..][|a[n..]| - 1] == a[|a| - 1]
  {
    if |a| > 1 { assert (a + b)[1] == a[1]; }
  }

  /**
   * A text-mode read works piece by piece: text cut anywhere except inside a
   * "\r\n" reads as its two parts read apart. Cutting every text into single
   * characters and "\r\n" pairs, `ReadTextUnits` then gives the read of
   * each piece, so together they determine `ReadText` on every text.
   */
  lemma {:induction false} ReadTextAppend(a: string, b: string)
    requires !(a != [] && a[|a| - 1] == '\r' && b != [] && b[0] == '\n')
    ensures ReadText(a + b) == ReadText(a) + ReadText(b)
  {
    if a == [] {
      assert a + b == b;
    } else {
      var n := if StartsLineEnd(a) then 2 else 1;
      FirstUnitOfAppend(a, b, n);
      ReadTextAppend(a[n..], b);
      ConcatAssoc([if n == 2 then '\n' else NewlineOf(a[0])], ReadText(a[n..]), ReadText(b));
    }
  }

  /** `pat` occurs in `s` starting at index `i`. */
  predicate OccursAt(s: string, pat: string, i: nat)
  {
    i + |pat| <= |s| && s[i..i + |pat|] == pat
  }

  /** `pat in s` for strings: `pat` occurs in `s` at some position. */
  function Contains(s: string, pat: string): (found: bool)
    ensures found <==> exists i: nat :: OccursAt(s, pat, i)
  {
    if |pat| > |s| then false
    else if OccursAt(s, pat, 0) then true
    else
      var rest := Contains(s[1..], pat);
      assert rest <==> exists i: nat :: OccursAt(s, pat, i) by {
        forall i: nat | i + |pat| <= |s| - 1
          ensures OccursAt(s[1..], pat, i) <==> OccursAt(s, pat, i + 1)
        {
          assert s[1..][i..i + |pat|] == s[i + 1..i + 1 + |pat|];
        }
        forall i: nat | 0 < i && OccursAt(s, pat, i) ensures OccursAt(s[1..], pat, i - 1) {
          assert s[1..][i - 1..i - 1 + |pat|] == s[i..i + |pat|];
        }
      }
      rest
  }
}
