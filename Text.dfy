/**
 * The JavaScript string operations the bot relies on: `indexOf`, `includes`,
 * `split` with a non-empty separator, `trim`, and two counting helpers used to
 * state what the formatter preserves.  Strings are sequences of characters.
 */
module Text {
  import opened Wrappers

  /** `pat` occurs in `s` starting at index `i`. */
  predicate OccursAt(s: string, pat: string, i: int)
  {
    0 <= i && i + |pat| <= |s| && s[i..i + |pat|] == pat
  }

  /** `s.includes(pat)`. */
  predicate Contains(s: string, pat: string)
  {
    exists i | 0 <= i <= |s| :: OccursAt(s, pat, i)
  }

  /** An occurrence in a suffix is an occurrence in the whole string, shifted. */
  lemma OccursShift(s: string, pat: string, d: nat, k: int)
    requires d <= |s|
    ensures OccursAt(s[d..], pat, k) <==> 0 <= k && OccursAt(s, pat, d + k)
  {
    if 0 <= k && d + k + |pat| <= |s| {
      assert s[d..][k..k + |pat|] == s[d + k..d + k + |pat|];
    }
  }

  /** `s.indexOf(pat, from)`: the first occurrence of `pat` at or after `from`. */
  function IndexOf(s: string, pat: string, from: nat): (r: Option<nat>)
    decreases |s| - from
    ensures r.Some? ==> from <= r.value && OccursAt(s, pat, r.value)
    ensures r.Some? ==> forall k :: from <= k < r.value ==> !OccursAt(s, pat, k)
    ensures r.None? ==> forall k :: from <= k ==> !OccursAt(s, pat, k)
  {
    if from + |pat| > |s| then None
    else if s[from..from + |pat|] == pat then Some(from)
    else IndexOf(s, pat, from + 1)
  }

  /** `includes` holds exactly when `indexOf` finds something. */
  lemma ContainsIndexOf(s: string, pat: string)
    ensures Contains(s, pat) <==> IndexOf(s, pat, 0).Some?
  {
    var r := IndexOf(s, pat, 0);
    if r.Some? {
      assert OccursAt(s, pat, r.value);
    }
  }

  /** `pieces.join(sep)`. */
  function Join(pieces: seq<string>, sep: string): string
  {
    if pieces == [] then ""
    else if |pieces| == 1 then pieces[0]
    else pieces[0] + sep + Join(pieces[1..], sep)
  }

  /**
   * `s.split(sep)` for a non-empty separator: the pieces between the
   * non-overlapping occurrences of `sep`, found left to right.
   */
  function Split(s: string, sep: string): (pieces: seq<string>)
    requires |sep| > 0
    decreases |s|
    ensures |pieces| >= 1
  {
    match IndexOf(s, sep, 0)
    case None => [s]
    case Some(i) => [s[..i]] + Split(s[i + |sep|..], sep)
  }

  /** Joining the pieces with the separator gives back the string. */
  lemma {:induction false} SplitJoin(s: string, sep: string)
    requires |sep| > 0
    ensures Join(Split(s, sep), sep) == s
    decreases |s|
  {
    match IndexOf(s, sep, 0)
    case None =>
    case Some(i) =>
      var tail := s[i + |sep|..];
      var pieces := Split(s, sep);
      assert pieces[0] == s[..i] && pieces[1..] == Split(tail, sep);
      assert Join(pieces, sep) == s[..i] + sep + Join(Split(tail, sep), sep);
      SplitJoin(tail, sep);
      assert s[..i] + sep + tail == s by {
        assert s[i..i + |sep|] == sep;
        assert s == s[..i] + s[i..i + |sep|] + tail;
      }
  }

  /** `split` cuts the string exactly when the separator occurs in it. */
  lemma SplitCuts(s: string, sep: string)
    requires |sep| > 0
    ensures |Split(s, sep)| >= 2 <==> Contains(s, sep)
  {
    ContainsIndexOf(s, sep);
  }

  /** Every piece `split` returns is free of the separator. */
  lemma {:induction false} SplitPiecesLackSeparator(s: string, sep: string, k: nat)
    requires |sep| > 0 && k < |Split(s, sep)|
    ensures !Contains(Split(s, sep)[k], sep)
    decreases |s|
  {
    var pieces := Split(s, sep);
    match IndexOf(s, sep, 0)
    case None =>
      assert pieces == [s];
    case Some(i) =>
      var tail := Split(s[i + |sep|..], sep);
      assert pieces == [s[..i]] + tail;
      if k == 0 {
        assert pieces[0] == s[..i];
        forall j | 0 <= j <= i
          ensures !OccursAt(s[..i], sep, j)
        {
          OccursInPrefix(s, sep, i, j);
        }
      } else {
        assert pieces[k] == tail[k - 1];
        SplitPiecesLackSeparator(s[i + |sep|..], sep, k - 1);
      }
  }

  /** With its first occurrence at `first`, the second piece is the first piece of what follows it. */
  lemma SplitSecondPiece(s: string, sep: string, first: nat)
    requires |sep| > 0 && IndexOf(s, sep, 0) == Some(first)
    ensures |Split(s, sep)| >= 2 && Split(s, sep)[1] == Split(s[first + |sep|..], sep)[0]
  {
    var tail := Split(s[first + |sep|..], sep);
    SplitUnfold(s, sep, first);
    assert ([s[..first]] + tail)[1] == tail[0];
  }

  /** One step of `split`: the text before the first occurrence, then the pieces of the rest. */
  lemma SplitUnfold(s: string, sep: string, first: nat)
    requires |sep| > 0 && IndexOf(s, sep, 0) == Some(first)
    ensures Split(s, sep) == [s[..first]] + Split(s[first + |sep|..], sep)
  {
    match IndexOf(s, sep, 0)
    case Some(i) =>
      assert i == first;
  }

  /** The first piece of `split` runs up to the first occurrence, or to the end. */
  lemma FirstPieceEnd(s: string, sep: string) returns (end: nat)
    requires |sep| > 0
    ensures end <= |s| && Split(s, sep)[0] == s[..end]
    ensures end == |s| || OccursAt(s, sep, end)
    ensures forall k :: 0 <= k < end ==> !OccursAt(s, sep, k)
  {
    match IndexOf(s, sep, 0)
    case None =>
      end := |s|;
    case Some(i) =>
      end := i;
  }

  /** An occurrence inside a prefix of `s` is an occurrence in `s`. */
  lemma OccursInPrefix(s: string, pat: string, n: nat, j: int)
    requires n <= |s|
    ensures OccursAt(s[..n], pat, j) ==> OccursAt(s, pat, j) && j + |pat| <= n
  {
    if OccursAt(s[..n], pat, j) {
      assert s[..n][j..j + |pat|] == s[j..j + |pat|];
    }
  }

  /**
   * The characters `trim` removes: the ECMAScript WhiteSpace characters (tab,
   * vertical tab, form feed, space, no-break space, byte order mark and the
   * Unicode space separators) and the LineTerminator characters.
   */
  predicate IsJsSpace(c: char)
  {
    || c == '\t' || c == '\n' || c == '\U{B}' || c == '\U{C}' || c == '\r' || c == ' '
    || c == '\U{A0}' || c == '\U{1680}' || ('\U{2000}' <= c <= '\U{200A}')
    || c == '\U{2028}' || c == '\U{2029}' || c == '\U{202F}' || c == '\U{205F}'
    || c == '\U{3000}' || c == '\U{FEFF}'
  }

  /** `s` with its leading white space removed. */
  function TrimStart(s: string): (r: string)
    decreases |s|
    ensures |r| <= |s| && r == s[|s| - |r|..]
    ensures forall k :: 0 <= k < |s| - |r| ==> IsJsSpace(s[k])
    ensures r == [] || !IsJsSpace(r[0])
  {
    if s != [] && IsJsSpace(s[0]) then TrimStart(s[1..]) else s
  }

  /** `s` with its trailing white space removed. */
  function TrimEnd(s: string): (r: string)
    decreases |s|
    ensures |r| <= |s| && r == s[..|r|]
    ensures forall k :: |r| <= k < |s| ==> IsJsSpace(s[k])
    ensures r == [] || !IsJsSpace(r[|r| - 1])
  {
    if s != [] && IsJsSpace(s[|s| - 1]) then TrimEnd(s[..|s| - 1]) else s
  }

  /**
   * `s.trim()`: the longest infix of `s` that neither starts nor ends with
   * white space, found by removing white space from both ends.
   */
  function Trim(s: string): (r: string)
    ensures r == [] || (!IsJsSpace(r[0]) && !IsJsSpace(r[|r| - 1]))
    ensures r == [] <==> forall k :: 0 <= k < |s| ==> IsJsSpace(s[k])
  {
    var t := TrimStart(s);
    var r := TrimEnd(t);
    assert r != [] ==> r[0] == t[0];
    assert r == [] ==> t == [];
    r
  }

  /** Every character of `s` is white space. */
  predicate AllSpace(s: string)
    decreases |s|
  {
    s == [] || (IsJsSpace(s[0]) && AllSpace(s[1..]))
  }

  /** `s.trim()` is empty exactly when `s` is all white space. */
  lemma {:induction false} AllSpaceIffTrimEmpty(s: string)
    ensures AllSpace(s) <==> Trim(s) == ""
    decreases |s|
  {
    if s != [] {
      AllSpaceIffTrimEmpty(s[1..]);
      assert forall k :: 1 <= k < |s| ==> s[k] == s[1..][k - 1];
    }
  }

  /** `trim` keeps a contiguous part of `s` and removes only white space around it. */
  lemma TrimIsInfix(s: string) returns (start: nat)
    ensures start + |Trim(s)| <= |s| && Trim(s) == s[start..start + |Trim(s)|]
    ensures forall k :: 0 <= k < start ==> IsJsSpace(s[k])
    ensures forall k :: start + |Trim(s)| <= k < |s| ==> IsJsSpace(s[k])
  {
    var t := TrimStart(s);
    start := |s| - |t|;
    var r := TrimEnd(t);
    assert Trim(s) == r;
    KeptPrefixOfSuffix(s, t, r);
  }

  /** A prefix `r` of a suffix `t` of `s`, followed in `t` by white space only, sits in `s` before white space only. */
  lemma KeptPrefixOfSuffix(s: string, t: string, r: string)
    requires |t| <= |s| && t == s[|s| - |t|..]
    requires |r| <= |t| && r == t[..|r|]
    requires forall k :: |r| <= k < |t| ==> IsJsSpace(t[k])
    ensures r == s[|s| - |t|..|s| - |t| + |r|]
    ensures forall k :: |s| - |t| + |r| <= k < |s| ==> IsJsSpace(s[k])
  {
    var start := |s| - |t|;
    forall k | start + |r| <= k < |s| ensures IsJsSpace(s[k]) {
      assert s[k] == t[k - start];
    }
  }

  /** The number of occurrences of `c` in `s`. */
  function Count(s: string, c: char): nat
    decreases |s|
  {
    if s == [] then 0 else (if s[0] == c then 1 else 0) + Count(s[1..], c)
  }

  /** `s` with every occurrence of `c` removed. */
  function Without(s: string, c: char): string
    decreases |s|
  {
    if s == [] then [] else (if s[0] == c then [] else [s[0]]) + Without(s[1..], c)
  }

  lemma {:induction false} CountConcat(a: string, b: string, c: char)
    ensures Count(a + b, c) == Count(a, c) + Count(b, c)
    decreases |a|
  {
    if a == [] {
      assert a + b == b;
    } else {
      assert (a + b)[1..] == a[1..] + b;
      CountConcat(a[1..], b, c);
    }
  }

  lemma {:induction false} WithoutConcat(a: string, b: string, c: char)
    ensures Without(a + b, c) == Without(a, c) + Without(b, c)
    decreases |a|
  {
    if a == [] {
      assert a + b == b;
    } else {
      assert (a + b)[1..] == a[1..] + b;
      WithoutConcat(a[1..], b, c);
    }
  }

  /** Removing one character does not change how often another occurs. */
  lemma {:induction false} CountWithout(s: string, c: char, d: char)
    requires c != d
    ensures Count(Without(s, c), d) == Count(s, d)
    decreases |s|
  {
    if s != [] {
      var head: string := if s[0] == c then [] else [s[0]];
      CountConcat(head, Without(s[1..], c), d);
      CountWithout(s[1..], c, d);
    }
  }
}
