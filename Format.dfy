/**
 * `formatResponse`: two global regular-expression replacements that adapt a
 * model reply to Slack markup.  Each replacement is modelled as JavaScript's
 * `String.prototype.replace` runs it: try a match at each position from left
 * to right, and after a match continue right behind it.
 */
module ResponseFormat {
  import opened Wrappers
  import opened Text

  /** The characters `.` does not match: the ECMAScript line terminators. */
  predicate IsLineTerminator(c: char)
  {
    c == '\n' || c == '\r' || c == '\U{2028}' || c == '\U{2029}'
  }

  /** `**` at index `j` of `t`. */
  predicate StarsAt(t: string, j: int)
  {
    OccursAt(t, "**", j)
  }

  // The bold pattern /\*\*(.+)\*\*/ can match at the start of `t` with its
  // closing `**` at index `j`: at least one character between, none of them a
  // line terminator.
  predicate BoldClosesAt(t: string, j: int)
  {
    StarsAt(t, 0) && 3 <= j && StarsAt(t, j) && forall k :: 2 <= k < j ==> !IsLineTerminator(t[k])
  }

  /** The first line terminator at or after `from`, or the end of `t`. */
  function LineEnd(t: string, from: nat): (e: nat)
    requires from <= |t|
    decreases |t| - from
    ensures from <= e <= |t|
    ensures e < |t| ==> IsLineTerminator(t[e])
    ensures forall k :: from <= k < e ==> !IsLineTerminator(t[k])
  {
    if from == |t| || IsLineTerminator(t[from]) then from else LineEnd(t, from + 1)
  }

  /** The last `**` that starts at index 3 or later and ends by `hi`. */
  function LastStarsBefore(t: string, hi: nat): (j: Option<nat>)
    requires hi <= |t|
    ensures j.Some? ==> 3 <= j.value && j.value + 2 <= hi && StarsAt(t, j.value)
    ensures j.Some? ==> forall k :: j.value < k && k + 2 <= hi ==> !StarsAt(t, k)
    ensures j.None? ==> forall k :: 3 <= k && k + 2 <= hi ==> !StarsAt(t, k)
  {
    if hi < 5 then None
    else if StarsAt(t, hi - 2) then Some(hi - 2)
    else LastStarsBefore(t, hi - 1)
  }

  /**
   * Where the match opening at the start of `t` closes: `.+` is greedy, so
   * it is the last admissible `**` on the opening's line.
   */
  function BoldClose(t: string): (j: Option<nat>)
    requires StarsAt(t, 0)
    ensures j.Some? ==> BoldClosesAt(t, j.value)
    ensures j.Some? ==> forall k :: j.value < k ==> !BoldClosesAt(t, k)
    ensures j.None? ==> forall k :: !BoldClosesAt(t, k)
  {
    var e := LineEnd(t, 2);
    var j := LastStarsBefore(t, e);
    forall k | BoldClosesAt(t, k) ensures k + 2 <= e {
    }
    j
  }

  // s.replace(/\*\*(.+)\*\*/g, '*$1*'): each greedy `**...**` on a line
  // becomes `*...*`.
  function ReplaceBold(s: string): string
    decreases |s|
  {
    if s == [] then []
    else if StarsAt(s, 0) && BoldClose(s).Some? then
      var j := BoldClose(s).value;
      "*" + s[2..j] + "*" + ReplaceBold(s[j + 2..])
    else
      [s[0]] + ReplaceBold(s[1..])
  }

  /**
   * The bold rewrite only ever deletes asterisks: with the asterisks taken
   * out, the reply reads the same before and after.
   */
  lemma {:induction false} ReplaceBoldKeepsText(s: string)
    ensures Without(ReplaceBold(s), '*') == Without(s, '*')
    decreases |s|
  {
    if s == [] {
    } else if StarsAt(s, 0) && BoldClose(s).Some? {
      var j := BoldClose(s).value;
      ReplaceBoldKeepsText(s[j + 2..]);
      BoldStepKeepsText(s, j, ReplaceBold(s[j + 2..]));
    } else {
      ReplaceBoldKeepsText(s[1..]);
      WithoutConcat([s[0]], ReplaceBold(s[1..]), '*');
      WithoutConcat([s[0]], s[1..], '*');
      assert s == [s[0]] + s[1..];
    }
  }

  /** One bold replacement removes two asterisks and nothing else. */
  lemma BoldStepKeepsText(s: string, j: nat, rest: string)
    requires StarsAt(s, 0) && 3 <= j && StarsAt(s, j)
    requires Without(rest, '*') == Without(s[j + 2..], '*')
    ensures Without("*" + s[2..j] + "*" + rest, '*') == Without(s, '*')
  {
    var mid := s[2..j];
    assert s == s[..2] + mid + s[j..j + 2] + s[j + 2..];
    WithoutConcat(s[..2] + mid + s[j..j + 2], s[j + 2..], '*');
    WithoutConcat(s[..2] + mid, s[j..j + 2], '*');
    WithoutConcat(s[..2], mid, '*');
    WithoutConcat("*" + mid + "*", rest, '*');
    WithoutConcat("*" + mid, "*", '*');
    WithoutConcat("*", mid, '*');
  }

  /** "```" at the start of `t`. */
  predicate FenceAt(t: string)
  {
    OccursAt(t, "```", 0)
  }

  /**
   * /```([^`]+?)\n/ can match at the start of `t` with its `\n` at index
   * `k`: at least one character between, none of them a backtick.
   */
  predicate FenceClosesAt(t: string, k: int)
  {
    FenceAt(t) && 4 <= k < |t| && t[k] == '\n' && forall m :: 3 <= m < k ==> t[m] != '`'
  }

  /** Scan on from `k` for the newline that ends a lazy `[^`]+?`. */
  function FenceScan(t: string, k: nat): (r: Option<nat>)
    requires FenceAt(t) && 4 <= k <= |t|
    requires forall m :: 3 <= m < k ==> t[m] != '`'
    requires forall m :: 4 <= m < k ==> t[m] != '\n'
    decreases |t| - k
    ensures r.Some? ==> FenceClosesAt(t, r.value) && forall m :: 4 <= m < r.value ==> t[m] != '\n'
    ensures r.None? ==> forall m :: !FenceClosesAt(t, m)
  {
    if k == |t| then None
    else if t[k] == '\n' then Some(k)
    else if t[k] == '`' then None
    else FenceScan(t, k + 1)
  }

  /**
   * Where the match opening at the start of `t` ends: `[^`]+?` is lazy, so
   * it is the first admissible newline.
   */
  function FenceClose(t: string): (k: Option<nat>)
    requires FenceAt(t)
    ensures k.Some? ==> FenceClosesAt(t, k.value)
    ensures k.Some? ==> forall m :: m < k.value ==> !FenceClosesAt(t, m)
    ensures k.None? ==> forall m :: !FenceClosesAt(t, m)
  {
    if |t| < 4 || t[3] == '`' then None else FenceScan(t, 4)
  }

  /**
   * s.replace(/```([^`]+?)\n/g, '*$1*:\n```\n'): the text between an
   * opening fence and the next newline becomes an emphasised tag, and the
   * fence is re-emitted bare on the following line.
   */
  function ReplaceFence(s: string): string
    decreases |s|
  {
    if s == [] then []
    else if FenceAt(s) && FenceClose(s).Some? then
      var k := FenceClose(s).value;
      "*" + s[3..k] + "*:\n```\n" + ReplaceFence(s[k + 1..])
    else
      [s[0]] + ReplaceFence(s[1..])
  }

  /** The fence rewrite neither adds nor removes a backtick, so fences stay paired. */
  lemma {:induction false} ReplaceFenceKeepsBackticks(s: string)
    ensures Count(ReplaceFence(s), '`') == Count(s, '`')
    decreases |s|
  {
    if s == [] {
    } else if FenceAt(s) && FenceClose(s).Some? {
      var k := FenceClose(s).value;
      ReplaceFenceKeepsBackticks(s[k + 1..]);
      FenceStepKeepsBackticks(s, k, ReplaceFence(s[k + 1..]));
    } else {
      ReplaceFenceKeepsBackticks(s[1..]);
      CountConcat([s[0]], ReplaceFence(s[1..]), '`');
      CountConcat([s[0]], s[1..], '`');
      assert s == [s[0]] + s[1..];
    }
  }

  /** A tag has no backticks, so one fence replacement keeps their number. */
  lemma FenceStepKeepsBackticks(s: string, k: nat, rest: string)
    requires FenceClosesAt(s, k)
    requires Count(rest, '`') == Count(s[k + 1..], '`')
    ensures Count("*" + s[3..k] + "*:\n```\n" + rest, '`') == Count(s, '`')
  {
    FenceInputBackticks(s, k);
    FenceOutputBackticks(s[3..k], rest);
  }

  /** The matched text holds the three backticks of its fence and no other. */
  lemma FenceInputBackticks(s: string, k: nat)
    requires FenceClosesAt(s, k)
    ensures Count(s, '`') == 3 + Count(s[k + 1..], '`')
  {
    var tag := s[3..k];
    NoBackticks(tag);
    assert s == s[..3] + tag + [s[k]] + s[k + 1..];
    CountConcat(s[..3] + tag + [s[k]], s[k + 1..], '`');
    CountConcat(s[..3] + tag, [s[k]], '`');
    CountConcat(s[..3], tag, '`');
    assert s[..3] == "```" && Count("```", '`') == 3;
    assert Count([s[k]], '`') == 0;
  }

  /** The replacement for a backtick-free tag holds the three backticks of the bare fence. */
  lemma FenceOutputBackticks(tag: string, rest: string)
    requires forall m :: 0 <= m < |tag| ==> tag[m] != '`'
    ensures Count("*" + tag + "*:\n```\n" + rest, '`') == 3 + Count(rest, '`')
  {
    NoBackticks(tag);
    CountConcat("*" + tag + "*:\n```\n", rest, '`');
    CountConcat("*" + tag, "*:\n```\n", '`');
    CountConcat("*", tag, '`');
    assert Count("*", '`') == 0;
    assert Count("*:\n```\n", '`') == 3;
  }

  lemma {:induction false} NoBackticks(t: string)
    requires forall m :: 0 <= m < |t| ==> t[m] != '`'
    ensures Count(t, '`') == 0
    decreases |t|
  {
    if t != [] {
      NoBackticks(t[1..]);
    }
  }

  /** `formatResponse`: the bold rewrite, then the code-fence rewrite. */
  function FormatResponse(response: string): string
  {
    ReplaceFence(ReplaceBold(response))
  }

  /** Formatting leaves the number of backticks in a reply as it was. */
  lemma FormatKeepsBackticks(response: string)
    ensures Count(FormatResponse(response), '`') == Count(response, '`')
  {
    var bold := ReplaceBold(response);
    ReplaceBoldKeepsText(response);
    ReplaceFenceKeepsBackticks(bold);
    CountWithout(bold, '*', '`');
    CountWithout(response, '*', '`');
  }

  /** Text without `**` passes the bold rewrite unchanged. */
  lemma {:induction false} ReplaceBoldWithoutStars(s: string)
    requires !Contains(s, "**")
    ensures ReplaceBold(s) == s
    decreases |s|
  {
    if s != [] {
      assert !OccursAt(s, "**", 0);
      forall i | 0 <= i <= |s[1..]| ensures !OccursAt(s[1..], "**", i) {
        OccursShift(s, "**", 1, i);
      }
      ReplaceBoldWithoutStars(s[1..]);
    }
  }

  /** Text with no backtick passes the fence rewrite unchanged, whatever follows it. */
  lemma {:induction false} ReplaceFenceSkipsPlain(p: string, t: string)
    requires forall m :: 0 <= m < |p| ==> p[m] != '`'
    ensures ReplaceFence(p + t) == p + ReplaceFence(t)
    decreases |p|
  {
    if p == [] {
      assert p + t == t;
    } else {
      var s := p + t;
      assert s[0] == p[0];
      ReplaceFenceSkipsChar(s);
      assert s[1..] == p[1..] + t;
      ReplaceFenceSkipsPlain(p[1..], t);
      var r := ReplaceFence(t);
      assert [p[0]] + (p[1..] + r) == ([p[0]] + p[1..]) + r;
      assert [p[0]] + p[1..] == p;
    }
  }

  /** A leading character other than a backtick is copied as it is. */
  lemma ReplaceFenceSkipsChar(s: string)
    requires s != [] && s[0] != '`'
    ensures ReplaceFence(s) == [s[0]] + ReplaceFence(s[1..])
  {
    assert !FenceAt(s) by {
      assert |s| < 3 || s[0..3][0] == s[0];
    }
  }

  /** Text without a triple backtick passes the fence rewrite unchanged. */
  lemma {:induction false} ReplaceFenceWithoutFences(s: string)
    requires !Contains(s, "```")
    ensures ReplaceFence(s) == s
    decreases |s|
  {
    if s != [] {
      assert !OccursAt(s, "```", 0);
      forall i | 0 <= i <= |s[1..]| ensures !OccursAt(s[1..], "```", i) {
        OccursShift(s, "```", 1, i);
      }
      ReplaceFenceWithoutFences(s[1..]);
    }
  }

  /** A bold word becomes single-asterisk emphasis. */
  lemma BoldExample()
    ensures FormatResponse("**hi**") == "*hi*"
  {
    var s := "**hi**";
    assert StarsAt(s, 0) && StarsAt(s, 4);
    assert LineEnd(s, 2) == 6 by {
      assert LineEnd(s, 5) == 6;
      assert LineEnd(s, 4) == 6;
      assert LineEnd(s, 3) == 6;
    }
    assert BoldClose(s) == Some(4);
    assert ReplaceBold(s) == "*hi*" by {
      assert s[2..4] == "hi" && s[6..] == [];
    }
    var t := "*hi*";
    assert ReplaceFence(t) == t by {
      assert ReplaceFence(t[3..]) == "*";
      assert ReplaceFence(t[2..]) == "i*";
      assert ReplaceFence(t[1..]) == "hi*";
    }
  }

  /** A tagged fence becomes an emphasised label over a bare fence. */
  lemma FenceExample(s: string)
    requires s == "```python\ncode\n```"
    ensures FormatResponse(s) == "*python*:\n```\ncode\n```"
  {
    assert ReplaceBold(s) == s by {
      NoPair(s, '*');
      ReplaceBoldWithoutStars(s);
    }
    FenceExampleOpening(s);
    FenceExampleTail(s);
    FenceExampleSpelling(s);
  }

  lemma FenceExampleOpening(s: string)
    requires s == "```python\ncode\n```"
    ensures ReplaceFence(s) == "*" + s[3..9] + "*:\n```\n" + ReplaceFence(s[10..])
  {
    assert FenceAt(s) && FenceClosesAt(s, 9);
    assert FenceClose(s) == Some(9);
  }

  /** The closing fence has nothing after it, so it stays as it is. */
  lemma FenceExampleTail(s: string)
    requires s == "```python\ncode\n```"
    ensures ReplaceFence(s[10..]) == s[10..]
  {
    var fence := "```";
    assert s[10..] == "code\n" + fence;
    ReplaceFenceSkipsPlain("code\n", fence);
    ReplaceFenceWithoutFences(fence[1..]);
    assert FenceClose(fence) == None;
    assert fence == [fence[0]] + fence[1..];
  }

  lemma FenceExampleSpelling(s: string)
    requires s == "```python\ncode\n```"
    ensures "*" + s[3..9] + "*:\n```\n" + s[10..] == "*python*:\n```\ncode\n```"
  {
    assert s[3..9] == "python" && s[10..] == "code\n```";
  }

  /** A string with no `c` in it has no `cc` in it either. */
  lemma NoPair(s: string, c: char)
    requires forall k :: 0 <= k < |s| ==> s[k] != c
    ensures !Contains(s, [c, c])
  {
    forall i | 0 <= i <= |s| ensures !OccursAt(s, [c, c], i) {
      if i + 2 <= |s| {
        assert s[i..i + 2][0] == s[i];
      }
    }
  }
}
