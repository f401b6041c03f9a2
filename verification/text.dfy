/** The JavaScript string primitives the application relies on:
    `String.prototype.trim`, truthiness of strings, and prefix/suffix tests. */
module JsText {

  /** The characters `trim` removes: ECMAScript WhiteSpace (tab, vertical tab,
      form feed, space, no-break space, byte-order mark and the Zs category)
      and LineTerminator (LF, CR, line and paragraph separators). */
  const NarrowSpaces: seq<char> := [' ', '\n', '\t', '\r', '\U{000B}', '\U{000C}']
  const WideSpaces: seq<char> := [
    '\U{00A0}', '\U{1680}',
    '\U{2000}', '\U{2001}', '\U{2002}', '\U{2003}', '\U{2004}', '\U{2005}',
    '\U{2006}', '\U{2007}', '\U{2008}', '\U{2009}', '\U{200A}',
    '\U{2028}', '\U{2029}', '\U{202F}', '\U{205F}', '\U{3000}', '\U{FEFF}'
  ]

  predicate IsJsSpace(c: char) {
    if c <= ' ' then Listed(c, NarrowSpaces) else '\U{00A0}' <= c && Listed(c, WideSpaces)
  }

  predicate Listed(c: char, cs: seq<char>) {
    |cs| > 0 && (cs[0] == c || Listed(c, cs[1..]))
  }

  /** No visible ASCII character is whitespace. */
  lemma {:induction false} PrintableIsNotSpace(c: char)
    requires '!' <= c <= '~'
    ensures !IsJsSpace(c)
  {
  }

  /** Line feed and space are whitespace. */
  lemma {:induction false} NewlineAndSpaceAreSpace()
    ensures IsJsSpace('\n') && IsJsSpace(' ')
  {
    assert NarrowSpaces[0] == ' ';
    assert NarrowSpaces[1..][0] == '\n';
  }

  predicate StartsWith(s: string, prefix: string) {
    |prefix| <= |s| && s[..|prefix|] == prefix
  }

  predicate EndsWith(s: string, suffix: string) {
    |suffix| <= |s| && s[|s| - |suffix|..] == suffix
  }

  /** `sub` occurs in `s` starting at index `i`. */
  predicate OccursAt(s: string, sub: string, i: int) {
    0 <= i && i + |sub| <= |s| && s[i..i + |sub|] == sub
  }

  /** JavaScript truthiness of a string: only the empty string is falsy. */
  predicate Truthy(s: string) {
    s != ""
  }

  /** Every character of `s` is in the class `p`. */
  predicate All(p: char -> bool, s: string) {
    forall i :: 0 <= i < |s| ==> p(s[i])
  }

  /** `s` neither begins nor ends with a character of the class `p`. */
  predicate Trimmed(p: char -> bool, s: string) {
    |s| == 0 || (!p(s[0]) && !p(s[|s| - 1]))
  }

  /** The length of the run of `p` characters `s` starts with. */
  function LeadingRun(p: char -> bool, s: string): (n: nat)
    ensures n <= |s|
    decreases |s|
  {
    if |s| > 0 && p(s[0]) then LeadingRun(p, s[1..]) + 1 else 0
  }

  /** The length of the run of `p` characters `s` ends with. */
  function TrailingRun(p: char -> bool, s: string): (n: nat)
    ensures n <= |s|
    decreases |s|
  {
    if |s| > 0 && p(s[|s| - 1]) then TrailingRun(p, s[..|s| - 1]) + 1 else 0
  }

  /** The leading run is in the class and is followed by a character
      outside it, or by the end. */
  lemma {:induction false} LeadingRunFacts(p: char -> bool, s: string)
    ensures var n := LeadingRun(p, s);
      && (forall j :: 0 <= j < n ==> p(s[j]))
      && (n < |s| ==> !p(s[n]))
    decreases |s|
  {
    if |s| > 0 && p(s[0]) {
      LeadingRunFacts(p, s[1..]);
      var n := LeadingRun(p, s[1..]);
      assert forall j :: 1 <= j < n + 1 ==> s[j] == s[1..][j - 1];
      assert n < |s[1..]| ==> s[n + 1] == s[1..][n];
    }
  }

  /** The trailing run is in the class and is preceded by a character
      outside it, or by the start. */
  lemma {:induction false} TrailingRunFacts(p: char -> bool, s: string)
    ensures var n := TrailingRun(p, s);
      && (forall j :: |s| - n <= j < |s| ==> p(s[j]))
      && (n < |s| ==> !p(s[|s| - 1 - n]))
    decreases |s|
  {
    if |s| > 0 && p(s[|s| - 1]) {
      var init := s[..|s| - 1];
      TrailingRunFacts(p, init);
      var n := TrailingRun(p, init);
      assert forall j :: |s| - 1 - n <= j < |s| - 1 ==> s[j] == init[j];
      assert n < |init| ==> s[|s| - 2 - n] == init[|init| - 1 - n];
    }
  }

  /** The leading run is the only prefix in the class that is followed by
      a character outside it or by the end. */
  lemma {:induction false} LeadingRunUnique(p: char -> bool, s: string, n: nat)
    requires n <= |s| && (forall j :: 0 <= j < n ==> p(s[j]))
    requires n < |s| ==> !p(s[n])
    ensures LeadingRun(p, s) == n
  {
    LeadingRunFacts(p, s);
  }

  /** Likewise for the trailing run. */
  lemma {:induction false} TrailingRunUnique(p: char -> bool, s: string, n: nat)
    requires n <= |s| && (forall j :: |s| - n <= j < |s| ==> p(s[j]))
    requires n < |s| ==> !p(s[|s| - 1 - n])
    ensures TrailingRun(p, s) == n
  {
    TrailingRunFacts(p, s);
  }

  /** `s` with both runs of `p` characters removed; a string made only of
      such characters becomes empty. */
  function TrimBy(p: char -> bool, s: string): (r: string)
    ensures Trimmed(p, r)
    ensures LeadingRun(p, s) + |r| <= |s| && r == s[LeadingRun(p, s)..LeadingRun(p, s) + |r|]
    ensures r == "" <==> LeadingRun(p, s) == |s|
  {
    var a := LeadingRun(p, s);
    if a == |s| then ""
    else
      var b := TrailingRun(p, s);
      LeadingRunFacts(p, s);
      TrailingRunFacts(p, s);
      assert a < |s| - b by {
        assert !p(s[a]);
      }
      s[a..|s| - b]
  }

  /** Away from the blank case, `TrimBy` cuts exactly the two runs. */
  lemma {:induction false} TrimByRuns(p: char -> bool, s: string)
    requires LeadingRun(p, s) < |s|
    ensures LeadingRun(p, s) < |s| - TrailingRun(p, s)
    ensures TrimBy(p, s) == s[LeadingRun(p, s)..|s| - TrailingRun(p, s)]
  {
    LeadingRunFacts(p, s);
    TrailingRunFacts(p, s);
    assert !p(s[LeadingRun(p, s)]);
  }

  /** Only characters of the class lie outside the trimmed slice. */
  lemma {:induction false} TrimByDropsOnly(p: char -> bool, s: string)
    ensures var a, r := LeadingRun(p, s), TrimBy(p, s);
      a + |r| <= |s| && All(p, s[..a]) && All(p, s[a + |r|..])
  {
    var a, r := LeadingRun(p, s), TrimBy(p, s);
    LeadingRunFacts(p, s);
    TrailingRunFacts(p, s);
    if r != "" {
      var b := TrailingRun(p, s);
      TrimByRuns(p, s);
      var tail := s[a + |r|..];
      forall j | 0 <= j < |tail| ensures p(tail[j]) {
        assert tail[j] == s[|s| - b + j];
      }
    }
  }

  /** A string is its trim with a run of trimmed characters on each side:
      the leading run before it and the rest after it. */
  lemma {:induction false} TrimBySplits(p: char -> bool, s: string)
    ensures var a, r := LeadingRun(p, s), TrimBy(p, s);
      && a + |r| <= |s| && All(p, s[..a]) && All(p, s[a + |r|..])
      && s == s[..a] + r + s[a + |r|..]
  {
    var a, r := LeadingRun(p, s), TrimBy(p, s);
    TrimByDropsOnly(p, s);
    assert s == s[..a] + s[a..a + |r|] + s[a + |r|..];
  }

  /** Trimming changes nothing exactly when there is nothing to trim. */
  lemma {:induction false} TrimByFixesTrimmed(p: char -> bool, s: string)
    ensures TrimBy(p, s) == s <==> Trimmed(p, s)
  {
    if Trimmed(p, s) && |s| > 0 {
      LeadingRunUnique(p, s, 0);
      TrailingRunUnique(p, s, 0);
    }
  }

  /** A string trims to nothing exactly when all of it is in the class. */
  lemma {:induction false} TrimByEmptyIffAll(p: char -> bool, s: string)
    ensures TrimBy(p, s) == "" <==> All(p, s)
  {
    LeadingRunFacts(p, s);
    if All(p, s) {
      LeadingRunUnique(p, s, |s|);
    }
  }

  /** Trimming a string framed by runs of the class trims its middle. */
  lemma {:induction false} TrimByFrame(p: char -> bool, pre: string, mid: string, post: string)
    requires All(p, pre) && All(p, post)
    ensures TrimBy(p, pre + mid + post) == TrimBy(p, mid)
  {
    if LeadingRun(p, mid) == |mid| {
      BlankFrame(p, pre, mid, post);
    } else {
      ContentFrame(p, pre, mid, post);
    }
  }

  lemma {:induction false} BlankFrame(p: char -> bool, pre: string, mid: string, post: string)
    requires All(p, pre) && All(p, post) && LeadingRun(p, mid) == |mid|
    ensures TrimBy(p, pre + mid + post) == ""
  {
    var x := pre + mid + post;
    LeadingRunFacts(p, mid);
    forall j | 0 <= j < |x| ensures p(x[j]) {
      if j < |pre| {
        assert x[j] == pre[j];
      } else if j < |pre| + |mid| {
        assert x[j] == mid[j - |pre|];
      } else {
        assert x[j] == post[j - |pre| - |mid|];
      }
    }
    LeadingRunUnique(p, x, |x|);
  }

  lemma {:induction false} ContentFrame(p: char -> bool, pre: string, mid: string, post: string)
    requires All(p, pre) && All(p, post) && LeadingRun(p, mid) < |mid|
    ensures TrimBy(p, pre + mid + post) == TrimBy(p, mid)
  {
    var x := pre + mid + post;
    var a, b := LeadingRun(p, mid), TrailingRun(p, mid);
    TrimByRuns(p, mid);
    FrameLeading(p, pre, mid, post);
    FrameTrailing(p, pre, mid, post);
    TrimByRuns(p, x);
    MiddleSlice(pre, mid, post, a, |mid| - b);
  }

  lemma {:induction false} FrameLeading(p: char -> bool, pre: string, mid: string, post: string)
    requires All(p, pre) && LeadingRun(p, mid) < |mid|
    ensures LeadingRun(p, pre + mid + post) == |pre| + LeadingRun(p, mid)
  {
    var x, a := pre + mid + post, LeadingRun(p, mid);
    LeadingRunFacts(p, mid);
    forall j | 0 <= j < |pre| + a ensures p(x[j]) {
      if j < |pre| {
        assert x[j] == pre[j];
      } else {
        assert x[j] == mid[j - |pre|];
      }
    }
    assert x[|pre| + a] == mid[a];
    LeadingRunUnique(p, x, |pre| + a);
  }

  lemma {:induction false} FrameTrailing(p: char -> bool, pre: string, mid: string, post: string)
    requires All(p, post) && TrailingRun(p, mid) < |mid|
    ensures TrailingRun(p, pre + mid + post) == |post| + TrailingRun(p, mid)
  {
    var x, b := pre + mid + post, TrailingRun(p, mid);
    TrailingRunFacts(p, mid);
    forall j | |x| - |post| - b <= j < |x| ensures p(x[j]) {
      if j < |pre| + |mid| {
        assert x[j] == mid[j - |pre|];
      } else {
        assert x[j] == post[j - |pre| - |mid|];
      }
    }
    assert x[|x| - 1 - (|post| + b)] == mid[|mid| - 1 - b];
    TrailingRunUnique(p, x, |post| + b);
  }

  lemma {:induction false} MiddleSlice(pre: string, mid: string, post: string, i: nat, j: nat)
    requires i <= j <= |mid|
    ensures (pre + mid + post)[|pre| + i..|pre| + j] == mid[i..j]
  {
    var x := pre + mid + post;
    assert forall k :: |pre| + i <= k < |pre| + j ==> x[k] == mid[k - |pre|];
  }

  // String.prototype.trim, with the ECMAScript whitespace class.

  /** Every character of `s` is removed by `trim`. */
  predicate AllSpace(s: string) {
    All(IsJsSpace, s)
  }

  /** `s` neither begins nor ends with a character `trim` would remove. */
  predicate IsTrimmed(s: string) {
    Trimmed(IsJsSpace, s)
  }

  /** The number of whitespace characters `s` starts with. */
  function LeadingSpace(s: string): (n: nat)
    ensures n <= |s|
  {
    LeadingRun(IsJsSpace, s)
  }

  /** `String.prototype.trim`: whitespace removed from both ends; a string
      of whitespace only becomes empty. */
  function Trim(s: string): (r: string)
    ensures IsTrimmed(r)
    ensures |r| <= |s|
  {
    TrimBy(IsJsSpace, s)
  }

  /** A string whose trimmed form is empty, the `!x.trim()` test. */
  predicate IsBlank(s: string) {
    Trim(s) == ""
  }

  /** The trimmed string is the slice of `s` that starts after its leading
      whitespace. */
  lemma {:induction false} TrimIsSlice(s: string)
    ensures var a, r := LeadingSpace(s), Trim(s); a + |r| <= |s| && r == s[a..a + |r|]
  {
  }

  /** Only whitespace lies outside the trimmed slice. */
  lemma {:induction false} TrimDropsOnlySpace(s: string)
    ensures var a, r := LeadingSpace(s), Trim(s);
      a + |r| <= |s| && AllSpace(s[..a]) && AllSpace(s[a + |r|..])
  {
    TrimByDropsOnly(IsJsSpace, s);
  }

  /** A string is its trim with whitespace before and after it. */
  lemma {:induction false} TrimSplits(s: string)
    ensures exists pre, post :: AllSpace(pre) && AllSpace(post) && s == pre + Trim(s) + post
  {
    var a, r := LeadingSpace(s), Trim(s);
    TrimBySplits(IsJsSpace, s);
    assert AllSpace(s[..a]) && AllSpace(s[a + |r|..]) && s == s[..a] + r + s[a + |r|..];
  }

  /** Trimming changes nothing exactly when the string is already trimmed. */
  lemma {:induction false} TrimFixesTrimmed(s: string)
    ensures Trim(s) == s <==> IsTrimmed(s)
  {
    TrimByFixesTrimmed(IsJsSpace, s);
  }

  /** `trim` is idempotent. */
  lemma {:induction false} TrimIdempotent(s: string)
    ensures Trim(Trim(s)) == Trim(s)
  {
    TrimFixesTrimmed(Trim(s));
  }

  /** A string is blank exactly when every character of it is whitespace. */
  lemma {:induction false} BlankIffAllSpace(s: string)
    ensures IsBlank(s) <==> AllSpace(s)
  {
    TrimByEmptyIffAll(IsJsSpace, s);
  }

  /** `trim` of a string framed by whitespace is the trim of its middle. */
  lemma {:induction false} TrimDropsSpaceFrame(pre: string, mid: string, post: string)
    requires AllSpace(pre) && AllSpace(post)
    ensures Trim(pre + mid + post) == Trim(mid)
  {
    TrimByFrame(IsJsSpace, pre, mid, post);
  }
}
