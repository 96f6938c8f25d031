/** The Kotlin standard-library string operations the core relies on:
    `Char.isWhitespace`, `trim`, `isBlank`, `uppercase` (ASCII part), `lines`,
    `trimIndent`, `joinToString`, `take` and `Int.toString`. */
module Text {
  import opened Wrappers

  // ---------------------------------------------------------------------------
  // Whitespace, blank strings and trimming
  // ---------------------------------------------------------------------------

  /** `Char.isWhitespace()` on the JVM: `Character.isWhitespace(c) || Character.isSpaceChar(c)`,
      that is the ASCII controls TAB..CR and FS..US plus every Unicode space, line and
      paragraph separator (the no-break spaces included). */
  predicate IsWhitespace(c: char) {
    || ('\t' <= c <= '\r')
    || ('\U{001C}' <= c <= '\U{001F}')
    || c == ' ' || c == '\U{00A0}' || c == '\U{1680}'
    || ('\U{2000}' <= c <= '\U{200A}')
    || c == '\U{2028}' || c == '\U{2029}' || c == '\U{202F}' || c == '\U{205F}' || c == '\U{3000}'
  }

  /** `CharSequence.isBlank()`: empty or whitespace only. */
  predicate IsBlank(s: string) {
    forall i :: 0 <= i < |s| ==> IsWhitespace(s[i])
  }

  /** The first non-whitespace position at or after `i`, or `|s|` (where `trim()` starts). */
  function BlankRunEnd(s: string, i: nat): (j: nat)
    requires i <= |s|
    ensures i <= j <= |s|
    ensures forall k :: i <= k < j ==> IsWhitespace(s[k])
    ensures j < |s| ==> !IsWhitespace(s[j])
    decreases |s| - i
  {
    if i < |s| && IsWhitespace(s[i]) then BlankRunEnd(s, i + 1) else i
  }

  /** Where the whitespace run ending at `j` starts, not going below `lo` (where `trim()`
      stops). */
  function BlankRunStart(s: string, lo: nat, j: nat): (i: nat)
    requires lo <= j <= |s|
    ensures lo <= i <= j
    ensures forall k :: i <= k < j ==> IsWhitespace(s[k])
    ensures lo < i ==> !IsWhitespace(s[i - 1])
    decreases j
  {
    if lo < j && IsWhitespace(s[j - 1]) then BlankRunStart(s, lo, j - 1) else j
  }

  /** `s[i..j]` is what is left of `s` once its leading and trailing whitespace is cut. */
  predicate TrimmedAt(s: string, i: int, j: int) {
    && 0 <= i <= j <= |s|
    && (forall k :: 0 <= k < i ==> IsWhitespace(s[k]))
    && (forall k :: j <= k < |s| ==> IsWhitespace(s[k]))
    && (i < j ==> !IsWhitespace(s[i]) && !IsWhitespace(s[j - 1]))
  }

  /** Kotlin's `String.trim()`. */
  function Trim(s: string): (r: string)
    ensures exists i, j :: TrimmedAt(s, i, j) && r == s[i..j]
    ensures IsBlank(s) <==> r == ""
  {
    var i := BlankRunEnd(s, 0);
    var j := BlankRunStart(s, i, |s|);
    assert TrimmedAt(s, i, j);
    s[i..j]
  }

  /** There is only one way to cut a string's surrounding whitespace: any cut meeting
      `TrimmedAt` is the one `Trim` makes. */
  lemma TrimIs(s: string, i: int, j: int)
    requires TrimmedAt(s, i, j)
    ensures Trim(s) == s[i..j]
  {
    var i0, j0 :| TrimmedAt(s, i0, j0) && Trim(s) == s[i0..j0];
    TrimmedAtUnique(s, i, j, i0, j0);
  }

  /** Two cuts meeting `TrimmedAt` leave the same slice. */
  lemma TrimmedAtUnique(s: string, i: int, j: int, i0: int, j0: int)
    requires TrimmedAt(s, i, j) && TrimmedAt(s, i0, j0)
    ensures s[i..j] == s[i0..j0]
  {
    assert i < j ==> !IsWhitespace(s[i]) && !IsWhitespace(s[j - 1]);
    assert i0 < j0 ==> !IsWhitespace(s[i0]) && !IsWhitespace(s[j0 - 1]);
  }

  /** The column of the first non-whitespace character, or the length of a blank string
      (the private `indentWidth` of Kotlin's `replaceIndent`). */
  function IndentWidth(s: string): (n: nat)
    ensures n <= |s| && IsBlank(s[..n])
    ensures n < |s| ==> !IsWhitespace(s[n])
    ensures IsBlank(s) <==> n == |s|
  {
    var n := BlankRunEnd(s, 0);
    assert forall k :: 0 <= k < n ==> s[..n][k] == s[k];
    assert s[..|s|] == s;
    n
  }

  /** Every character of a blank prefix is whitespace. */
  lemma BlankPrefix(s: string, n: nat)
    requires n <= |s| && IsBlank(s[..n])
    ensures forall k :: 0 <= k < n ==> IsWhitespace(s[k])
  {
    assert forall k :: 0 <= k < n ==> s[..n][k] == s[k];
  }

  /** The indentation is the only position with a blank prefix and a non-blank character there. */
  lemma IndentWidthIs(s: string, n: nat)
    requires n <= |s| && IsBlank(s[..n])
    requires n < |s| ==> !IsWhitespace(s[n])
    ensures IndentWidth(s) == n
  {
    BlankPrefix(s, n);
    BlankPrefix(s, IndentWidth(s));
  }

  /** Indenting a line by a blank prefix widens its indentation by exactly that prefix. */
  lemma IndentWidthAfterBlank(p: string, x: string)
    requires IsBlank(p)
    ensures IndentWidth(p + x) == |p| + IndentWidth(x)
    ensures IsBlank(p + x) <==> IsBlank(x)
  {
    var s := p + x;
    var n := |p| + IndentWidth(x);
    assert s[..n] == p + x[..IndentWidth(x)];
    assert n < |s| ==> s[n] == x[IndentWidth(x)];
    IndentWidthIs(s, n);
    assert IsBlank(x) ==> IsBlank(s) by {
      if IsBlank(x) {
        forall i | 0 <= i < |s| ensures IsWhitespace(s[i]) {
          if i >= |p| { assert s[i] == x[i - |p|]; }
        }
      }
    }
    assert IsBlank(s) ==> IsBlank(x) by {
      if IsBlank(s) {
        forall i | 0 <= i < |x| ensures IsWhitespace(x[i]) { assert x[i] == s[|p| + i]; }
      }
    }
  }

  // ---------------------------------------------------------------------------
  // Case mapping
  // ---------------------------------------------------------------------------

  /** The ASCII part of Kotlin's `Char.uppercaseChar()`. */
  function UpperChar(c: char): char {
    if 'a' <= c <= 'z' then (c as int - 32) as char else c
  }

  /** `String.uppercase()` restricted to ASCII letters; every other character is kept. */
  function AsciiUpper(s: string): (r: string)
    ensures |r| == |s|
    ensures forall i :: 0 <= i < |s| ==> r[i] == UpperChar(s[i])
  {
    seq(|s|, i requires 0 <= i < |s| => UpperChar(s[i]))
  }

  predicate IsAsciiUpperLetter(c: char) { 'A' <= c <= 'Z' }

  predicate IsAsciiLetter(c: char) { 'A' <= c <= 'Z' || 'a' <= c <= 'z' }

  /** Uppercasing yields an uppercase letter exactly from the letters of either case. */
  lemma UpperCharIsLetter(c: char)
    ensures IsAsciiUpperLetter(UpperChar(c)) <==> IsAsciiLetter(c)
  {
  }

  // ---------------------------------------------------------------------------
  // Lines and joining
  // ---------------------------------------------------------------------------

  predicate IsBreak(c: char) { c == '\n' || c == '\r' }

  predicate NoBreaks(s: string) {
    forall i :: 0 <= i < |s| ==> !IsBreak(s[i])
  }

  /** Every character of a break-free prefix is not a break. */
  lemma NoBreaksPrefix(s: string, n: nat)
    requires n <= |s| && NoBreaks(s[..n])
    ensures forall k :: 0 <= k < n ==> !IsBreak(s[k])
  {
    assert forall k :: 0 <= k < n ==> s[..n][k] == s[k];
  }

  /** Two pieces without line breaks make a line without one. */
  lemma NoBreaksConcat(a: string, b: string)
    requires NoBreaks(a) && NoBreaks(b)
    ensures NoBreaks(a + b)
  {
  }

  /** Index of the first line-break character, or `|s|` when there is none. */
  function FirstBreak(s: string): (i: nat)
    ensures i <= |s| && NoBreaks(s[..i])
    ensures i < |s| ==> IsBreak(s[i])
    decreases |s|
  {
    if |s| == 0 || IsBreak(s[0]) then 0
    else
      var j := FirstBreak(s[1..]);
      assert s[..1 + j] == [s[0]] + s[1..][..j];
      1 + j
  }

  /** Length of the line terminator at `i`: `"\r\n"` counts as one terminator. */
  function BreakLength(s: string, i: nat): nat
    requires i < |s| && IsBreak(s[i])
  {
    if s[i] == '\r' && i + 1 < |s| && s[i + 1] == '\n' then 2 else 1
  }

  /** Kotlin's `CharSequence.lines()`: the text split at `"\r\n"`, `"\n"` and `"\r"`. */
  function Lines(s: string): (ls: seq<string>)
    ensures |ls| >= 1
    ensures forall k :: 0 <= k < |ls| ==> NoBreaks(ls[k])
    decreases |s|
  {
    var i := FirstBreak(s);
    if i == |s| then
      assert s[..i] == s;
      [s]
    else
      [s[..i]] + Lines(s[i + BreakLength(s, i)..])
  }

  /** `joinToString("\n")`. */
  function JoinLines(ls: seq<string>): string
    decreases |ls|
  {
    if |ls| == 0 then ""
    else if |ls| == 1 then ls[0]
    else ls[0] + "\n" + JoinLines(ls[1..])
  }

  /** A line without terminators is a single line. */
  lemma LinesOfLine(s: string)
    requires NoBreaks(s)
    ensures Lines(s) == [s]
  {
    assert s[..|s|] == s;
  }

  /** The first break is the only position with a break-free prefix and a break there. */
  lemma FirstBreakIs(s: string, i: nat)
    requires i <= |s| && NoBreaks(s[..i])
    requires i < |s| ==> IsBreak(s[i])
    ensures FirstBreak(s) == i
  {
    NoBreaksPrefix(s, i);
    NoBreaksPrefix(s, FirstBreak(s));
  }

  /** One step of `Lines`: the text before the first terminator, then the lines after it. */
  lemma LinesStep(s: string)
    requires FirstBreak(s) < |s|
    ensures Lines(s) == [s[..FirstBreak(s)]] + Lines(s[FirstBreak(s) + BreakLength(s, FirstBreak(s))..])
  {
  }

  /** A break-free line followed by `"\n"` is split off as the first line. */
  lemma LinesAppendLine(x: string, y: string)
    requires NoBreaks(x)
    ensures Lines(x + "\n" + y) == [x] + Lines(y)
  {
    var s := x + "\n" + y;
    assert s[..|x|] == x;
    FirstBreakIs(s, |x|);
    assert s[|x| + 1..] == y;
    LinesStep(s);
  }

  /** The first terminator of `x` is also the first of `x + "\n" + y`. */
  lemma FirstBreakOfAppend(x: string, y: string)
    requires FirstBreak(x) < |x|
    ensures FirstBreak(x + "\n" + y) == FirstBreak(x)
  {
    var s := x + "\n" + y;
    var i := FirstBreak(x);
    assert s[..i] == x[..i];
    assert s[i] == x[i];
    FirstBreakIs(s, i);
  }

  /** A terminator inside `x` keeps its length in `x + "\n" + y` unless it is a final `'\r'`. */
  lemma BreakLengthOfAppend(x: string, y: string, i: nat)
    requires i < |x| - 1 && IsBreak(x[i])
    ensures BreakLength(x + "\n" + y, i) == BreakLength(x, i)
  {
    var s := x + "\n" + y;
    assert s[i] == x[i] && s[i + 1] == x[i + 1];
  }

  /** Cutting a prefix inside the left part of a `"\n"` join. */
  lemma SuffixOfAppend(x: string, y: string, k: nat)
    requires k <= |x|
    ensures (x + "\n" + y)[k..] == x[k..] + "\n" + y
  {
    assert x + "\n" + y == x + ("\n" + y);
  }

  /** Splitting distributes over a `"\n"` join when the left part does not end in `'\r'`
      (which would fuse with the `'\n'` into one terminator). */
  lemma {:induction false} LinesAppend(x: string, y: string)
    requires |x| == 0 || x[|x| - 1] != '\r'
    ensures Lines(x + "\n" + y) == Lines(x) + Lines(y)
    decreases |x|
  {
    var i := FirstBreak(x);
    if i == |x| {
      assert x[..i] == x;
      LinesAppendSingle(x, y);
    } else {
      var x' := x[i + BreakLength(x, i)..];
      LinesAtFirstBreakOfAppend(x, y);
      LinesStep(x);
      SuffixKeepsLast(x, i + BreakLength(x, i));
      LinesAppend(x', y);
      ConsAssoc(x[..i], Lines(x'), Lines(y));
    }
  }

  lemma SuffixKeepsLast(x: string, k: nat)
    requires k <= |x|
    ensures |x[k..]| == 0 || x[k..][|x[k..]| - 1] == x[|x| - 1]
  {
  }

  lemma ConsAssoc(h: string, a: seq<string>, b: seq<string>)
    ensures [h] + (a + b) == ([h] + a) + b
  {
  }

  lemma LinesAppendSingle(x: string, y: string)
    requires NoBreaks(x)
    ensures Lines(x + "\n" + y) == Lines(x) + Lines(y)
  {
    LinesAppendLine(x, y);
    LinesOfLine(x);
  }

  /** The first line of `x + "\n" + y` is the first line of `x` when `x` holds a break. */
  lemma LinesAtFirstBreakOfAppend(x: string, y: string)
    requires |x| == 0 || x[|x| - 1] != '\r'
    requires FirstBreak(x) < |x|
    ensures var i := FirstBreak(x);
      Lines(x + "\n" + y) == [x[..i]] + Lines(x[i + BreakLength(x, i)..] + "\n" + y)
  {
    var s := x + "\n" + y;
    var i := FirstBreak(x);
    var n := BreakLength(x, i);
    assert FirstBreak(s) == i by { FirstBreakOfAppend(x, y); }
    assert BreakLength(s, i) == n by { BreakLengthInsideAppend(x, y, i); }
    assert s[i + n..] == x[i + n..] + "\n" + y by { SuffixOfAppend(x, y, i + n); }
    assert s[..i] == x[..i] by { PrefixOfAppend(x, y, i); }
    LinesStepAt(s, i, n, x[..i], x[i + n..] + "\n" + y);
  }

  lemma PrefixOfAppend(x: string, y: string, k: nat)
    requires k <= |x|
    ensures (x + "\n" + y)[..k] == x[..k]
  {
  }

  /** `LinesStep` with the first line and the remainder already known. */
  lemma LinesStepAt(s: string, i: nat, n: nat, head: string, rest: string)
    requires i < |s| && FirstBreak(s) == i
    requires BreakLength(s, i) == n && i + n <= |s|
    requires s[..i] == head && s[i + n..] == rest
    ensures Lines(s) == [head] + Lines(rest)
  {
    LinesStep(s);
  }

  /** A terminator inside `x` keeps its length in `x + "\n" + y`, the precondition of
      `LinesAppend` ruling out a final `'\r'`. */
  lemma BreakLengthInsideAppend(x: string, y: string, i: nat)
    requires |x| == 0 || x[|x| - 1] != '\r'
    requires i < |x| && IsBreak(x[i])
    ensures BreakLength(x + "\n" + y, i) == BreakLength(x, i)
  {
    if i < |x| - 1 {
      BreakLengthOfAppend(x, y, i);
    } else {
      assert (x + "\n" + y)[i] == x[i];
    }
  }

  /** Splitting undoes joining when no line carries a terminator. */
  lemma {:induction false} LinesOfJoin(ls: seq<string>)
    requires |ls| >= 1
    requires forall k :: 0 <= k < |ls| ==> NoBreaks(ls[k])
    ensures Lines(JoinLines(ls)) == ls
    decreases |ls|
  {
    LinesOfLine(ls[0]);
    if |ls| > 1 {
      LinesAppend(ls[0], JoinLines(ls[1..]));
      LinesOfJoin(ls[1..]);
      assert ls == [ls[0]] + ls[1..];
    }
  }

  /** Joining undoes splitting when the text uses `"\n"` terminators only. */
  lemma {:induction false} JoinOfLines(s: string)
    requires forall k :: 0 <= k < |s| ==> s[k] != '\r'
    ensures JoinLines(Lines(s)) == s
    decreases |s|
  {
    var i := FirstBreak(s);
    if i == |s| {
      LinesOfLine(s);
    } else {
      var rest := s[i + 1..];
      assert BreakLength(s, i) == 1;
      JoinOfLines(rest);
      assert s == s[..i] + "\n" + rest;
    }
  }

  /** The first line of a join is the join's prefix. */
  lemma JoinLinesStartsWith(ls: seq<string>)
    requires |ls| >= 1
    ensures |ls[0]| <= |JoinLines(ls)| && JoinLines(ls)[..|ls[0]|] == ls[0]
  {
  }

  /** Joining two non-empty runs of lines joins each and puts one line feed between them. */
  lemma {:induction false} JoinLinesAppend(a: seq<string>, b: seq<string>)
    requires |a| >= 1 && |b| >= 1
    ensures JoinLines(a + b) == JoinLines(a) + "\n" + JoinLines(b)
    decreases |a|
  {
    if |a| == 1 {
      assert (a + b)[1..] == b;
    } else {
      assert (a + b)[1..] == a[1..] + b;
      JoinLinesAppend(a[1..], b);
      assert a[0] + "\n" + (JoinLines(a[1..]) + "\n" + JoinLines(b))
          == (a[0] + "\n" + JoinLines(a[1..])) + "\n" + JoinLines(b);
    }
  }

  /** Joining a line in front of a non-empty run. */
  lemma JoinCons(x: string, q: seq<string>)
    requires |q| >= 1
    ensures JoinLines([x] + q) == x + "\n" + JoinLines(q)
  {
    assert ([x] + q)[1..] == q;
  }

  /** Two lines joined by a line feed. */
  lemma JoinTwo(a: string, b: string)
    ensures JoinLines([a, b]) == a + "\n" + b
  {
    assert [a, b][1..] == [b];
  }

  /** Three lines joined by line feeds. */
  lemma JoinThree(a: string, b: string, c: string)
    ensures JoinLines([a, b, c]) == a + "\n" + b + "\n" + c
  {
    assert [a, b, c][1..] == [b, c];
    JoinTwo(b, c);
    assert a + "\n" + (b + "\n" + c) == a + "\n" + b + "\n" + c;
  }

  /** Four lines joined by line feeds. */
  lemma JoinFour(a: string, b: string, c: string, d: string)
    ensures JoinLines([a, b, c, d]) == a + "\n" + b + "\n" + c + "\n" + d
  {
    assert [a, b, c, d][1..] == [b, c, d];
    JoinThree(b, c, d);
    var t := b + "\n" + c + "\n" + d;
    assert a + "\n" + t == a + "\n" + b + "\n" + c + "\n" + d;
  }

  lemma StringAssoc(x: string, y: string, t: string)
    ensures x + "\n" + y + "\n" + t == x + "\n" + (y + "\n" + t)
  {
  }

  /** A line that holds a line feed joins exactly like the two lines it consists of. */
  lemma JoinSplitLine(p: seq<string>, x: string, y: string, q: seq<string>)
    requires |p| >= 1 && |q| >= 1
    ensures JoinLines(p + [x + "\n" + y] + q) == JoinLines(p + [x, y] + q)
  {
    var z := x + "\n" + y;
    var jq := JoinLines(q);
    var r1 := [z] + q;
    var r2 := [x] + ([y] + q);
    assert p + [z] + q == p + r1;
    assert p + [x, y] + q == p + r2;
    JoinLinesAppend(p, r1);
    JoinLinesAppend(p, r2);
    assert JoinLines(r1) == JoinLines(r2) by {
      JoinCons(z, q);
      JoinCons(y, q);
      JoinCons(x, [y] + q);
      StringAssoc(x, y, jq);
    }
  }

  // ---------------------------------------------------------------------------
  // trimIndent
  // ---------------------------------------------------------------------------

  /** `m` is the smallest indentation among the non-blank lines of `ls`, and `None` exactly
      when every line is blank. */
  predicate IsMinIndent(ls: seq<string>, m: Option<nat>) {
    && (m.None? <==> forall k :: 0 <= k < |ls| ==> IsBlank(ls[k]))
    && (m.Some? ==> forall k :: 0 <= k < |ls| && !IsBlank(ls[k]) ==> m.value <= IndentWidth(ls[k]))
    && (m.Some? ==> exists k :: 0 <= k < |ls| && !IsBlank(ls[k]) && m.value == IndentWidth(ls[k]))
  }

  /** The smallest indentation given the first line and that of the others. */
  function MinWithLine(first: string, rest: Option<nat>): Option<nat> {
    if IsBlank(first) then rest
    else if rest.Some? && rest.value < IndentWidth(first) then rest
    else Some(IndentWidth(first))
  }

  /** `filter(isNotBlank).map(indentWidth).minOrNull()`. */
  function MinCommonIndent(ls: seq<string>): (m: Option<nat>)
    ensures IsMinIndent(ls, m)
    decreases |ls|
  {
    if |ls| == 0 then None
    else
      var rest := MinCommonIndent(ls[1..]);
      MinWithLineIsMin(ls, rest);
      MinWithLine(ls[0], rest)
  }

  lemma MinWithLineIsMin(ls: seq<string>, rest: Option<nat>)
    requires |ls| > 0 && IsMinIndent(ls[1..], rest)
    ensures IsMinIndent(ls, MinWithLine(ls[0], rest))
  {
    MinWithLineNone(ls, rest);
    MinWithLineBound(ls, rest);
    MinWithLineAttained(ls, rest);
  }

  lemma MinWithLineNone(ls: seq<string>, rest: Option<nat>)
    requires |ls| > 0 && IsMinIndent(ls[1..], rest)
    ensures MinWithLine(ls[0], rest).None? <==> forall k :: 0 <= k < |ls| ==> IsBlank(ls[k])
  {
    var tail := ls[1..];
    assert forall k :: 1 <= k < |ls| ==> ls[k] == tail[k - 1];
  }

  lemma MinWithLineBound(ls: seq<string>, rest: Option<nat>)
    requires |ls| > 0 && IsMinIndent(ls[1..], rest)
    ensures var m := MinWithLine(ls[0], rest);
      m.Some? ==> forall k :: 0 <= k < |ls| && !IsBlank(ls[k]) ==> m.value <= IndentWidth(ls[k])
  {
    var tail := ls[1..];
    assert forall k :: 1 <= k < |ls| ==> ls[k] == tail[k - 1];
  }

  lemma MinWithLineAttained(ls: seq<string>, rest: Option<nat>)
    requires |ls| > 0 && IsMinIndent(ls[1..], rest)
    ensures var m := MinWithLine(ls[0], rest);
      m.Some? ==> exists k :: 0 <= k < |ls| && !IsBlank(ls[k]) && m.value == IndentWidth(ls[k])
  {
    var m := MinWithLine(ls[0], rest);
    if m == rest && rest.Some? {
      var tail := ls[1..];
      var k :| 0 <= k < |tail| && !IsBlank(tail[k]) && rest.value == IndentWidth(tail[k]);
      assert ls[k + 1] == tail[k];
    }
  }

  /** `String.drop(n)`. */
  function Drop(s: string, n: nat): string {
    if n >= |s| then "" else s[n..]
  }

  /** Kotlin's private `reindent` with an empty new indent: a blank first or last line is
      removed, every other line loses its first `m` characters. */
  function Reindent(ls: seq<string>, m: nat): seq<string> {
    var lo := if |ls| > 0 && IsBlank(ls[0]) then 1 else 0;
    var hi := if |ls| > lo && IsBlank(ls[|ls| - 1]) then |ls| - 1 else |ls|;
    seq(hi - lo, k requires 0 <= k < hi - lo => Drop(ls[lo + k], m))
  }

  /** Kotlin's `String.trimIndent()`, i.e. `replaceIndent("")`. */
  function TrimIndent(s: string): string {
    var ls := Lines(s);
    JoinLines(Reindent(ls, MinCommonIndent(ls).GetOr(0)))
  }

  /** The 12-column margin at which the raw-string bodies of the source are written. */
  const Margin: string := "            "

  /** The 8-column indentation of the line that closes those raw strings. */
  const ClosingMargin: string := "        "

  /** Every line indented by `p`. */
  function Indented(body: seq<string>, p: string): (r: seq<string>)
    ensures |r| == |body|
    ensures forall k :: 0 <= k < |body| ==> r[k] == p + body[k]
  {
    seq(|body|, k requires 0 <= k < |body| => p + body[k])
  }

  /** The value of a Kotlin raw string literal that opens with `"""` at the end of a line,
      has the given body lines at the 12-column margin (interpolated values included as
      they are) and closes with `"""` on a line of its own indented 8 columns. */
  function RawString(body: seq<string>): string {
    JoinLines([""] + Indented(body, Margin) + [ClosingMargin])
  }

  /** The lines of such a literal with single-line body lines: its body behind the margin,
      between an empty first line and a blank closing line. */
  lemma RawStringLines(body: seq<string>)
    requires forall j :: 0 <= j < |body| ==> NoBreaks(body[j])
    ensures Lines(RawString(body)) == [""] + Indented(body, Margin) + [ClosingMargin]
  {
    var ls := [""] + Indented(body, Margin) + [ClosingMargin];
    forall k | 0 <= k < |ls| ensures NoBreaks(ls[k]) {
      if 1 <= k < |ls| - 1 {
        assert ls[k] == Margin + body[k - 1];
      }
    }
    LinesOfJoin(ls);
  }

  /** The lines of a raw string with a margin-aligned body line have the margin as their
      common indentation. */
  lemma {:induction false} RawLinesIndent(body: seq<string>, k: nat)
    requires k < |body| && |body[k]| > 0 && !IsWhitespace(body[k][0])
    ensures MinCommonIndent([""] + Indented(body, Margin) + [ClosingMargin]) == Some(|Margin|)
  {
    var ls := [""] + Indented(body, Margin) + [ClosingMargin];
    assert IsBlank(Margin) && IsBlank(ClosingMargin);
    forall j | 1 <= j < |ls| - 1
      ensures IndentWidth(ls[j]) == |Margin| + IndentWidth(body[j - 1])
      ensures IsBlank(ls[j]) <==> IsBlank(body[j - 1])
    {
      assert ls[j] == Margin + body[j - 1];
      IndentWidthAfterBlank(Margin, body[j - 1]);
    }
    assert IndentWidth(body[k]) == 0;
    assert !IsBlank(ls[k + 1]);
    var m := MinCommonIndent(ls);
    assert m.value <= IndentWidth(ls[k + 1]);
    var w :| 0 <= w < |ls| && !IsBlank(ls[w]) && m.value == IndentWidth(ls[w]);
    assert 1 <= w < |ls| - 1;
  }

  /** Re-indenting those lines by the margin gives back the body. */
  lemma RawLinesReindent(body: seq<string>)
    ensures Reindent([""] + Indented(body, Margin) + [ClosingMargin], |Margin|) == body
  {
    var ls := [""] + Indented(body, Margin) + [ClosingMargin];
    assert IsBlank(ls[0]) && IsBlank(ls[|ls| - 1]);
    var out := Reindent(ls, |Margin|);
    assert |out| == |body|;
    forall j | 0 <= j < |body| ensures out[j] == body[j] {
      assert ls[j + 1] == Margin + body[j];
      assert out[j] == Drop(ls[1 + j], |Margin|);
      if |body[j]| == 0 {
        assert Margin + body[j] == Margin;
      } else {
        assert (Margin + body[j])[|Margin|..] == body[j];
      }
    }
  }

  /** `trimIndent()` of a raw string whose body lines carry no line break and one of which
      starts at the margin gives back exactly the body lines joined by `"\n"`. */
  lemma TrimIndentOfRawString(body: seq<string>, k: nat)
    requires forall j :: 0 <= j < |body| ==> NoBreaks(body[j])
    requires k < |body| && |body[k]| > 0 && !IsWhitespace(body[k][0])
    ensures TrimIndent(RawString(body)) == JoinLines(body)
  {
    RawStringLines(body);
    RawLinesIndent(body, k);
    RawLinesReindent(body);
  }

  /** Joining two or more lines puts a line feed after the first. */
  lemma JoinLinesHasBreak(ls: seq<string>)
    requires |ls| >= 2
    ensures |ls[0]| < |JoinLines(ls)| && JoinLines(ls)[|ls[0]|] == '\n'
  {
    assert ls == [ls[0]] + ls[1..];
    JoinCons(ls[0], ls[1..]);
  }

  /** Re-indenting drops at most the first and the last line. */
  lemma ReindentKeepsInner(ls: seq<string>, m: nat)
    ensures |Reindent(ls, m)| >= |ls| - 2
  {
  }

  /** A raw string with two single-line body lines splits into at least four lines: the
      empty first line, those two, and whatever follows. */
  lemma RawStringHasFourLines(body: seq<string>)
    requires |body| >= 2 && NoBreaks(body[0]) && NoBreaks(body[1])
    ensures |Lines(RawString(body))| >= 4
  {
    var q := Indented(body, Margin) + [ClosingMargin];
    var a, b, rest := q[0], q[1], q[2..];
    assert a == Margin + body[0] && b == Margin + body[1];
    NoBreaksConcat(Margin, body[0]);
    NoBreaksConcat(Margin, body[1]);
    assert [""] + Indented(body, Margin) + [ClosingMargin] == [""] + ([a] + ([b] + rest));
    JoinCons(b, rest);
    JoinCons(a, [b] + rest);
    JoinCons("", [a] + ([b] + rest));
    var tail := JoinLines(rest);
    assert RawString(body) == "" + "\n" + (a + "\n" + (b + "\n" + tail));
    LinesAppendLine(b, tail);
    LinesAppendLine(a, b + "\n" + tail);
    LinesAppendLine("", a + "\n" + (b + "\n" + tail));
  }

  /** `trimIndent()` of a raw string whose first two body lines are single lines keeps a
      line break, whatever the later lines hold: the literal splits into at least four
      lines, and only the first and the last of them can be dropped. */
  lemma TrimIndentOfRawStringHasBreak(body: seq<string>)
    requires |body| >= 2 && NoBreaks(body[0]) && NoBreaks(body[1])
    ensures !NoBreaks(TrimIndent(RawString(body)))
  {
    var ls := Lines(RawString(body));
    RawStringHasFourLines(body);
    var r := Reindent(ls, MinCommonIndent(ls).GetOr(0));
    ReindentKeepsInner(ls, MinCommonIndent(ls).GetOr(0));
    JoinLinesHasBreak(r);
  }

  /** Indenting distributes over concatenation. */
  lemma IndentedAppend(a: seq<string>, b: seq<string>, p: string)
    ensures Indented(a + b, p) == Indented(a, p) + Indented(b, p)
  {
  }

  /** Re-indenting by zero only removes a blank first and last line. */
  lemma ReindentByZero(ls: seq<string>)
    requires |ls| >= 2 && IsBlank(ls[0]) && IsBlank(ls[|ls| - 1])
    ensures Reindent(ls, 0) == ls[1..|ls| - 1]
  {
    var out := Reindent(ls, 0);
    forall j | 0 <= j < |out| ensures out[j] == ls[1 + j] {
      assert out[j] == Drop(ls[1 + j], 0);
      assert ls[1 + j][0..] == ls[1 + j];
    }
  }

  lemma IndentedPair(x: string, y: string, p: string)
    ensures Indented([x, y], p) == [p + x, p + y]
  {
  }

  /** The template lines of a raw string whose interpolated value at `a`'s end holds a line
      feed: the value's first line behind the margin, its second line as it is. */
  function SplitTemplate(a: seq<string>, x: string, y: string, b: seq<string>): seq<string> {
    Indented(a, Margin) + [Margin + x, y] + Indented(b, Margin)
  }

  lemma RawStringOfSplitLine(a: seq<string>, x: string, y: string, b: seq<string>)
    ensures RawString(a + [x + "\n" + y] + b) == JoinLines([""] + SplitTemplate(a, x, y, b) + [ClosingMargin])
  {
    var p := [""] + Indented(a, Margin);
    var q := Indented(b, Margin) + [ClosingMargin];
    var z := x + "\n" + y;
    IndentedAppend(a + [z], b, Margin);
    IndentedAppend(a, [z], Margin);
    assert Indented([z], Margin) == [Margin + z];
    assert Margin + z == Margin + x + "\n" + y;
    assert [""] + Indented(a + [z] + b, Margin) + [ClosingMargin] == p + [Margin + x + "\n" + y] + q;
    JoinSplitLine(p, Margin + x, y, q);
    assert p + [Margin + x, y] + q == [""] + SplitTemplate(a, x, y, b) + [ClosingMargin];
  }

  lemma SplitTemplateHasNoBreaks(a: seq<string>, x: string, y: string, b: seq<string>)
    requires forall j :: 0 <= j < |a| ==> NoBreaks(a[j])
    requires forall j :: 0 <= j < |b| ==> NoBreaks(b[j])
    requires NoBreaks(x) && NoBreaks(y)
    ensures var ls := [""] + SplitTemplate(a, x, y, b) + [ClosingMargin];
      forall k :: 0 <= k < |ls| ==> NoBreaks(ls[k])
  {
    var ls := [""] + SplitTemplate(a, x, y, b) + [ClosingMargin];
    forall k | 0 <= k < |ls| ensures NoBreaks(ls[k]) {
      if 1 <= k <= |a| {
        assert ls[k] == Margin + a[k - 1];
        NoBreaksConcat(Margin, a[k - 1]);
      } else if k == |a| + 1 {
        NoBreaksConcat(Margin, x);
      } else if |a| + 3 <= k < |ls| - 1 {
        assert ls[k] == Margin + b[k - |a| - 3];
        NoBreaksConcat(Margin, b[k - |a| - 3]);
      }
    }
  }

  /** When an interpolated value carries a line feed and its second line starts in column
      0, `trimIndent()` finds no common indentation, so the literal's margin stays on every
      line of the template and only the blank first and last lines go. */
  lemma TrimIndentOfSplitLine(a: seq<string>, x: string, y: string, b: seq<string>)
    requires forall j :: 0 <= j < |a| ==> NoBreaks(a[j])
    requires forall j :: 0 <= j < |b| ==> NoBreaks(b[j])
    requires NoBreaks(x) && NoBreaks(y) && |y| > 0 && !IsWhitespace(y[0])
    ensures TrimIndent(RawString(a + [x + "\n" + y] + b)) == JoinLines(SplitTemplate(a, x, y, b))
  {
    var mid := SplitTemplate(a, x, y, b);
    var ls := [""] + mid + [ClosingMargin];
    RawStringOfSplitLine(a, x, y, b);
    SplitTemplateHasNoBreaks(a, x, y, b);
    assert ls[|a| + 2] == y;
    assert ls[1..|ls| - 1] == mid;
    TrimIndentAtColumnZero(ls, |a| + 2);
  }

  lemma MarginsAreBlank()
    ensures IsBlank(Margin) && IsBlank(ClosingMargin)
  {
  }

  lemma MarginIsSpaces(k: nat)
    requires k < |Margin|
    ensures Margin[k] == ' '
  {
  }

  /** Every line with its first `m` characters dropped. */
  function DropEach(ls: seq<string>, m: nat): (r: seq<string>)
    ensures |r| == |ls|
    ensures forall k :: 0 <= k < |ls| ==> r[k] == Drop(ls[k], m)
  {
    seq(|ls|, k requires 0 <= k < |ls| => Drop(ls[k], m))
  }

  /** Re-indenting lines framed by blank ones drops the frame and cuts every other line. */
  lemma ReindentFramed(ls: seq<string>, m: nat)
    requires |ls| >= 2 && IsBlank(ls[0]) && IsBlank(ls[|ls| - 1])
    ensures Reindent(ls, m) == DropEach(ls[1..|ls| - 1], m)
  {
  }

  /** A non-blank line whose indentation no other non-blank line undercuts fixes the common
      indentation. */
  lemma MinCommonIndentIs(ls: seq<string>, k: nat, w: nat)
    requires k < |ls| && !IsBlank(ls[k]) && IndentWidth(ls[k]) == w
    requires forall j :: 0 <= j < |ls| && !IsBlank(ls[j]) ==> w <= IndentWidth(ls[j])
    ensures MinCommonIndent(ls) == Some(w)
  {
    var m := MinCommonIndent(ls);
    assert m.Some? && m.value <= IndentWidth(ls[k]);
    var j :| 0 <= j < |ls| && !IsBlank(ls[j]) && m.value == IndentWidth(ls[j]);
    assert w <= IndentWidth(ls[j]);
    assert m.value == w;
    assert m == Some(w);
  }

  /** Behind the margin, a line is indented at least as far as the margin, or blank. */
  lemma MarginLineIndent(x: string, w: nat)
    requires w <= |Margin|
    ensures !IsBlank(Margin + x) ==> w <= IndentWidth(Margin + x)
  {
    MarginsAreBlank();
    IndentWidthAfterBlank(Margin, x);
  }

  /** The split template's common indentation is that of the value's second line, when that
      line is non-blank and indented no further than the margin. */
  lemma SplitTemplateIndent(a: seq<string>, x: string, y: string, b: seq<string>, w: nat)
    requires w <= |Margin| && !IsBlank(y) && IndentWidth(y) == w
    ensures MinCommonIndent([""] + SplitTemplate(a, x, y, b) + [ClosingMargin]) == Some(w)
  {
    var ls := [""] + SplitTemplate(a, x, y, b) + [ClosingMargin];
    MarginsAreBlank();
    forall j | 0 <= j < |ls| && !IsBlank(ls[j]) ensures w <= IndentWidth(ls[j]) {
      if 1 <= j <= |a| {
        assert ls[j] == Margin + a[j - 1];
        MarginLineIndent(a[j - 1], w);
      } else if j == |a| + 1 {
        MarginLineIndent(x, w);
      } else if |a| + 3 <= j < |ls| - 1 {
        assert ls[j] == Margin + b[j - |a| - 3];
        MarginLineIndent(b[j - |a| - 3], w);
      }
    }
    assert ls[|a| + 2] == y;
    MinCommonIndentIs(ls, |a| + 2, w);
  }

  /** When an interpolated value carries a line feed and its second line is indented `w`
      columns, at most the margin, `trimIndent()` takes `w` as the common indentation: every
      template line loses only `w` of its margin, and the second line loses its own
      indentation. */
  lemma TrimIndentOfIndentedSplitLine(a: seq<string>, x: string, y: string, b: seq<string>, w: nat)
    requires forall j :: 0 <= j < |a| ==> NoBreaks(a[j])
    requires forall j :: 0 <= j < |b| ==> NoBreaks(b[j])
    requires NoBreaks(x) && NoBreaks(y)
    requires w <= |Margin| && !IsBlank(y) && IndentWidth(y) == w
    ensures TrimIndent(RawString(a + [x + "\n" + y] + b)) == JoinLines(DropEach(SplitTemplate(a, x, y, b), w))
  {
    var mid := SplitTemplate(a, x, y, b);
    var ls := [""] + mid + [ClosingMargin];
    SplitLineLines(a, x, y, b);
    SplitTemplateIndent(a, x, y, b, w);
    MarginsAreBlank();
    assert IsBlank(ls[0]);
    assert ls[1..|ls| - 1] == mid;
    ReindentFramed(ls, w);
  }

  /** The lines of a raw string whose interpolated value holds a line feed. */
  lemma SplitLineLines(a: seq<string>, x: string, y: string, b: seq<string>)
    requires forall j :: 0 <= j < |a| ==> NoBreaks(a[j])
    requires forall j :: 0 <= j < |b| ==> NoBreaks(b[j])
    requires NoBreaks(x) && NoBreaks(y)
    ensures Lines(RawString(a + [x + "\n" + y] + b)) == [""] + SplitTemplate(a, x, y, b) + [ClosingMargin]
  {
    RawStringOfSplitLine(a, x, y, b);
    SplitTemplateHasNoBreaks(a, x, y, b);
    LinesOfJoin([""] + SplitTemplate(a, x, y, b) + [ClosingMargin]);
  }

  /** Lines framed by blank ones, one of them non-blank in column 0: `trimIndent()` only
      drops the frame. */
  lemma TrimIndentAtColumnZero(ls: seq<string>, k: nat)
    requires forall j :: 0 <= j < |ls| ==> NoBreaks(ls[j])
    requires 2 <= |ls| && IsBlank(ls[0]) && IsBlank(ls[|ls| - 1])
    requires k < |ls| && |ls[k]| > 0 && !IsWhitespace(ls[k][0])
    ensures TrimIndent(JoinLines(ls)) == JoinLines(ls[1..|ls| - 1])
  {
    LinesOfJoin(ls);
    MinCommonIndentZero(ls, k);
    ReindentByZero(ls);
  }

  /** A non-blank line in column 0 makes the common indentation 0. */
  lemma MinCommonIndentZero(ls: seq<string>, k: nat)
    requires k < |ls| && |ls[k]| > 0 && !IsWhitespace(ls[k][0])
    ensures MinCommonIndent(ls) == Some(0)
  {
    assert !IsBlank(ls[k]);
    IndentWidthIs(ls[k], 0);
  }

  // ---------------------------------------------------------------------------
  // take and Int.toString
  // ---------------------------------------------------------------------------

  /** `String.take(n)`: the first `n` characters, or all of them. */
  function Take(s: string, n: nat): (r: string)
    ensures |r| == if |s| < n then |s| else n
    ensures r == s[..|r|]
  {
    if n >= |s| then s else s[..n]
  }

  predicate IsDigit(c: char) { '0' <= c <= '9' }

  predicate AllDigits(s: string) { forall i :: 0 <= i < |s| ==> IsDigit(s[i]) }

  function DigitChar(d: nat): (c: char)
    requires d < 10
    ensures IsDigit(c)
  {
    ('0' as int + d) as char
  }

  /** Decimal digits of a natural number, most significant first, without leading zeros. */
  function NatToString(n: nat): (r: string)
    ensures |r| >= 1 && AllDigits(r)
    ensures |r| > 1 ==> r[0] != '0'
    decreases n
  {
    if n < 10 then [DigitChar(n)]
    else NatToString(n / 10) + [DigitChar(n % 10)]
  }

  /** Kotlin's `Int.toString()` (decimal, with a leading minus sign for negatives). */
  function IntToString(n: int): string {
    if n < 0 then "-" + NatToString(-n) else NatToString(n)
  }

  /** The value a string of decimal digits denotes. */
  function ParseNat(s: string): nat
    requires AllDigits(s)
    decreases |s|
  {
    if |s| == 0 then 0
    else 10 * ParseNat(s[..|s| - 1]) + (s[|s| - 1] as int - '0' as int)
  }

  /** The value an optionally signed decimal string denotes. */
  function ParseInt(s: string): int
    requires (|s| > 0 && s[0] == '-' && AllDigits(s[1..])) || AllDigits(s)
  {
    if |s| > 0 && s[0] == '-' then 0 - ParseNat(s[1..]) else ParseNat(s)
  }

  lemma {:induction false} ParseNatToString(n: nat)
    ensures ParseNat(NatToString(n)) == n
    decreases n
  {
    if n >= 10 {
      var r := NatToString(n);
      assert r[..|r| - 1] == NatToString(n / 10);
      ParseNatToString(n / 10);
    }
  }

  /** Rendering an integer and reading it back gives the integer. */
  lemma IntToStringRoundTrip(n: int)
    ensures var s := IntToString(n);
      ((|s| > 0 && s[0] == '-' && AllDigits(s[1..])) || AllDigits(s)) && ParseInt(s) == n
  {
    if n < 0 {
      var s := IntToString(n);
      assert s[1..] == NatToString(-n);
      ParseNatToString(-n);
    } else {
      ParseNatToString(n);
    }
  }
}
