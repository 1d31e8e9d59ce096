/** Text primitives with the meaning Python gives them: the whitespace class
    (str.isspace, and the regex class \s of a str pattern), str.splitlines(),
    str.split() with no argument, substring tests, and the removal of ANSI
    control sequences that the process-table parser applies to every line. */
module Text {

  /** Python's str.isspace(); the regex class \s matches exactly these characters. */
  predicate IsSpace(c: char) {
    var n := c as int;
    n == 0x20 || 0x09 <= n <= 0x0D || 0x1C <= n <= 0x1F || n == 0x85 || n == 0xA0
    || n == 0x1680 || 0x2000 <= n <= 0x200A || n == 0x2028 || n == 0x2029
    || n == 0x202F || n == 0x205F || n == 0x3000
  }

  /** The characters at which str.splitlines() ends a line ("\r\n" counts as one break). */
  predicate IsLineBreak(c: char) {
    var n := c as int;
    0x0A <= n <= 0x0D || 0x1C <= n <= 0x1E || n == 0x85 || n == 0x2028 || n == 0x2029
  }

  predicate IsDigit(c: char) { '0' <= c <= '9' }

  /** The character classes the row patterns use; \d and \w are taken in their ASCII sense. */
  datatype CharClass =
    | Space           // \s
    | NonSpace        // \S
    | Digit           // \d
    | DecimalChar     // [\d.]
    | KbChar          // [\d,]
    | ClockChar       // [\d:]
    | HexChar         // [a-f0-9]
    | PackageChar     // [\w\.]
    | SensorNameChar  // [A-Z0-9_]
    | CsiParameter    // [0-?]
    | CsiIntermediate // [ -/]

  predicate InClass(c: char, cls: CharClass) {
    match cls
    case Space => IsSpace(c)
    case NonSpace => !IsSpace(c)
    case Digit => IsDigit(c)
    case DecimalChar => IsDigit(c) || c == '.'
    case KbChar => IsDigit(c) || c == ','
    case ClockChar => IsDigit(c) || c == ':'
    case HexChar => IsDigit(c) || 'a' <= c <= 'f'
    case PackageChar => IsDigit(c) || 'a' <= c <= 'z' || 'A' <= c <= 'Z' || c == '_' || c == '.'
    case SensorNameChar => IsDigit(c) || 'A' <= c <= 'Z' || c == '_'
    case CsiParameter => '0' <= c <= '?'
    case CsiIntermediate => ' ' <= c <= '/'
  }

  predicate AllIn(s: string, cls: CharClass) {
    forall k :: 0 <= k < |s| ==> InClass(s[k], cls)
  }

  /** A slice of a run of the class is a run of the class. */
  lemma AllInSlice(s: string, i: nat, j: nat, a: nat, b: nat, cls: CharClass)
    requires i <= a <= b <= j <= |s| && AllIn(s[i..j], cls)
    ensures AllIn(s[a..b], cls)
  {
    forall k | 0 <= k < b - a
      ensures InClass(s[a..b][k], cls)
    {
      assert s[a..b][k] == s[i..j][k + a - i];
    }
  }

  /** `not s.strip()`: the string is empty or whitespace only. */
  /** Where the characters of a + [c] + b sit. */
  lemma JoinedLayout(a: string, c: char, b: string)
    ensures |a + [c] + b| == |a| + 1 + |b| && (a + [c] + b)[|a|] == c
    ensures forall k :: 0 <= k < |a| ==> (a + [c] + b)[k] == a[k]
    ensures forall k :: 0 <= k < |b| ==> (a + [c] + b)[|a| + 1 + k] == b[k]
  {
  }

  predicate IsBlank(s: string) {
    AllIn(s, Space)
  }

  /** s[i:].startswith(pat) */
  predicate StartsAt(s: string, i: nat, pat: string) {
    i + |pat| <= |s| && s[i..i + |pat|] == pat
  }

  /** `pat in s` */
  predicate Contains(s: string, pat: string) {
    exists i :: 0 <= i <= |s| && StartsAt(s, i, pat)
  }

  /** The end of the longest run of characters of a class that starts at i. */
  function RunEnd(s: string, i: nat, cls: CharClass): (j: nat)
    requires i <= |s|
    ensures i <= j <= |s|
    ensures AllIn(s[i..j], cls)
    ensures j < |s| ==> !InClass(s[j], cls)
    decreases |s| - i
  {
    if i == |s| || !InClass(s[i], cls) then i
    else
      var j := RunEnd(s, i + 1, cls);
      assert forall k :: 1 <= k < j - i ==> s[i..j][k] == s[i + 1..j][k - 1];
      j
  }

  /** A run that ends where the class stops is the run RunEnd finds. */
  lemma RunEndIs(s: string, i: nat, cls: CharClass, j: nat)
    requires i <= j <= |s|
    requires forall k :: i <= k < j ==> InClass(s[k], cls)
    requires j < |s| ==> !InClass(s[j], cls)
    ensures RunEnd(s, i, cls) == j
  {
    var r := RunEnd(s, i, cls);
  }

  /** The same, for a run given as a slice of s. */
  lemma RunOverSlice(line: string, i: nat, j: nat, cls: CharClass)
    requires i <= j <= |line| && AllIn(line[i..j], cls)
    requires j < |line| ==> !InClass(line[j], cls)
    ensures RunEnd(line, i, cls) == j
  {
    assert forall k :: i <= k < j ==> line[k] == line[i..j][k - i];
    RunEndIs(line, i, cls, j);
  }

  function SkipSpace(s: string, i: nat): (j: nat)
    requires i <= |s|
    ensures i <= j <= |s|
    ensures AllIn(s[i..j], Space)
    ensures j < |s| ==> !IsSpace(s[j])
  {
    RunEnd(s, i, Space)
  }

  // ---------------------------------------------------------------- lines

  /** The first line break at or after i, or |s|. */
  function LineEnd(s: string, i: nat): (e: nat)
    requires i <= |s|
    ensures i <= e <= |s|
    ensures forall k :: i <= k < e ==> !IsLineBreak(s[k])
    ensures e < |s| ==> IsLineBreak(s[e])
    decreases |s| - i
  {
    if i == |s| || IsLineBreak(s[i]) then i else LineEnd(s, i + 1)
  }

  /** str.splitlines(): the lines without their terminators; no empty line after a final break.
      The first line runs to the first break; the others are the lines of the text after it. */
  function SplitLines(s: string): (lines: seq<string>)
    ensures s == [] ==> lines == []
    ensures forall n :: 0 <= n < |lines| ==> forall k :: 0 <= k < |lines[n]| ==> !IsLineBreak(lines[n][k])
    decreases |s|
  {
    if s == [] then []
    else
      var e := LineEnd(s, 0);
      assert forall k :: 0 <= k < e ==> s[..e][k] == s[k];
      [s[..e]] + SplitLines(s[NextLineStart(s, e)..])
  }

  /** Where the line after a line ending at e starts: past "\r\n", past one break, or at the end. */
  function NextLineStart(s: string, e: nat): (n: nat)
    requires e <= |s|
    ensures e <= n <= |s|
    ensures e < |s| ==> e < n
  {
    if e + 1 < |s| && s[e] == '\r' && s[e + 1] == '\n' then e + 2
    else if e < |s| then e + 1 else e
  }

  /** Text without a line break is a single line, or no line when it is empty. */
  lemma SplitLinesOfOneLine(line: string)
    requires forall k :: 0 <= k < |line| ==> !IsLineBreak(line[k])
    ensures SplitLines(line) == if line == [] then [] else [line]
  {
    if line != [] {
      assert LineEnd(line, 0) == |line|;
      assert line[..|line|] == line;
    }
  }

  /** A line ended by "\n" or "\r\n" is the first line, and splitting goes on after its end. */
  lemma SplitLinesCons(line: string, br: string, rest: string)
    requires forall k :: 0 <= k < |line| ==> !IsLineBreak(line[k])
    requires br == "\n" || br == "\r\n"
    ensures SplitLines(line + br + rest) == [line] + SplitLines(rest)
  {
    SplitLinesOfLayout(line + br + rest, line, br, rest);
  }

  /** SplitLinesCons on a text s laid out, index by index, as line, br and rest. */
  lemma SplitLinesOfLayout(s: string, line: string, br: string, rest: string)
    requires forall k :: 0 <= k < |line| ==> !IsLineBreak(line[k])
    requires br == "\n" || br == "\r\n"
    requires |s| == |line| + |br| + |rest|
    requires forall k :: 0 <= k < |line| ==> s[k] == line[k]
    requires forall k :: 0 <= k < |br| ==> s[|line| + k] == br[k]
    requires forall k :: 0 <= k < |rest| ==> s[|line| + |br| + k] == rest[k]
    ensures SplitLines(s) == [line] + SplitLines(rest)
  {
    var e := |line|;
    assert LineEnd(s, 0) == e by {
      assert s[e] == br[0];
    }
    assert NextLineStart(s, e) == e + |br| by {
      assert s[e] == br[0];
      if br == "\r\n" {
        assert s[e + 1] == br[1];
      }
    }
    assert s[..e] == line;
    assert s[e + |br|..] == rest;
  }

  // ---------------------------------------------------------------- tokens

  /** The [start, end) positions of the whitespace-separated tokens of s[i..]. */
  function SpansFrom(s: string, i: nat): (sp: seq<(nat, nat)>)
    requires i <= |s|
    ensures forall k :: 0 <= k < |sp| ==> i <= sp[k].0 < sp[k].1 <= |s|
    ensures forall k :: 0 < k < |sp| ==> sp[k - 1].1 < sp[k].0
    decreases |s| - i
  {
    var j := SkipSpace(s, i);
    if j == |s| then []
    else [(j, RunEnd(s, j, NonSpace))] + SpansFrom(s, RunEnd(s, j, NonSpace))
  }

  function Spans(s: string): (sp: seq<(nat, nat)>)
    ensures forall k :: 0 <= k < |sp| ==> sp[k].0 < sp[k].1 <= |s|
    ensures forall k :: 0 < k < |sp| ==> sp[k - 1].1 < sp[k].0
  {
    SpansFrom(s, 0)
  }

  /** A token holds no whitespace, and the character after it, if any, is whitespace. */
  lemma {:induction false} SpanIsNonSpaceRun(s: string, i: nat, k: nat)
    requires i <= |s| && k < |SpansFrom(s, i)|
    ensures var sp := SpansFrom(s, i);
      && (forall c :: sp[k].0 <= c < sp[k].1 ==> !IsSpace(s[c]))
      && (sp[k].1 < |s| ==> IsSpace(s[sp[k].1]))
    decreases |s| - i
  {
    var j := SkipSpace(s, i);
    var e := RunEnd(s, j, NonSpace);
    if k > 0 {
      SpanIsNonSpaceRun(s, e, k - 1);
    }
  }

  /** Only whitespace lies between a token and the token before it (or i). */
  lemma {:induction false} SpaceBeforeSpan(s: string, i: nat, k: nat)
    requires i <= |s| && k < |SpansFrom(s, i)|
    ensures var sp := SpansFrom(s, i);
      forall c :: (if k == 0 then i else sp[k - 1].1) <= c < sp[k].0 ==> IsSpace(s[c])
    decreases |s| - i
  {
    var j := SkipSpace(s, i);
    var e := RunEnd(s, j, NonSpace);
    if k > 0 {
      SpaceBeforeSpan(s, e, k - 1);
    } else {
      assert forall c :: i <= c < j ==> s[c] == s[i..j][c - i];
    }
  }

  /** A token is a maximal run of non-whitespace: it holds no whitespace, the characters next
      to it are whitespace, and so is everything between it and the token before it (or i). */
  lemma SpanIsMaximalRun(s: string, i: nat, k: nat)
    requires i <= |s| && k < |SpansFrom(s, i)|
    ensures var sp := SpansFrom(s, i);
      && (forall c :: sp[k].0 <= c < sp[k].1 ==> !IsSpace(s[c]))
      && (sp[k].1 < |s| ==> IsSpace(s[sp[k].1]))
      && (forall c :: (if k == 0 then i else sp[k - 1].1) <= c < sp[k].0 ==> IsSpace(s[c]))
      && (sp[k].0 > i ==> IsSpace(s[sp[k].0 - 1]))
  {
    SpanIsNonSpaceRun(s, i, k);
    SpaceBeforeSpan(s, i, k);
  }

  /** No token is dropped: every non-whitespace character after i lies in some token. */
  lemma {:induction false} NonSpaceIsInSomeToken(s: string, i: nat, c: nat) returns (k: nat)
    requires i <= c < |s| && !IsSpace(s[c])
    ensures k < |SpansFrom(s, i)| && SpansFrom(s, i)[k].0 <= c < SpansFrom(s, i)[k].1
    decreases |s| - i
  {
    var j := SkipSpace(s, i);
    var e := RunEnd(s, j, NonSpace);
    if c < e {
      k := 0;
    } else {
      var k' := NonSpaceIsInSomeToken(s, e, c);
      k := k' + 1;
    }
  }

  /** Only whitespace follows the last token; a string without tokens is blank. */
  lemma {:induction false} SpaceAfterLastSpan(s: string, i: nat)
    requires i <= |s|
    ensures var sp := SpansFrom(s, i);
      && (sp == [] ==> forall c :: i <= c < |s| ==> IsSpace(s[c]))
      && (sp != [] ==> forall c :: sp[|sp| - 1].1 <= c < |s| ==> IsSpace(s[c]))
    decreases |s| - i
  {
    var j := SkipSpace(s, i);
    if j < |s| {
      SpaceAfterLastSpan(s, RunEnd(s, j, NonSpace));
    }
  }

  /** str.split() with no separator: the maximal runs of non-whitespace characters. */
  function Tokens(s: string): (toks: seq<string>)
    ensures |toks| == |Spans(s)|
    ensures forall k :: 0 <= k < |toks| ==> toks[k] == s[Spans(s)[k].0..Spans(s)[k].1]
  {
    var sp := Spans(s);
    seq(|sp|, k requires 0 <= k < |sp| => s[sp[k].0..sp[k].1])
  }

  /** Every token is non-empty and free of whitespace. */
  lemma TokenIsWord(s: string, k: nat)
    requires k < |Tokens(s)|
    ensures |Tokens(s)[k]| > 0 && AllIn(Tokens(s)[k], NonSpace)
  {
    SpanIsMaximalRun(s, 0, k);
  }

  /** The tokens of s[i..] read one at a time: str.split() as a recursion. */
  function WordsFrom(s: string, i: nat): (ws: seq<string>)
    requires i <= |s|
    decreases |s| - i
  {
    var j := SkipSpace(s, i);
    if j == |s| then [] else [s[j..RunEnd(s, j, NonSpace)]] + WordsFrom(s, RunEnd(s, j, NonSpace))
  }

  lemma {:induction false} WordsAreSpanSlices(s: string, i: nat)
    requires i <= |s|
    ensures var sp, ws := SpansFrom(s, i), WordsFrom(s, i);
      |ws| == |sp| && forall k :: 0 <= k < |ws| ==> ws[k] == s[sp[k].0..sp[k].1]
    decreases |s| - i
  {
    var j := SkipSpace(s, i);
    if j < |s| {
      WordsAreSpanSlices(s, RunEnd(s, j, NonSpace));
    }
  }

  lemma TokensAreWords(s: string)
    ensures Tokens(s) == WordsFrom(s, 0)
  {
    WordsAreSpanSlices(s, 0);
  }

  /** A run in s from d + j is the run in the suffix s[d..] from j, shifted by d. */
  lemma RunEndSuffix(s: string, d: nat, t: string, j: nat, cls: CharClass)
    requires d <= |s| && s[d..] == t && j <= |t|
    ensures RunEnd(s, d + j, cls) == d + RunEnd(t, j, cls)
  {
    var e := RunEnd(t, j, cls);
    forall k | d + j <= k < d + e
      ensures InClass(s[k], cls)
    {
      assert s[k] == t[k - d] == t[j..e][k - d - j];
    }
    if e < |t| {
      assert s[d + e] == t[e];
    }
    RunEndIs(s, d + j, cls, d + e);
  }

  /** Splitting s from d + j splits the suffix s[d..] from j. */
  lemma {:induction false} WordsFromSuffix(s: string, d: nat, t: string, j: nat)
    requires d <= |s| && s[d..] == t && j <= |t|
    ensures WordsFrom(s, d + j) == WordsFrom(t, j)
    decreases |t| - j
  {
    var a := SkipSpace(t, j);
    RunEndSuffix(s, d, t, j, Space);
    if a == |t| {
      assert WordsFrom(t, j) == [] && WordsFrom(s, d + j) == [];
    } else {
      var e := RunEnd(t, a, NonSpace);
      RunEndSuffix(s, d, t, a, NonSpace);
      SliceOfSuffix(s, d, t, a, e);
      WordsFromSuffix(s, d, t, e);
      WordsFromStep(s, d + j, d + a, d + e, t, j, a, e);
    }
  }

  /** Two texts whose first words are equal and whose words after them agree have the same
      words. */
  lemma WordsFromStep(s: string, i: nat, a: nat, e: nat, t: string, j: nat, b: nat, f: nat)
    requires i <= |s| && SkipSpace(s, i) == a < |s| && RunEnd(s, a, NonSpace) == e
    requires j <= |t| && SkipSpace(t, j) == b < |t| && RunEnd(t, b, NonSpace) == f
    requires s[a..e] == t[b..f] && WordsFrom(s, e) == WordsFrom(t, f)
    ensures WordsFrom(s, i) == WordsFrom(t, j)
  {
  }

  /** A slice of the suffix s[d..] is the slice of s shifted by d. */
  lemma SliceOfSuffix(s: string, d: nat, t: string, a: nat, e: nat)
    requires d <= |s| && s[d..] == t && a <= e <= |t|
    ensures s[d + a..d + e] == t[a..e]
  {
    forall k | 0 <= k < e - a
      ensures s[d + a..d + e][k] == t[a..e][k]
    {
      assert t[a + k] == s[d..][a + k];
    }
  }

  /** A word followed by a space is the first token; the others are the tokens after the space. */
  lemma TokensCons(w: string, rest: string)
    requires w != [] && AllIn(w, NonSpace)
    ensures Tokens(w + " " + rest) == [w] + Tokens(rest)
  {
    JoinedLayout(w, ' ', rest);
    TokensAreWords(w + " " + rest);
    TokensAreWords(rest);
    WordsOfLayout(w + " " + rest, w, rest);
  }

  /** TokensCons on a text s laid out, index by index, as w, ' ' and rest. */
  lemma WordsOfLayout(s: string, w: string, rest: string)
    requires w != [] && AllIn(w, NonSpace)
    requires |s| == |w| + 1 + |rest| && s[|w|] == ' '
    requires forall k :: 0 <= k < |w| ==> s[k] == w[k]
    requires forall k :: 0 <= k < |rest| ==> s[|w| + 1 + k] == rest[k]
    ensures WordsFrom(s, 0) == [w] + WordsFrom(rest, 0)
  {
    RunEndIs(s, 0, Space, 0);
    RunEndIs(s, 0, NonSpace, |w|);
    assert s[0..|w|] == w;
    assert SkipSpace(s, |w|) == SkipSpace(s, |w| + 1);
    assert s[|w| + 1..] == rest;
    WordsFromSuffix(s, |w| + 1, rest, 0);
  }

  /** A single word is its own only token. */
  lemma TokensOfWord(w: string)
    requires w != [] && AllIn(w, NonSpace)
    ensures Tokens(w) == [w]
  {
    TokensAreWords(w);
    RunEndIs(w, 0, Space, 0);
    RunEndIs(w, 0, NonSpace, |w|);
    assert w[0..|w|] == w;
  }

  /** " ".join(ws). */
  function JoinWords(ws: seq<string>): string {
    if ws == [] then [] else if |ws| == 1 then ws[0] else ws[0] + " " + JoinWords(ws[1..])
  }

  /** Splitting words joined by single spaces gives the words back. */
  lemma {:induction false} TokensOfJoin(ws: seq<string>)
    requires forall k :: 0 <= k < |ws| ==> ws[k] != [] && AllIn(ws[k], NonSpace)
    ensures Tokens(JoinWords(ws)) == ws
  {
    if ws == [] {
    } else if |ws| == 1 {
      TokensOfWord(ws[0]);
    } else {
      TokensCons(ws[0], JoinWords(ws[1..]));
      TokensOfJoin(ws[1..]);
      assert ws == [ws[0]] + ws[1..];
    }
  }

  // ---------------------------------------------------------------- ANSI

  const Esc: char := '\U{1B}'

  predicate IsCsiFinal(c: char) { '@' <= c <= '~' }         // [@-~]

  /** \x1B\[[0-?]*[ -/]*[@-~] matches s[i..i + n]: ESC, '[', parameter bytes up to p,
      intermediate bytes up to the final byte, and the final byte. */
  predicate IsCsiAt(s: string, i: nat, n: nat) {
    && 3 <= n && i + n <= |s| && s[i] == Esc && s[i + 1] == '['
    && IsCsiFinal(s[i + n - 1])
    && exists p :: i + 2 <= p < i + n && CsiBody(s, i, n, p)
  }

  /** Parameter bytes in s[i + 2..p], then intermediate bytes up to the final byte at i + n - 1. */
  predicate CsiBody(s: string, i: nat, n: nat, p: nat) {
    && i + 2 <= p <= i + n - 1 && i + n <= |s|
    && AllIn(s[i + 2..p], CsiParameter) && AllIn(s[p..i + n - 1], CsiIntermediate)
  }

  /** The length of the match of \x1B\[[0-?]*[ -/]*[@-~] at position i, or 0 when there is none.
      The three classes are disjoint, so the greedy runs never need to give a character back. */
  function CsiLength(s: string, i: nat): (n: nat)
    requires i <= |s|
    ensures i + n <= |s|
    ensures n > 0 ==> IsCsiAt(s, i, n)
  {
    if i + 1 < |s| && s[i] == Esc && s[i + 1] == '[' then
      var p := RunEnd(s, i + 2, CsiParameter);
      var q := RunEnd(s, p, CsiIntermediate);
      if q < |s| && IsCsiFinal(s[q]) then
        assert CsiBody(s, i, q + 1 - i, p);
        q + 1 - i
      else 0
    else 0
  }

  /** A control sequence at i is the one CsiLength finds: the match is unique, because each
      class stops where the next begins. */
  lemma CsiMatchIsFound(s: string, i: nat, m: nat)
    requires IsCsiAt(s, i, m)
    ensures CsiLength(s, i) == m
  {
    var p :| i + 2 <= p < i + m && CsiBody(s, i, m, p);
    if p < i + m - 1 {
      assert s[p] == s[p..i + m - 1][0];
    }
    RunOverSlice(s, i + 2, p, CsiParameter);
    RunOverSlice(s, p, i + m - 1, CsiIntermediate);
  }

  /** Where the scan goes after position i: past the control sequence, or past one character. */
  function NextAfter(s: string, i: nat): (j: nat)
    requires i < |s|
    ensures i < j <= |s|
  {
    if CsiLength(s, i) > 0 then i + CsiLength(s, i) else i + 1
  }

  /** What the scan keeps of s[i..NextAfter(s, i)]: nothing from a control sequence. */
  function KeptAt(s: string, i: nat): (r: string)
    requires i < |s|
  {
    if CsiLength(s, i) > 0 then [] else [s[i]]
  }

  /** re.sub of the CSI pattern by '' on s[i..]: scanning left to right, every match is dropped
      and every other character is kept. */
  function StripAnsiFrom(s: string, i: nat): (r: string)
    requires i <= |s|
    ensures |r| <= |s| - i
    decreases |s| - i
  {
    if i == |s| then [] else KeptAt(s, i) + StripAnsiFrom(s, NextAfter(s, i))
  }

  /** Stripping only deletes characters: the result's characters are drawn from the input's. */
  lemma {:induction false} StripAnsiFromOnlyDeletes(s: string, i: nat)
    requires i <= |s|
    ensures multiset(StripAnsiFrom(s, i)) <= multiset(s[i..])
    decreases |s| - i
  {
    if i == |s| {
      assert StripAnsiFrom(s, i) == [];
    } else {
      var j := NextAfter(s, i);
      StripAnsiFromOnlyDeletes(s, j);
      KeptIsDrawnFrom(s, i);
      assert s[i..] == s[i..j] + s[j..];
      AppendMultisetLe(KeptAt(s, i), StripAnsiFrom(s, j), s[i..j], s[j..]);
    }
  }

  lemma KeptIsDrawnFrom(s: string, i: nat)
    requires i < |s|
    ensures multiset(KeptAt(s, i)) <= multiset(s[i..NextAfter(s, i)])
  {
    if CsiLength(s, i) == 0 {
      assert s[i..NextAfter(s, i)] == [s[i]];
    }
  }

  lemma AppendMultisetLe(a: string, b: string, c: string, d: string)
    requires multiset(a) <= multiset(c) && multiset(b) <= multiset(d)
    ensures multiset(a + b) <= multiset(c + d)
  {
  }

  /** Text without an ESC character is returned unchanged. */
  lemma {:induction false} StripAnsiFromKeepsPlainText(s: string, i: nat)
    requires i <= |s|
    requires forall k :: i <= k < |s| ==> s[k] != Esc
    ensures StripAnsiFrom(s, i) == s[i..]
    decreases |s| - i
  {
    if i < |s| {
      assert CsiLength(s, i) == 0;
      StripAnsiFromKeepsPlainText(s, i + 1);
      assert s[i..] == [s[i]] + s[i + 1..];
    }
  }

  /** A control sequence that starts at i is dropped whole. */
  lemma StripAnsiDropsSequence(s: string, i: nat, m: nat)
    requires IsCsiAt(s, i, m)
    ensures StripAnsiFrom(s, i) == StripAnsiFrom(s, i + m)
  {
    CsiMatchIsFound(s, i, m);
  }

  /** A character at which no control sequence starts is kept. */
  lemma StripAnsiKeepsChar(s: string, i: nat)
    requires i < |s| && forall m :: !IsCsiAt(s, i, m)
    ensures StripAnsiFrom(s, i) == [s[i]] + StripAnsiFrom(s, i + 1)
  {
  }

  /** strip_ansi (diagnose.py:400-403): never lengthens the text, only deletes characters,
      and leaves text without an ESC character unchanged. */
  function StripAnsi(s: string): (r: string)
    ensures |r| <= |s|
    ensures multiset(r) <= multiset(s)
    ensures (forall k :: 0 <= k < |s| ==> s[k] != Esc) ==> r == s
  {
    assert s[0..] == s;
    StripAnsiFromOnlyDeletes(s, 0);
    if forall k :: 0 <= k < |s| ==> s[k] != Esc then
      StripAnsiFromKeepsPlainText(s, 0);
      StripAnsiFrom(s, 0)
    else StripAnsiFrom(s, 0)
  }

  /** A colour code is removed. */
  lemma StripAnsiRemovesColour()
    ensures StripAnsi("\U{1B}[1mX") == "X"
  {
    var a := "\U{1B}[1mX";
    assert CsiBody(a, 0, 4, 3);
    StripAnsiDropsSequence(a, 0, 4);
    assert CsiLength(a, 4) == 0;
    assert StripAnsiFrom(a, 4) == [a[4]] + StripAnsiFrom(a, 5);
  }

  /** The scan is a single pass: removing an inner sequence can leave a new one behind. */
  lemma StripAnsiIsOnePass()
    ensures StripAnsi("\U{1B}[\U{1B}[1mm") == "\U{1B}[m"
  {
    var b := "\U{1B}[\U{1B}[1mm";
    OnePassKeepsHead(b);
    OnePassDropsInner(b);
  }

  lemma OnePassKeepsHead(b: string)
    requires b == "\U{1B}[\U{1B}[1mm"
    ensures StripAnsiFrom(b, 0) == "\U{1B}[" + StripAnsiFrom(b, 2)
  {
    assert RunEnd(b, 2, CsiParameter) == 2 && RunEnd(b, 2, CsiIntermediate) == 2;
    assert CsiLength(b, 0) == 0 && CsiLength(b, 1) == 0;
  }

  lemma OnePassDropsInner(b: string)
    requires b == "\U{1B}[\U{1B}[1mm"
    ensures StripAnsiFrom(b, 2) == "m"
  {
    assert CsiBody(b, 2, 4, 5);
    StripAnsiDropsSequence(b, 2, 4);
    assert CsiLength(b, 6) == 0;
  }
}
