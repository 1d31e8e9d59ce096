/** The process-table parser, collect_cpu_stats_from_raw (diagnose.py:405-443): blank
    lines are dropped and the others stripped of ANSI sequences, the first line holding
    the `PID USER` and `[%CPU]` column titles is the header, and every later line is
    tried against a strict row pattern and then, only if that fails, a loose one. */
module CpuParser {
  import opened Text
  import opened Numbers
  import opened Records

  // ------------------------------------------------------------ header

  /** re.search(r'PID\s+USER', line) finds a match at i. */
  predicate PidUserAt(line: string, i: nat) {
    StartsAt(line, i, "PID") &&
    var j := SkipSpace(line, i + 3); j > i + 3 && StartsAt(line, j, "USER")
  }

  /** The header test of diagnose.py:411. */
  predicate IsHeader(line: string) {
    (exists i :: 0 <= i <= |line| && PidUserAt(line, i)) && Contains(line, "[%CPU]")
  }

  /** [strip_ansi(line) for line in lines if line.strip()] (diagnose.py:407). */
  function KeptLines(lines: seq<string>): (kept: seq<string>)
    ensures |kept| <= |lines|
  {
    if lines == [] then [] else KeptOf(lines[0]) + KeptLines(lines[1..])
  }

  /** What one line contributes to the comprehension: nothing, or the line without escapes. */
  function KeptOf(line: string): seq<string> {
    if IsBlank(line) then [] else [StripAnsi(line)]
  }

  /** Filtering and stripping work line by line: a split text keeps its parts' lines, in order. */
  lemma {:induction false} KeptLinesAppend(a: seq<string>, b: seq<string>)
    ensures KeptLines(a + b) == KeptLines(a) + KeptLines(b)
    decreases |a|
  {
    if a == [] {
      assert a + b == b;
    } else {
      assert (a + b)[0] == a[0] && (a + b)[1..] == a[1..] + b;
      KeptLinesAppend(a[1..], b);
    }
  }

  /** A blank line is dropped; any other line is kept with its ANSI sequences removed. */
  lemma KeptLinesOne(line: string)
    ensures KeptLines([line]) == if IsBlank(line) then [] else [StripAnsi(line)]
  {
    assert [line][1..] == [];
  }

  /** The index of the first header line at or after i (the search loop of diagnose.py:410-413). */
  function FirstHeader(lines: seq<string>, i: nat): (h: Option<nat>)
    requires i <= |lines|
    ensures h.Some? ==> i <= h.value < |lines| && IsHeader(lines[h.value])
    ensures forall j :: i <= j < |lines| && (h.None? || j < h.value) ==> !IsHeader(lines[j])
    decreases |lines| - i
  {
    if i == |lines| then None
    else if IsHeader(lines[i]) then Some(i)
    else FirstHeader(lines, i + 1)
  }

  // ------------------------------------------------------------ rows

  /** The groups captured by a row pattern. */
  datatype RowFields = RowFields(pid: string, user: string, cpu: string, mem: string, time: string, name: string)

  /** What the groups of either pattern can hold. */
  predicate RowShape(f: RowFields) {
    && |f.pid| > 0 && AllIn(f.pid, Digit)
    && |f.user| > 0 && AllIn(f.user, NonSpace)
    && |f.cpu| > 0 && AllIn(f.cpu, DecimalChar)
    && |f.mem| > 0 && AllIn(f.mem, DecimalChar)
    && |f.time| > 0 && AllIn(f.time, ClockChar)
    && |f.name| > 0
  }

  /** The part both patterns share: \s*(\d+)\s+(\S+), six \s+\S+, then \s+([\d.]+)\s+([\d.]+)\s+([\d:]+).
      Every \S+ is followed by \s+ and every \s+ by a non-space, so each field is a whole token. */
  predicate LeadingFieldsMatch(toks: seq<string>) {
    && |toks| >= 11
    && AllIn(toks[0],  Digit)
    && AllIn(toks[8], DecimalChar)
    && AllIn(toks[9], DecimalChar)
    && AllIn(toks[10], ClockChar)
  }

  function FieldsWithName(toks: seq<string>, name: string): RowFields
    requires |toks| >= 11
  {
    RowFields(toks[0], toks[1], toks[8], toks[9], toks[10], name)
  }

  /** The strict pattern (diagnose.py:419), ending in \s+(\S+): the name is the twelfth token and,
      as re.match does not anchor at the end, whatever follows it is ignored. */
  function StrictMatch(line: string): (m: Option<RowFields>)
    ensures m.Some? <==> LeadingFieldsMatch(Tokens(line)) && |Tokens(line)| >= 12
    ensures m.Some? ==> RowShape(m.value)
    ensures m.Some? ==> var toks := Tokens(line);
      m.value == RowFields(toks[0], toks[1], toks[8], toks[9], toks[10], toks[11])
  {
    var toks := Tokens(line);
    if LeadingFieldsMatch(toks) && |toks| >= 12 then
      TokenIsWord(line, 1);
      Some(FieldsWithName(toks, toks[11]))
    else None
  }

  /** name is the end of line, and between position e and it lies whitespace, at least one character. */
  predicate TailAfterSpace(line: string, e: nat, name: string) {
    && e < |line| - |name|
    && name == line[|line| - |name|..]
    && forall c :: e <= c < |line| - |name| ==> IsSpace(line[c])
  }

  /** The loose pattern (diagnose.py:432), ending in \s+(.+): the name is the rest of the line from
      the first non-space after TIME, with at least one whitespace character before it. When only
      whitespace follows TIME, the greedy \s+ gives its last character back so that .+ can match it. */
  function LooseMatch(line: string): (m: Option<RowFields>)
    ensures m.Some? <==> LeadingFieldsMatch(Tokens(line)) && (|Tokens(line)| >= 12 || |line| - Spans(line)[10].1 >= 2)
    ensures m.Some? ==> RowShape(m.value)
    ensures m.Some? ==> var toks, name := Tokens(line), m.value.name;
      && m.value == FieldsWithName(toks, name)
      && TailAfterSpace(line, Spans(line)[10].1, name)
      && (|toks| >= 12 ==> !IsSpace(name[0]))
  {
    var toks, sp := Tokens(line), Spans(line);
    if !LeadingFieldsMatch(toks) then None
    else
      TokenIsWord(line, 1);
      if |toks| >= 12 then
        LooseNameAfterTwelve(line);
        Some(FieldsWithName(toks, line[sp[11].0..]))
      else if |line| - sp[10].1 >= 2 then
        LooseNameAfterEleven(line);
        Some(FieldsWithName(toks, line[|line| - 1..]))
      else None
  }

  lemma LooseNameAfterTwelve(line: string)
    requires |Spans(line)| >= 12
    ensures var sp := Spans(line); var name := line[sp[11].0..];
      TailAfterSpace(line, sp[10].1, name) && !IsSpace(name[0])
  {
    SpanIsMaximalRun(line, 0, 11);
  }

  lemma LooseNameAfterEleven(line: string)
    requires |Spans(line)| == 11 && |line| - Spans(line)[10].1 >= 2
    ensures TailAfterSpace(line, Spans(line)[10].1, line[|line| - 1..])
  {
    SpaceAfterLastSpan(line, 0);
  }

  /** The conversions int(pid), float(cpu), float(mem); float raises on a token such as "1.2.3". */
  function ToProcess(f: RowFields): (r: Result<Process>)
    requires RowShape(f)
    ensures r.Success? <==> IsPlainDecimal(f.cpu) && IsPlainDecimal(f.mem)
    ensures r.Failure? ==> r.error == ValueError(if IsPlainDecimal(f.cpu) then f.mem else f.cpu)
    ensures r.Success? ==> var p := r.value;
      && p.pid == DigitsValue(f.pid) && p.user == f.user && p.time == f.time && p.name == f.name
      && p.cpu == ParseDecimal(f.cpu).value && p.mem == ParseDecimal(f.mem).value
      && p.cpu >= 0.0 && p.mem >= 0.0
  {
    match ParseDecimal(f.cpu)
    case None => Failure(ValueError(f.cpu))
    case Some(cpu) =>
      match ParseDecimal(f.mem)
      case None => Failure(ValueError(f.mem))
      case Some(mem) => Success(Process(DigitsValue(f.pid), f.user, cpu, mem, f.time, f.name))
  }

  /** A process whose fields came out of a row match. */
  predicate ProcessShape(p: Process) {
    && p.cpu >= 0.0 && p.mem >= 0.0
    && |p.user| > 0 && AllIn(p.user, NonSpace)
    && |p.time| > 0 && AllIn(p.time, ClockChar)
    && |p.name| > 0
  }

  function Lift(r: Result<Process>): Result<Option<Process>> {
    match r
    case Success(p) => Success(Some(p))
    case Failure(e) => Failure(e)
  }

  /** One pass of the loop body at diagnose.py:418-442. */
  function ParseRow(line: string): (r: Result<Option<Process>>)
    ensures r.Success? && r.value.Some? ==> ProcessShape(r.value.value)
  {
    match StrictMatch(line)
    case Some(f) => Lift(ToProcess(f))
    case None =>
      match LooseMatch(line)
      case Some(f) => Lift(ToProcess(f))
      case None => Success(None)
  }

  /** The strict pattern is tried first and the loose one only when it fails; a row that matches
      neither is skipped, and one that matches has its numbers converted. */
  lemma ParseRowTriesStrictFirst(line: string)
    ensures StrictMatch(line).Some? ==> ParseRow(line) == Lift(ToProcess(StrictMatch(line).value))
    ensures StrictMatch(line).None? && LooseMatch(line).Some? ==> ParseRow(line) == Lift(ToProcess(LooseMatch(line).value))
    ensures StrictMatch(line).None? && LooseMatch(line).None? ==> ParseRow(line) == Success(None)
  {
  }

  /** The outcome of the loop body for every line. */
  function ParsedRows(lines: seq<string>): (rows: seq<Result<Option<Process>>>)
    ensures |rows| == |lines|
    ensures forall k {:trigger rows[k]} :: 0 <= k < |lines| ==> rows[k] == ParseRow(lines[k])
  {
    seq(|lines|, k requires 0 <= k < |lines| => ParseRow(lines[k]))
  }

  /** The records of the outcomes rows[i..], or the error of the first row that raises. */
  function RowsFrom(rows: seq<Result<Option<Process>>>, i: nat): (r: Result<seq<Process>>)
    requires i <= |rows|
    ensures r.Success? ==> |r.value| <= |rows| - i
    decreases |rows| - i
  {
    if i == |rows| then Success([])
    else
      match rows[i]
      case Failure(e) => Failure(e)
      case Success(None) => RowsFrom(rows, i + 1)
      case Success(Some(p)) => Prepend([p], RowsFrom(rows, i + 1))
  }

  /** What collect_cpu_stats_from_raw returns, or the ValueError it raises. */
  function CpuStats(raw: string): Result<seq<Process>> {
    var lines := KeptLines(SplitLines(raw));
    match FirstHeader(lines, 0)
    case None => Success([])
    case Some(h) => RowsFrom(ParsedRows(lines), h + 1)
  }

  /** collect_cpu_stats_from_raw (diagnose.py:405-443): the header search, then the row loop. */
  method CollectCpuStatsFromRaw(raw: string) returns (r: Result<seq<Process>>)
    ensures r == CpuStats(raw)
  {
    var lines := KeptLines(SplitLines(raw));
    var headerIdx: Option<nat> := None;
    var i := 0;
    while i < |lines|
      invariant 0 <= i <= |lines|
      invariant headerIdx == None
      invariant FirstHeader(lines, i) == FirstHeader(lines, 0)
    {
      if IsHeader(lines[i]) {
        headerIdx := Some(i);
        break;
      }
      i := i + 1;
    }
    if headerIdx == None {
      return Success([]);
    }
    r := CollectRows(lines, headerIdx.value + 1);
  }

  /** The row loop of diagnose.py:417-442 over lines[start..]. */
  method CollectRows(lines: seq<string>, start: nat) returns (r: Result<seq<Process>>)
    requires start <= |lines|
    ensures r == RowsFrom(ParsedRows(lines), start)
  {
    ghost var rows := ParsedRows(lines);
    var processes: seq<Process> := [];
    var k := start;
    while k < |lines|
      invariant start <= k <= |lines| == |rows|
      invariant RowsFrom(rows, start) == Prepend(processes, RowsFrom(rows, k))
    {
      var row := ParseRowAt(lines, k);
      if row.Failure? {
        return Failure(row.error);
      }
      if row.value.Some? {
        PrependTwice(processes, [row.value.value], RowsFrom(rows, k + 1));
        processes := processes + [row.value.value];
      }
      k := k + 1;
    }
    assert processes + [] == processes;
    return Success(processes);
  }

  /** The loop body's two searches on line k. */
  method ParseRowAt(lines: seq<string>, k: nat) returns (row: Result<Option<Process>>)
    requires k < |lines|
    ensures row == ParsedRows(lines)[k]
  {
    row := ParseRow(lines[k]);
  }

  // ------------------------------------------------------------ properties

  /** The records are exactly the rows that matched, in row order: an increasing index for each
      record, and every row left out matched neither pattern. */
  lemma {:induction false} RowsInOrder(rows: seq<Result<Option<Process>>>, i: nat) returns (idx: seq<nat>)
    requires i <= |rows|
    requires RowsFrom(rows, i).Success?
    ensures |idx| == |RowsFrom(rows, i).value|
    ensures forall k :: 0 <= k < |idx| ==>
      i <= idx[k] < |rows| && rows[idx[k]] == Success(Some(RowsFrom(rows, i).value[k]))
    ensures forall k, l :: 0 <= k < l < |idx| ==> idx[k] < idx[l]
    ensures forall j :: i <= j < |rows| && j !in idx ==> rows[j] == Success(None)
    decreases |rows| - i
  {
    if i == |rows| {
      idx := [];
    } else {
      var rest := RowsInOrder(rows, i + 1);
      match rows[i]
      case Success(None) =>
        idx := rest;
      case Success(Some(p)) =>
        idx := [i] + rest;
        assert forall k :: 0 < k < |idx| ==> idx[k] == rest[k - 1];
    }
  }

  /** The parse raises exactly when some row matches a pattern but holds a CPU% or MEM% token
      that float() rejects, and then with the error of the first such row. */
  lemma {:induction false} RowsFailExactly(rows: seq<Result<Option<Process>>>, i: nat)
    requires i <= |rows|
    ensures RowsFrom(rows, i).Failure? <==> exists j :: i <= j < |rows| && rows[j].Failure?
    decreases |rows| - i
  {
    if i < |rows| {
      RowsFailExactly(rows, i + 1);
      if rows[i].Success? {
        assert forall j :: i <= j < |rows| && rows[j].Failure? ==> i + 1 <= j;
      }
    }
  }

  /** No header, no records; with a header, the records are the matching rows after the first
      header, in their order. */
  lemma CpuStatsFollowFirstHeader(raw: string) returns (h: nat, idx: seq<nat>)
    requires CpuStats(raw).Success? && CpuStats(raw).value != []
    ensures var lines := KeptLines(SplitLines(raw));
      && h < |lines| && IsHeader(lines[h])
      && (forall j :: 0 <= j < h ==> !IsHeader(lines[j]))
      && |idx| == |CpuStats(raw).value|
      && (forall k :: 0 <= k < |idx| ==>
           h < idx[k] < |lines| && ParseRow(lines[idx[k]]) == Success(Some(CpuStats(raw).value[k])))
      && (forall k, l :: 0 <= k < l < |idx| ==> idx[k] < idx[l])
  {
    var lines := KeptLines(SplitLines(raw));
    h := FirstHeader(lines, 0).value;
    idx := RowsInOrder(ParsedRows(lines), h + 1);
    forall k | 0 <= k < |idx|
      ensures ParseRow(lines[idx[k]]) == ParsedRows(lines)[idx[k]]
    {
    }
  }

  /** Whenever the strict pattern matches a row, the loose one would match it too, with the same
      fields and a name that begins with the strict name followed by whitespace or the line's end:
      trying the strict pattern first cuts a name that contains spaces at its first word. */
  lemma StrictNameIsFirstWordOfLoose(line: string)
    requires StrictMatch(line).Some?
    ensures LooseMatch(line).Some?
    ensures var s, l := StrictMatch(line).value, LooseMatch(line).value;
      && s.pid == l.pid && s.user == l.user && s.cpu == l.cpu && s.mem == l.mem && s.time == l.time
      && StartsAt(l.name, 0, s.name)
      && (|l.name| > |s.name| ==> IsSpace(l.name[|s.name|]))
  {
    var sp := Spans(line);
    var s, l := StrictMatch(line).value, LooseMatch(line).value;
    SpanIsMaximalRun(line, 0, 11);
    assert s.name == line[sp[11].0..sp[11].1];
    assert l.name == line[sp[11].0..];
    assert l.name[..|s.name|] == s.name;
  }

  /** The loose pattern adds a row only when the strict one failed because nothing but whitespace
      (at least two characters) follows TIME; the name recorded is then one whitespace character. */
  lemma LooseOnlyAfterBlankTail(line: string)
    requires StrictMatch(line).None? && LooseMatch(line).Some?
    ensures |Tokens(line)| == 11
    ensures |LooseMatch(line).value.name| == 1 && IsSpace(LooseMatch(line).value.name[0])
  {
    var sp := Spans(line);
    SpaceAfterLastSpan(line, 0);
    assert |line| - 1 >= sp[10].1;
  }

  /** Empty text yields no records, so the `if cpu_raw` guard of the callers changes nothing. */
  lemma CpuStatsOfEmptyText()
    ensures CpuStats([]) == Success([])
  {
  }

  /** A row laid out as top prints it, twelve words joined by single spaces, is read back by the
      strict pattern: PID, USER, CPU%, MEM%, TIME and the name come from words 1, 2, 9, 10, 11, 12. */
  lemma ParseRowOfFormattedRow(ws: seq<string>)
    requires |ws| == 12
    requires forall k :: 0 <= k < 12 ==> ws[k] != [] && AllIn(ws[k], NonSpace)
    requires AllIn(ws[0], Digit) && IsPlainDecimal(ws[8]) && IsPlainDecimal(ws[9]) && AllIn(ws[10], ClockChar)
    ensures ParseRow(JoinWords(ws)) == Success(Some(Process(DigitsValue(ws[0]), ws[1],
      ParseDecimal(ws[8]).value, ParseDecimal(ws[9]).value, ws[10], ws[11])))
  {
    TokensOfJoin(ws);
  }

  /** The row "1203 system 18 -2 17G 252M 80M S 109 6.8 615:01.29 system_server" (its words
      joined by single spaces) has a '.' in the TIME column, which [\d:]+ does not accept, so
      neither pattern matches and the row is left out of the records. */
  lemma RowWithFractionalTimeIsDropped(ws: seq<string>)
    requires ws == ["1203", "system", "18", "-2", "17G", "252M", "80M", "S", "109", "6.8", "615:01.29", "system_server"]
    ensures StrictMatch(JoinWords(ws)).None? && LooseMatch(JoinWords(ws)).None?
    ensures ParseRow(JoinWords(ws)) == Success(None)
  {
    RowWordsAreWords(ws);
    TokensOfJoin(ws);
    assert !InClass(ws[10][6], ClockChar);
  }

  lemma RowWordsAreWords(ws: seq<string>)
    requires ws == ["1203", "system", "18", "-2", "17G", "252M", "80M", "S", "109", "6.8", "615:01.29", "system_server"]
    ensures forall k :: 0 <= k < |ws| ==> ws[k] != [] && AllIn(ws[k], NonSpace)
  {
  }
}
