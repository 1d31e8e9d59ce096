/** The memory parser, collect_ram_stats_from_raw (diagnose.py:445-468): the lines after the
    first one that contains `Total RSS by process:` are read up to the first whitespace-only
    line; every line of the form `<kB>K: <name> (pid <pid>)` becomes an entry, and the entries
    are sorted by their size, largest first, keeping the input order among equal sizes. */
module RamParser {
  import opened Text
  import opened Numbers
  import opened Records

  const Marker := "Total RSS by process:"

  /** The index of the first line at or after i that contains the marker (diagnose.py:449-452). */
  function FirstMarker(lines: seq<string>, i: nat): (m: Option<nat>)
    requires i <= |lines|
    ensures m.Some? ==> i <= m.value < |lines| && Contains(lines[m.value], Marker)
    ensures forall j :: i <= j < |lines| && (m.None? || j < m.value) ==> !Contains(lines[j], Marker)
    decreases |lines| - i
  {
    if i == |lines| then None
    else if Contains(lines[i], Marker) then Some(i)
    else FirstMarker(lines, i + 1)
  }

  // ------------------------------------------------------------ one line

  /** The groups of \s*([\d,]+)K: (.+?) \(pid (\d+)(?: /.+)?\) */
  datatype RamFields = RamFields(kb: string, name: string, pid: string)

  /** Some ')' at or after position q. */
  predicate CloseParenFrom(line: string, q: nat) {
    exists c :: q <= c < |line| && line[c] == ')'
  }

  /** The part of the pattern after the name, ` \(pid (\d+)(?: /.+)?\)`, matches at p. \d+ takes
      the whole digit run, as neither ' ' nor ')' is a digit; the optional group needs " /", at
      least one character and a later ')', and otherwise ')' must follow the digits at once. */
  predicate TailAt(line: string, p: nat)
    requires p <= |line|
  {
    && StartsAt(line, p, " (pid ")
    && var e := RunEnd(line, p + 6, Digit);
       && e > p + 6
       && ((StartsAt(line, e, " /") && CloseParenFrom(line, e + 3)) || StartsAt(line, e, ")"))
  }

  /** Where the lazy (.+?) stops: the first p at or after i where the tail matches. */
  function LazyEnd(line: string, i: nat): (p: Option<nat>)
    requires i <= |line|
    ensures p.Some? ==> i <= p.value && p.value + 6 <= |line| && TailAt(line, p.value)
    decreases |line| - i
  {
    if TailAt(line, i) then Some(i)
    else if i == |line| then None
    else LazyEnd(line, i + 1)
  }

  /** What a match holds: a non-empty kB field of digits and commas, a non-empty name and a
      non-empty pid of digits. */
  predicate RamShape(f: RamFields) {
    |f.kb| > 0 && AllIn(f.kb, KbChar) && |f.pid| > 0 && AllIn(f.pid, Digit) && |f.name| > 0
  }

  /** re.match of the entry pattern: the kB field is the digit-and-comma run after the leading
      whitespace, and the name is the shortest non-empty text after `K: ` that the tail can follow. */
  function RamMatch(line: string): (m: Option<RamFields>)
    ensures m.Some? ==> RamShape(m.value)
  {
    MatchFromShape(line, SkipSpace(line, 0));
    MatchFrom(line, SkipSpace(line, 0))
  }

  /** The match once \s* has taken the whitespace before ws. */
  function MatchFrom(line: string, ws: nat): (m: Option<RamFields>)
    requires ws <= |line|
  {
    var ke := RunEnd(line, ws, KbChar);
    if ke == ws || !StartsAt(line, ke, "K: ") || ke + 4 > |line| then None
    else
      FieldsAt(line, ws, ke, LazyEnd(line, ke + 4))
  }

  lemma MatchFromShape(line: string, ws: nat)
    requires ws <= |line|
    ensures MatchFrom(line, ws).Some? ==> RamShape(MatchFrom(line, ws).value)
  {
    var ke := RunEnd(line, ws, KbChar);
    if MatchFrom(line, ws).Some? {
      var p := LazyEnd(line, ke + 4).value;
      assert TailAt(line, p);
    }
  }

  /** The groups, given the end ke of the kB field and where the lazy name stopped. */
  function FieldsAt(line: string, ws: nat, ke: nat, p: Option<nat>): (m: Option<RamFields>)
    requires ws <= ke && ke + 3 <= |line|
    requires p.Some? ==> ke + 3 <= p.value && p.value + 6 <= |line|
  {
    if p.None? then None
    else Some(RamFields(line[ws..ke], line[ke + 3..p.value], line[p.value + 6..RunEnd(line, p.value + 6, Digit)]))
  }

  /** What one pass of the loop body at diagnose.py:455-466 does with a line. */
  datatype LineOutcome = Entry(entry: MemEntry) | Raise(error: Error) | Skip | Stop

  /** int(kb.replace(',', '')) / 1024, int(pid); the first raises on a field such as ",". A line
      that does not match ends the section when it is blank and is passed over otherwise. */
  function ParseRamLine(line: string): (o: LineOutcome)
    ensures o.Stop? <==> RamMatch(line).None? && IsBlank(line)
    ensures o.Skip? <==> RamMatch(line).None? && !IsBlank(line)
    ensures o.Entry? <==> RamMatch(line).Some? && KbValue(RamMatch(line).value.kb).Some?
    ensures o.Entry? ==> var f := RamMatch(line).value;
      o.entry == MemEntry(f.name, DigitsValue(f.pid), KbValue(f.kb).value as real / 1024.0)
    ensures o.Raise? ==> RamMatch(line).Some? && o.error == ValueError(RamMatch(line).value.kb)
    ensures o.Entry? ==> o.entry.ramMb >= 0.0 && |o.entry.name| > 0
  {
    match RamMatch(line)
    case Some(f) =>
      (match KbValue(f.kb)
       case None => Raise(ValueError(f.kb))
       case Some(kb) => Entry(MemEntry(f.name, DigitsValue(f.pid), kb as real / 1024.0)))
    case None => if IsBlank(line) then Stop else Skip
  }

  /** A line of the section, "  1,024K: com.x (pid 7)", is an entry of 1.0 MB for pid 7. */
  lemma RamLineExample()
    ensures ParseRamLine("  1,024K: com.x (pid 7)") == Entry(MemEntry("com.x", 7, 1.0))
  {
    var line := "  1,024K: com.x (pid 7)";
    RamMatchExample(line);
    EntryExample(line);
  }

  /** The entry of any line whose groups are those of the example. */
  lemma EntryExample(line: string)
    requires RamMatch(line) == Some(RamFields("1,024", "com.x", "7"))
    ensures ParseRamLine(line) == Entry(MemEntry("com.x", 7, 1.0))
  {
    KbValueExample();
    EntryOfMatch(line, RamFields("1,024", "com.x", "7"), 1024);
    assert DigitsValue("7") == 7 by {
      assert "7"[..0] == [];
    }
  }

  /** ParseRamLine on a line whose match and kB value are known. */
  lemma EntryOfMatch(line: string, f: RamFields, kb: nat)
    requires RamMatch(line) == Some(f) && KbValue(f.kb) == Some(kb)
    ensures ParseRamLine(line) == Entry(MemEntry(f.name, DigitsValue(f.pid), kb as real / 1024.0))
  {
  }

  lemma RamMatchExample(line: string)
    requires line == "  1,024K: com.x (pid 7)"
    ensures RamMatch(line) == Some(RamFields("1,024", "com.x", "7"))
  {
    assert line == EntryLine("  ", "1,024", "com.x", "7");
    RamLineRoundTrip("  ", "1,024", "com.x", "7");
  }

  function LineOutcomes(lines: seq<string>): (os: seq<LineOutcome>)
    ensures |os| == |lines|
  {
    if lines == [] then [] else LineOutcomes(lines[..|lines| - 1]) + [ParseRamLine(lines[|lines| - 1])]
  }

  lemma {:induction false} OutcomeOfLine(lines: seq<string>, k: nat)
    requires k < |lines|
    ensures LineOutcomes(lines)[k] == ParseRamLine(lines[k])
  {
    if k < |lines| - 1 {
      OutcomeOfLine(lines[..|lines| - 1], k);
    }
  }

  lemma OutcomesOfLines(lines: seq<string>)
    ensures forall k :: 0 <= k < |lines| ==> LineOutcomes(lines)[k] == ParseRamLine(lines[k])
  {
    forall k | 0 <= k < |lines| {
      OutcomeOfLine(lines, k);
    }
  }

  /** The entries of os[i..] up to the first Stop, or the error of the first line that raises. */
  function EntriesFrom(os: seq<LineOutcome>, i: nat): (r: Result<seq<MemEntry>>)
    requires i <= |os|
    ensures r.Success? ==> |r.value| <= |os| - i
    decreases |os| - i
  {
    if i == |os| then Success([])
    else
      match os[i]
      case Entry(e) => Prepend([e], EntriesFrom(os, i + 1))
      case Raise(err) => Failure(err)
      case Skip => EntriesFrom(os, i + 1)
      case Stop => Success([])
  }

  // ------------------------------------------------------------ the sort

  /** Inserts x into a list sorted largest first, after every element at least as large: the
      place a stable sort with reverse=True gives an element that comes after all of them. */
  function InsertDesc(x: MemEntry, s: seq<MemEntry>): (r: seq<MemEntry>)
    ensures |r| == |s| + 1
    decreases |s|
  {
    if s == [] || s[|s| - 1].ramMb >= x.ramMb then s + [x]
    else InsertDesc(x, s[..|s| - 1]) + [s[|s| - 1]]
  }

  /** apps.sort(key=lambda x: x["ram_mb"], reverse=True), as an insertion sort. */
  function SortDesc(s: seq<MemEntry>): (r: seq<MemEntry>)
    ensures |r| == |s|
    decreases |s|
  {
    if s == [] then [] else InsertDesc(s[|s| - 1], SortDesc(s[..|s| - 1]))
  }

  predicate SortedDesc(s: seq<MemEntry>) {
    forall i, j :: 0 <= i < j < |s| ==> s[i].ramMb >= s[j].ramMb
  }

  /** The entries of s whose size is v, in their order. */
  function WithSize(s: seq<MemEntry>, v: real): (r: seq<MemEntry>)
    ensures |r| <= |s|
    ensures forall k :: 0 <= k < |r| ==> r[k].ramMb == v
  {
    if s == [] then []
    else WithSize(s[..|s| - 1], v) + (if s[|s| - 1].ramMb == v then [s[|s| - 1]] else [])
  }

  /** Sorts the array in place, largest first, as the insertion sort SortDesc does. */
  method SortByRamDesc(a: array<MemEntry>)
    modifies a
    ensures a[..] == SortDesc(old(a[..]))
  {
    ghost var input := a[..];
    var i := 0;
    while i < a.Length
      invariant 0 <= i <= a.Length
      invariant a[..i] == SortDesc(input[..i])
      invariant a[i..] == input[i..]
    {
      InsertLast(a, i);
      assert input[..i + 1][..i] == input[..i];
      assert a[i + 1..] == input[i + 1..];
      i := i + 1;
    }
    assert input[..a.Length] == input;
  }

  /** Moves a[i] left past the smaller entries before it, so that a[..i + 1]
      becomes InsertDesc(a[i], a[..i]); the rest of the array is unchanged. */
  method InsertLast(a: array<MemEntry>, i: nat)
    requires i < a.Length
    modifies a
    ensures a[..i + 1] == InsertDesc(old(a[i]), old(a[..i]))
    ensures a[i + 1..] == old(a[i + 1..])
  {
    ghost var sorted := a[..i];
    ghost var rest := a[i + 1..];
    var x := a[i];
    var j := i;
    assert sorted[..j] == sorted && sorted[j..] == [];
    assert a[..] == sorted[..j] + [a[j]] + sorted[j..] + rest;
    while j > 0 && a[j - 1].ramMb < x.ramMb
      invariant 0 <= j <= i == |sorted|
      invariant a[..] == sorted[..j] + [a[j]] + sorted[j..] + rest
      invariant InsertDesc(x, sorted) == InsertDesc(x, sorted[..j]) + sorted[j..]
    {
      ShiftRight(sorted, j, a[j], rest);
      InsertDescStep(x, sorted, j);
      a[j] := a[j - 1];
      j := j - 1;
    }
    if j > 0 {
      ShiftRight(sorted, j, a[j], rest);
    }
    Place(sorted, j, a[j], x, rest);
    a[j] := x;
    InsertDone(sorted, j, x, rest);
  }

  /** One step of the shift on the array's contents: a[j - 1] is copied into a[j]. */
  lemma ShiftRight(sorted: seq<MemEntry>, j: nat, y: MemEntry, rest: seq<MemEntry>)
    requires 0 < j <= |sorted|
    ensures (sorted[..j] + [y] + sorted[j..] + rest)[j - 1] == sorted[j - 1]
    ensures (sorted[..j] + [y] + sorted[j..] + rest)[j := sorted[j - 1]]
      == sorted[..j - 1] + [sorted[j - 1]] + sorted[j - 1..] + rest
  {
    assert sorted[..j] == sorted[..j - 1] + [sorted[j - 1]];
    assert sorted[j - 1..] == [sorted[j - 1]] + sorted[j..];
  }

  /** The last write of the shift puts x into the gap. */
  lemma Place(sorted: seq<MemEntry>, j: nat, y: MemEntry, x: MemEntry, rest: seq<MemEntry>)
    requires j <= |sorted|
    ensures (sorted[..j] + [y] + sorted[j..] + rest)[j := x] == sorted[..j] + [x] + sorted[j..] + rest
  {
  }

  /** Once x is in the gap after an entry at least as large, the first |sorted| + 1 places hold
      InsertDesc(x, sorted) and the rest is as it was. */
  lemma InsertDone(sorted: seq<MemEntry>, j: nat, x: MemEntry, rest: seq<MemEntry>)
    requires j <= |sorted| && (j == 0 || sorted[j - 1].ramMb >= x.ramMb)
    requires InsertDesc(x, sorted) == InsertDesc(x, sorted[..j]) + sorted[j..]
    ensures (sorted[..j] + [x] + sorted[j..] + rest)[..|sorted| + 1] == InsertDesc(x, sorted)
    ensures (sorted[..j] + [x] + sorted[j..] + rest)[|sorted| + 1..] == rest
  {
    assert InsertDesc(x, sorted[..j]) == sorted[..j] + [x];
    var p := sorted[..j] + [x] + sorted[j..];
    assert p + rest == sorted[..j] + [x] + sorted[j..] + rest;
    assert (p + rest)[..|p|] == p && (p + rest)[|p|..] == rest;
  }

  /** One step of the shift: x goes before s[j - 1] when s[j - 1] is smaller. */
  lemma InsertDescStep(x: MemEntry, s: seq<MemEntry>, j: nat)
    requires 0 < j <= |s| && s[j - 1].ramMb < x.ramMb
    ensures InsertDesc(x, s[..j]) + s[j..] == InsertDesc(x, s[..j - 1]) + s[j - 1..]
  {
    assert s[..j][..j - 1] == s[..j - 1];
    assert s[j - 1..] == [s[j - 1]] + s[j..];
  }

  // ------------------------------------------------------------ the whole parse

  /** What collect_ram_stats_from_raw returns, or the ValueError it raises. */
  function RamStats(raw: string): Result<seq<MemEntry>> {
    var lines := SplitLines(raw);
    match FirstMarker(lines, 0)
    case None => Success([])
    case Some(m) =>
      match EntriesFrom(LineOutcomes(lines), m + 1)
      case Failure(e) => Failure(e)
      case Success(apps) => Success(SortDesc(apps))
  }

  /** collect_ram_stats_from_raw (diagnose.py:445-468). */
  method CollectRamStatsFromRaw(raw: string) returns (r: Result<seq<MemEntry>>)
    ensures r == RamStats(raw)
  {
    var lines := SplitLines(raw);
    var start: Option<nat> := None;
    var i := 0;
    while i < |lines|
      invariant 0 <= i <= |lines|
      invariant start == None
      invariant FirstMarker(lines, i) == FirstMarker(lines, 0)
    {
      if Contains(lines[i], Marker) {
        start := Some(i + 1);
        break;
      }
      i := i + 1;
    }
    if start == None {
      return Success([]);
    }
    assert FirstMarker(lines, 0) == Some(start.value - 1);
    var apps := CollectEntries(lines, start.value);
    if apps.Failure? {
      return Failure(apps.error);
    }
    var a := new MemEntry[|apps.value|](k requires 0 <= k < |apps.value| => apps.value[k]);
    assert a[..] == apps.value;
    SortByRamDesc(a);
    r := Success(a[..]);
  }

  /** The entry loop of diagnose.py:454-466 over lines[start..]. */
  method CollectEntries(lines: seq<string>, start: nat) returns (r: Result<seq<MemEntry>>)
    requires start <= |lines|
    ensures r == EntriesFrom(LineOutcomes(lines), start)
  {
    ghost var os := LineOutcomes(lines);
    var apps: seq<MemEntry> := [];
    var k := start;
    while k < |lines|
      invariant start <= k <= |lines| == |os|
      invariant EntriesFrom(os, start) == Prepend(apps, EntriesFrom(os, k))
    {
      var o := ParseRamLineAt(lines, k);
      if o.Raise? {
        return Failure(o.error);
      } else if o.Entry? {
        PrependTwice(apps, [o.entry], EntriesFrom(os, k + 1));
        apps := apps + [o.entry];
      } else if o.Stop? {
        break;
      }
      k := k + 1;
    }
    assert apps + [] == apps;
    return Success(apps);
  }

  /** The loop body's search and conversion on line k. */
  method ParseRamLineAt(lines: seq<string>, k: nat) returns (o: LineOutcome)
    requires k < |lines|
    ensures o == LineOutcomes(lines)[k]
  {
    o := ParseRamLine(lines[k]);
    OutcomeOfLine(lines, k);
  }

  // ------------------------------------------------------------ properties

  lemma {:induction false} InsertDescMultiset(x: MemEntry, s: seq<MemEntry>)
    ensures multiset(InsertDesc(x, s)) == multiset(s) + multiset{x}
    decreases |s|
  {
    if s != [] && s[|s| - 1].ramMb < x.ramMb {
      InsertDescMultiset(x, s[..|s| - 1]);
      assert s == s[..|s| - 1] + [s[|s| - 1]];
    }
  }

  lemma {:induction false} InsertDescSorted(x: MemEntry, s: seq<MemEntry>)
    requires SortedDesc(s)
    ensures SortedDesc(InsertDesc(x, s))
    decreases |s|
  {
    if s != [] && s[|s| - 1].ramMb < x.ramMb {
      var init, last := s[..|s| - 1], s[|s| - 1];
      InsertDescSorted(x, init);
      InsertDescMultiset(x, init);
      var r := InsertDesc(x, init);
      forall k | 0 <= k < |r|
        ensures r[k].ramMb >= last.ramMb
      {
        assert r[k] in multiset(init) + multiset{x};
      }
    }
  }

  /** The sort orders the entries largest first. */
  lemma {:induction false} SortDescSorted(s: seq<MemEntry>)
    ensures SortedDesc(SortDesc(s))
    decreases |s|
  {
    if s != [] {
      SortDescSorted(s[..|s| - 1]);
      InsertDescSorted(s[|s| - 1], SortDesc(s[..|s| - 1]));
    }
  }

  /** The sort neither adds nor drops an entry. */
  lemma {:induction false} SortDescPermutes(s: seq<MemEntry>)
    ensures multiset(SortDesc(s)) == multiset(s)
    decreases |s|
  {
    if s != [] {
      SortDescPermutes(s[..|s| - 1]);
      InsertDescMultiset(s[|s| - 1], SortDesc(s[..|s| - 1]));
      assert s == s[..|s| - 1] + [s[|s| - 1]];
    }
  }

  lemma {:induction false} InsertDescKeepsTies(x: MemEntry, s: seq<MemEntry>, v: real)
    ensures WithSize(InsertDesc(x, s), v) == WithSize(s, v) + (if x.ramMb == v then [x] else [])
    decreases |s|
  {
    if s == [] || s[|s| - 1].ramMb >= x.ramMb {
      assert (s + [x])[..|s|] == s;
    } else {
      var init, last := s[..|s| - 1], s[|s| - 1];
      InsertDescKeepsTies(x, init, v);
      var r := InsertDesc(x, init);
      assert (r + [last])[..|r|] == r;
    }
  }

  /** The sort is stable: the entries of any one size keep their input order. */
  lemma {:induction false} SortDescStable(s: seq<MemEntry>, v: real)
    ensures WithSize(SortDesc(s), v) == WithSize(s, v)
    decreases |s|
  {
    if s != [] {
      SortDescStable(s[..|s| - 1], v);
      InsertDescKeepsTies(s[|s| - 1], SortDesc(s[..|s| - 1]), v);
    }
  }

  /** The entries are the matching lines after the marker, in line order, all of them before the
      first whitespace-only line; every other line before it was skipped. */
  lemma {:induction false} EntriesInOrder(os: seq<LineOutcome>, i: nat) returns (idx: seq<nat>)
    requires i <= |os|
    requires EntriesFrom(os, i).Success?
    ensures |idx| == |EntriesFrom(os, i).value|
    ensures forall k :: 0 <= k < |idx| ==> i <= idx[k] < |os| && os[idx[k]] == Entry(EntriesFrom(os, i).value[k])
    ensures forall k, l :: 0 <= k < l < |idx| ==> idx[k] < idx[l]
    ensures forall k, j :: 0 <= k < |idx| && i <= j <= idx[k] ==> !os[j].Stop?
    ensures forall j :: i <= j < |os| && j !in idx ==> !os[j].Entry? || exists k :: i <= k < j && os[k].Stop?
    decreases |os| - i
  {
    if i == |os| {
      idx := [];
    } else {
      match os[i]
      case Stop =>
        idx := [];
      case Skip =>
        idx := EntriesInOrder(os, i + 1);
      case Entry(e) =>
        var rest := EntriesInOrder(os, i + 1);
        idx := [i] + rest;
        assert forall k :: 0 < k < |idx| ==> idx[k] == rest[k - 1];
    }
  }

  /** The parse raises exactly when a matching line before the first whitespace-only one has a
      kB field without a digit. */
  lemma {:induction false} EntriesFailExactly(os: seq<LineOutcome>, i: nat)
    requires i <= |os|
    ensures EntriesFrom(os, i).Failure? <==>
      exists j :: i <= j < |os| && os[j].Raise? && forall k :: i <= k < j ==> !os[k].Stop?
    decreases |os| - i
  {
    if i < |os| {
      EntriesFailExactly(os, i + 1);
      if os[i].Entry? || os[i].Skip? {
        if EntriesFrom(os, i).Failure? {
          var j :| i + 1 <= j < |os| && os[j].Raise? && forall k :: i + 1 <= k < j ==> !os[k].Stop?;
          assert forall k :: i <= k < j ==> !os[k].Stop?;
        }
      }
    }
  }

  /** The result is sorted largest first, stable, and holds exactly the entries of the section. */
  lemma RamStatsSortedSection(raw: string) returns (apps: seq<MemEntry>)
    requires RamStats(raw).Success?
    ensures SortedDesc(RamStats(raw).value)
    ensures multiset(RamStats(raw).value) == multiset(apps)
    ensures forall v :: WithSize(RamStats(raw).value, v) == WithSize(apps, v)
    ensures var lines := SplitLines(raw);
      (FirstMarker(lines, 0).None? ==> apps == [])
      && (FirstMarker(lines, 0).Some? ==> EntriesFrom(LineOutcomes(lines), FirstMarker(lines, 0).value + 1) == Success(apps))
  {
    var lines := SplitLines(raw);
    apps := if FirstMarker(lines, 0).None? then [] else EntriesFrom(LineOutcomes(lines), FirstMarker(lines, 0).value + 1).value;
    assert RamStats(raw).value == SortDesc(apps);
    SortDescSorted(apps);
    SortDescPermutes(apps);
    forall v ensures WithSize(RamStats(raw).value, v) == WithSize(apps, v) {
      SortDescStable(apps, v);
    }
  }

  /** The line `dumpsys meminfo` prints for a process: leading blanks, the kB figure, `K: `,
      the name and ` (pid <pid>)`. */
  function EntryLine(pad: string, kb: string, name: string, pid: string): (line: string)
    ensures |line| == |pad| + |kb| + |name| + |pid| + 10
  {
    pad + kb + "K: " + name + " (pid " + pid + ")"
  }

  /** Such a line reads back as its fields, when the name holds no '('. */
  lemma RamLineRoundTrip(pad: string, kb: string, name: string, pid: string)
    requires AllIn(pad, Space)
    requires |kb| > 0 && AllIn(kb, KbChar)
    requires |name| > 0 && NoParen(name)
    requires |pid| > 0 && AllIn(pid, Digit)
    ensures RamMatch(EntryLine(pad, kb, name, pid)) == Some(RamFields(kb, name, pid))
  {
    EntryLineLayout(pad, kb, name, pid);
    var ke := |pad| + |kb|;
    var p := ke + 3 + |name|;
    LayoutReadsBack(EntryLine(pad, kb, name, pid), |pad|, ke, p, p + 6 + |pid|, RamFields(kb, name, pid));
  }

  /** The match on a line laid out as whitespace up to ws, a kB field up to ke, `K: `, a name
      without '(' up to p, ` (pid `, digits up to e and ')'. */
  lemma LayoutReadsBack(line: string, ws: nat, ke: nat, p: nat, e: nat, f: RamFields)
    requires ws < ke && ke + 3 < p && p + 6 < e < |line|
    requires AllIn(line[0..ws], Space) && AllIn(line[ws..ke], KbChar) && line[ke] == 'K'
    requires StartsAt(line, ke, "K: ") && NoParen(line[ke + 3..p])
    requires StartsAt(line, p, " (pid ") && AllIn(line[p + 6..e], Digit) && StartsAt(line, e, ")") && line[e] == ')'
    requires f == RamFields(line[ws..ke], line[ke + 3..p], line[p + 6..e])
    ensures RamMatch(line) == Some(f)
  {
    LayoutRuns(line, ws, ke, p, e);
    ChainReadsBack(line, ws, ke, p, e, f);
  }

  /** On a line laid out as whitespace up to ws, a kB field up to ke, `K: `, a name without '('
      up to p, ` (pid `, digits up to e and ')', every run of the pattern ends where the layout
      says and the lazy name stops at p. */
  lemma LayoutRuns(line: string, ws: nat, ke: nat, p: nat, e: nat)
    requires ws < ke && ke + 3 < p && p + 6 < e < |line|
    requires AllIn(line[0..ws], Space) && AllIn(line[ws..ke], KbChar) && line[ke] == 'K'
    requires StartsAt(line, ke, "K: ") && NoParen(line[ke + 3..p])
    requires StartsAt(line, p, " (pid ") && AllIn(line[p + 6..e], Digit) && StartsAt(line, e, ")") && line[e] == ')'
    ensures SkipSpace(line, 0) == ws && RunEnd(line, ws, KbChar) == ke
    ensures LazyEnd(line, ke + 4) == Some(p) && RunEnd(line, p + 6, Digit) == e
  {
    assert line[ws] == line[ws..ke][0];
    RunOverSlice(line, 0, ws, Space);
    RunOverSlice(line, ws, ke, KbChar);
    RunOverSlice(line, p + 6, e, Digit);
    TailLayout(line, p, e);
    LazyEndAfterName(line, ke + 3, ke + 4, p);
  }

  /** The tail matches at p when ` (pid `, a digit run and ')' follow there. */
  lemma TailLayout(line: string, p: nat, e: nat)
    requires p + 6 < e < |line| && StartsAt(line, p, " (pid ") && RunEnd(line, p + 6, Digit) == e
    requires StartsAt(line, e, ")")
    ensures TailAt(line, p)
  {
  }

  /** The match, once the end of each run and of the lazy name is known. */
  lemma ChainReadsBack(line: string, ws: nat, ke: nat, p: nat, e: nat, f: RamFields)
    requires ws < ke && ke + 4 <= p && p + 6 <= e <= |line|
    requires SkipSpace(line, 0) == ws && RunEnd(line, ws, KbChar) == ke && StartsAt(line, ke, "K: ")
    requires LazyEnd(line, ke + 4) == Some(p) && RunEnd(line, p + 6, Digit) == e
    requires f == RamFields(line[ws..ke], line[ke + 3..p], line[p + 6..e])
    ensures RamMatch(line) == Some(f)
  {
    KbFieldEnds(line, ws, ke, p);
    FieldsAtEnd(line, ws, ke, p, e);
  }

  predicate NoParen(s: string) {
    forall k :: 0 <= k < |s| ==> s[k] != '('
  }

  lemma EntryLineLayout(pad: string, kb: string, name: string, pid: string)
    requires |kb| > 0
    ensures var line, ws := EntryLine(pad, kb, name, pid), |pad|;
      var ke := ws + |kb|;
      var p := ke + 3 + |name|;
      var e := p + 6 + |pid|;
      && line[0..ws] == pad && line[ws..ke] == kb && line[ke + 3..p] == name && line[p + 6..e] == pid
      && line[ws] == kb[0] && line[ke] == 'K' && StartsAt(line, ke, "K: ")
      && StartsAt(line, p, " (pid ") && StartsAt(line, e, ")") && line[e] == ')'
  {
  }

  lemma KbFieldEnds(line: string, ws: nat, ke: nat, p: nat)
    requires ws < ke && ke + 4 <= |line|
    requires SkipSpace(line, 0) == ws && RunEnd(line, ws, KbChar) == ke && StartsAt(line, ke, "K: ")
    requires LazyEnd(line, ke + 4) == Some(p)
    ensures ke + 3 <= p && p + 6 <= |line|
    ensures RamMatch(line) == FieldsAt(line, ws, ke, Some(p))
  {
    assert RamMatch(line) == MatchFrom(line, ws);
    MatchFromKb(line, ws, ke);
  }

  lemma MatchFromKb(line: string, ws: nat, ke: nat)
    requires ws < ke && ke + 4 <= |line|
    requires RunEnd(line, ws, KbChar) == ke && StartsAt(line, ke, "K: ")
    ensures MatchFrom(line, ws) == FieldsAt(line, ws, ke, LazyEnd(line, ke + 4))
  {
  }

  lemma FieldsAtEnd(line: string, ws: nat, ke: nat, p: nat, e: nat)
    requires ws <= ke && ke + 3 <= p && p + 6 <= e <= |line| && RunEnd(line, p + 6, Digit) == e
    ensures FieldsAt(line, ws, ke, Some(p)) == Some(RamFields(line[ws..ke], line[ke + 3..p], line[p + 6..e]))
  {
  }

  /** When no '(' occurs in the name line[n..p], the lazy name that may start at i = n + 1 stops
      at p if the tail matches there. */
  lemma LazyEndAfterName(line: string, n: nat, i: nat, p: nat)
    requires i == n + 1 && i <= p < |line| && TailAt(line, p)
    requires NoParen(line[n..p])
    ensures LazyEnd(line, i) == Some(p)
  {
    forall q | i <= q < p
      ensures !TailAt(line, q)
    {
      if q + 1 < p {
        assert line[q + 1] == line[n..p][q + 1 - n];
      }
      NoTailBefore(line, q);
    }
    LazyEndIs(line, i, p);
  }

  lemma NoTailBefore(line: string, q: nat)
    requires q + 1 < |line| && line[q + 1] != '('
    ensures !TailAt(line, q)
  {
  }

  /** The lazy name is the shortest: the tail matches at no earlier position. */
  lemma {:induction false} LazyEndIsFirst(line: string, i: nat)
    requires i <= |line|
    ensures forall q :: i <= q <= |line| && (LazyEnd(line, i).None? || q < LazyEnd(line, i).value) ==> !TailAt(line, q)
    decreases |line| - i
  {
    if !TailAt(line, i) && i < |line| {
      LazyEndIsFirst(line, i + 1);
    }
  }

  lemma LazyEndIs(line: string, i: nat, p: nat)
    requires i <= p <= |line| && TailAt(line, p)
    requires forall q :: i <= q < p ==> !TailAt(line, q)
    ensures LazyEnd(line, i) == Some(p)
  {
    LazyEndIsFirst(line, i);
  }
}
