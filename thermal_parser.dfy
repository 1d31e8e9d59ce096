/** The thermal parser, collect_thermal_info_from_raw (diagnose.py:471-479): on every line the
    leftmost `Temperature{mValue=<v>, mType=<n>, mName=<NAME>, mStatus=<n>}` is looked for, and
    its value is stored under its sensor name; a later line naming the same sensor replaces the
    value an earlier one stored. */
module ThermalParser {
  import opened Text
  import opened Numbers
  import opened Records

  const Opening := "Temperature{mValue="
  const TypeKey := ", mType="
  const NameKey := ", mName="
  const StatusKey := ", mStatus="

  /** The two groups of the pattern: the [\d.]+ value and the [A-Z0-9_]+ name. */
  datatype Reading = Reading(value: string, name: string)

  /** The pattern matched at exactly position i. Every repeated class in it is followed by a
      character outside that class (',' or '}'), so each run is the maximal one. */
  function ReadingAt(line: string, i: nat): (m: Option<Reading>)
    requires i <= |line|
  {
    if !StartsAt(line, i, Opening) then None else ValueFrom(line, i + 19)
  }

  /** The rest of the pattern after the opening at a: the value group, then `, mType=`. */
  function ValueFrom(line: string, a: nat): (m: Option<Reading>)
    requires a <= |line|
  {
    var v := RunEnd(line, a, DecimalChar);
    if v == a || !StartsAt(line, v, TypeKey) then None else KindFrom(line, a, v, v + 8)
  }

  /** The rest of the pattern after `, mType=` at k, the value group being line[a..v]. */
  function KindFrom(line: string, a: nat, v: nat, k: nat): (m: Option<Reading>)
    requires a <= v <= |line| && k <= |line|
  {
    var t := RunEnd(line, k, Digit);
    if t == k || !StartsAt(line, t, NameKey) then None else NameFrom(line, a, v, t + 8)
  }

  /** The rest of the pattern after `, mName=` at b: the name group, `, mStatus=`, digits, '}'. */
  function NameFrom(line: string, a: nat, v: nat, b: nat): (m: Option<Reading>)
    requires a <= v <= |line| && b <= |line|
  {
    var n := RunEnd(line, b, SensorNameChar);
    if n == b || !StartsAt(line, n, StatusKey) then None
    else
      var e := RunEnd(line, n + 10, Digit);
      if e == n + 10 || !StartsAt(line, e, "}") then None
      else Some(Reading(line[a..v], line[b..n]))
  }

  /** The value group of a match is a non-empty [\d.]+ run and the name group a non-empty
      [A-Z0-9_]+ run. */
  lemma ReadingShape(line: string, i: nat)
    requires i <= |line| && ReadingAt(line, i).Some?
    ensures var r := ReadingAt(line, i).value;
      && |r.value| > 0 && AllIn(r.value, DecimalChar) && |r.name| > 0 && AllIn(r.name, SensorNameChar)
  {
    var v := RunEnd(line, i + 19, DecimalChar);
    assert ValueFrom(line, i + 19) == ReadingAt(line, i);
    KindShape(line, i + 19, v, v + 8);
  }

  lemma KindShape(line: string, a: nat, v: nat, k: nat)
    requires a <= v <= |line| && k <= |line| && KindFrom(line, a, v, k).Some?
    ensures KindFrom(line, a, v, k).value.value == line[a..v]
    ensures var name := KindFrom(line, a, v, k).value.name; |name| > 0 && AllIn(name, SensorNameChar)
  {
    var t := RunEnd(line, k, Digit);
    NameShape(line, a, v, t + 8);
  }

  lemma NameShape(line: string, a: nat, v: nat, b: nat)
    requires a <= v <= |line| && b <= |line| && NameFrom(line, a, v, b).Some?
    ensures NameFrom(line, a, v, b).value.value == line[a..v]
    ensures var name := NameFrom(line, a, v, b).value.name; |name| > 0 && AllIn(name, SensorNameChar)
  {
  }

  /** re.search from position i: the leftmost position at or after i where the pattern matches. */
  function FirstReadingAt(line: string, i: nat): (p: Option<nat>)
    requires i <= |line|
    ensures p.Some? ==> i <= p.value <= |line| && ReadingAt(line, p.value).Some?
    ensures forall q :: i <= q <= |line| && (p.None? || q < p.value) ==> ReadingAt(line, q).None?
    decreases |line| - i
  {
    if ReadingAt(line, i).Some? then Some(i)
    else if i == |line| then None
    else FirstReadingAt(line, i + 1)
  }

  /** What one pass of the loop body at diagnose.py:475-478 does with a line. */
  datatype ThermalOutcome = NoReading | Sensor(name: string, celsius: real) | Raise(error: Error)

  /** The reading re.search finds from position i on: the groups of the leftmost match. */
  function FirstReading(line: string, i: nat): (m: Option<Reading>)
    requires i <= |line|
    ensures m.Some? ==> |m.value.name| > 0 && AllIn(m.value.name, SensorNameChar)
    decreases |line| - i
  {
    if ReadingAt(line, i).Some? then ReadingShape(line, i); ReadingAt(line, i)
    else if i == |line| then None
    else FirstReading(line, i + 1)
  }

  /** The line's reading: float() of the value raises on a token such as "1.2.3" or ".". */
  function ThermalLine(line: string): (o: ThermalOutcome)
    ensures o.Sensor? ==> |o.name| > 0 && AllIn(o.name, SensorNameChar) && o.celsius >= 0.0
  {
    match FirstReading(line, 0)
    case None => NoReading
    case Some(r) => ToSensor(r)
  }

  /** float(value), stored under name. */
  function ToSensor(r: Reading): (o: ThermalOutcome)
    ensures o.Sensor? <==> IsPlainDecimal(r.value)
    ensures o.Sensor? ==> o.name == r.name && o.celsius == ParseDecimal(r.value).value && o.celsius >= 0.0
    ensures !o.Sensor? ==> o == Raise(ValueError(r.value))
  {
    match ParseDecimal(r.value)
    case None => Raise(ValueError(r.value))
    case Some(x) => Sensor(r.name, x)
  }

  /** The search returns the groups of the match at the leftmost matching position. */
  lemma {:induction false} FirstReadingIsLeftmost(line: string, i: nat)
    requires i <= |line|
    ensures FirstReadingAt(line, i).None? ==> FirstReading(line, i).None?
    ensures FirstReadingAt(line, i).Some? ==> FirstReading(line, i) == ReadingAt(line, FirstReadingAt(line, i).value)
    decreases |line| - i
  {
    if ReadingAt(line, i).None? && i < |line| {
      FirstReadingIsLeftmost(line, i + 1);
    }
  }

  /** A line gives no reading exactly when the pattern occurs nowhere in it. */
  lemma NoReadingExactlyWithoutPattern(line: string)
    ensures ThermalLine(line).NoReading? <==> forall q :: 0 <= q <= |line| ==> ReadingAt(line, q).None?
  {
    FirstReadingIsLeftmost(line, 0);
  }

  /** The outcome of each line, in order. */
  function ThermalOutcomes(lines: seq<string>): (os: seq<ThermalOutcome>)
    ensures |os| == |lines|
  {
    if lines == [] then [] else ThermalOutcomes(lines[..|lines| - 1]) + [ThermalLine(lines[|lines| - 1])]
  }

  lemma {:induction false} OutcomeOfLine(lines: seq<string>, k: nat)
    requires k < |lines|
    ensures ThermalOutcomes(lines)[k] == ThermalLine(lines[k])
  {
    if k < |lines| - 1 {
      OutcomeOfLine(lines[..|lines| - 1], k);
    }
  }

  lemma OutcomesOfLines(lines: seq<string>)
    ensures forall k :: 0 <= k < |lines| ==> ThermalOutcomes(lines)[k] == ThermalLine(lines[k])
  {
    forall k | 0 <= k < |lines| {
      OutcomeOfLine(lines, k);
    }
  }

  /** The sensor map after the first n lines, or the error of the first line that raised. */
  function SensorsUpTo(os: seq<ThermalOutcome>, n: nat): (r: Result<map<string, real>>)
    requires n <= |os|
  {
    if n == 0 then Success(map[])
    else
      match SensorsUpTo(os, n - 1)
      case Failure(e) => Failure(e)
      case Success(m) =>
        match os[n - 1]
        case NoReading => Success(m)
        case Raise(e) => Failure(e)
        case Sensor(name, celsius) => Success(m[name := celsius])
  }

  function Thermal(raw: string): (r: Result<map<string, real>>) {
    var lines := SplitLines(raw);
    SensorsUpTo(ThermalOutcomes(lines), |lines|)
  }

  method CollectThermalInfoFromRaw(raw: string) returns (r: Result<map<string, real>>)
    ensures r == Thermal(raw)
  {
    r := CollectSensors(SplitLines(raw));
  }

  /** The loop at diagnose.py:474-478 over the lines of the text. */
  method CollectSensors(lines: seq<string>) returns (r: Result<map<string, real>>)
    ensures r == SensorsUpTo(ThermalOutcomes(lines), |lines|)
  {
    ghost var os := ThermalOutcomes(lines);
    var sensors: map<string, real> := map[];
    var k := 0;
    while k < |lines|
      invariant k <= |lines| == |os|
      invariant SensorsUpTo(os, k) == Success(sensors)
    {
      var o := ThermalLineAt(lines, k);
      match o {
        case NoReading =>
        case Raise(e) =>
          FailureSticks(os, k + 1, |lines|);
          return Failure(e);
        case Sensor(name, celsius) =>
          sensors := sensors[name := celsius];
      }
      k := k + 1;
    }
    r := Success(sensors);
  }

  /** The loop body's search and conversion on line k. */
  method ThermalLineAt(lines: seq<string>, k: nat) returns (o: ThermalOutcome)
    requires k < |lines|
    ensures o == ThermalOutcomes(lines)[k]
  {
    o := ThermalLine(lines[k]);
    OutcomeOfLine(lines, k);
  }

  /** Once a line has raised, the parse has failed with that line's error. */
  lemma {:induction false} FailureSticks(os: seq<ThermalOutcome>, n: nat, m: nat)
    requires n <= m <= |os| && SensorsUpTo(os, n).Failure?
    ensures SensorsUpTo(os, m) == SensorsUpTo(os, n)
    decreases m - n
  {
    if n < m {
      FailureSticks(os, n, m - 1);
    }
  }

  /** The parse raises exactly when some line's value does not convert. */
  lemma {:induction false} FailsExactly(os: seq<ThermalOutcome>, n: nat)
    requires n <= |os|
    ensures SensorsUpTo(os, n).Failure? <==> exists j :: 0 <= j < n && os[j].Raise?
  {
    if n > 0 {
      FailsExactly(os, n - 1);
    }
  }

  /** Every key is a non-empty [A-Z0-9_] name, and holds the value of the last line naming it. */
  lemma {:induction false} SensorIsLastReading(os: seq<ThermalOutcome>, n: nat, key: string) returns (j: nat)
    requires n <= |os| && SensorsUpTo(os, n).Success? && key in SensorsUpTo(os, n).value
    requires forall k :: 0 <= k < |os| && os[k].Sensor? ==> |os[k].name| > 0 && AllIn(os[k].name, SensorNameChar)
    ensures j < n && os[j] == Sensor(key, SensorsUpTo(os, n).value[key])
    ensures forall k :: j < k < n ==> !(os[k].Sensor? && os[k].name == key)
    ensures |key| > 0 && AllIn(key, SensorNameChar)
  {
    var m := SensorsUpTo(os, n - 1).value;
    if os[n - 1].Sensor? && os[n - 1].name == key {
      j := n - 1;
    } else {
      j := SensorIsLastReading(os, n - 1, key);
    }
  }

  /** Every sensor some line reads is a key of the result. */
  lemma {:induction false} EveryReadingIsKept(os: seq<ThermalOutcome>, n: nat, j: nat)
    requires j < n <= |os| && SensorsUpTo(os, n).Success? && os[j].Sensor?
    ensures os[j].name in SensorsUpTo(os, n).value
  {
    if j < n - 1 {
      EveryReadingIsKept(os, n - 1, j);
    }
  }

  /** The map is empty exactly when no line holds the pattern. */
  lemma {:induction false} EmptyExactlyWithoutReadings(os: seq<ThermalOutcome>, n: nat)
    requires n <= |os|
    ensures SensorsUpTo(os, n) == Success(map[]) <==> forall j :: 0 <= j < n ==> os[j].NoReading?
  {
    if n > 0 {
      EmptyExactlyWithoutReadings(os, n - 1);
      if SensorsUpTo(os, n - 1).Success? && os[n - 1].Sensor? {
        assert os[n - 1].name in SensorsUpTo(os, n).value;
      }
    }
  }

  /** Stated on the text: a key of the result is a sensor name read on some line, and the value
      it holds is the one the last line naming it carries. */
  lemma ThermalKeysComeFromLines(raw: string, key: string) returns (j: nat)
    requires Thermal(raw).Success? && key in Thermal(raw).value
    ensures var lines := SplitLines(raw);
      && j < |lines| && ThermalLine(lines[j]) == Sensor(key, Thermal(raw).value[key])
      && (forall k :: j < k < |lines| ==> !(ThermalLine(lines[k]).Sensor? && ThermalLine(lines[k]).name == key))
      && |key| > 0 && AllIn(key, SensorNameChar)
  {
    var lines := SplitLines(raw);
    OutcomesOfLines(lines);
    j := SensorIsLastReading(ThermalOutcomes(lines), |lines|, key);
  }

  /** Text in which the pattern occurs nowhere gives the empty map. */
  lemma ThermalWithoutReadings(raw: string)
    requires forall j :: 0 <= j < |SplitLines(raw)| ==> ThermalLine(SplitLines(raw)[j]).NoReading?
    ensures Thermal(raw) == Success(map[])
  {
    var lines := SplitLines(raw);
    OutcomesOfLines(lines);
    EmptyExactlyWithoutReadings(ThermalOutcomes(lines), |lines|);
  }

  /** The line the thermal service prints for one sensor. */
  function SensorLine(value: string, kind: string, name: string, status: string): (line: string)
    ensures |line| == |value| + |kind| + |name| + |status| + 46
  {
    (Opening + value + TypeKey + kind) + (NameKey + name + StatusKey + status + "}")
  }

  /** Such a line reads back as its value and name. */
  lemma SensorLineRoundTrip(value: string, kind: string, name: string, status: string)
    requires |value| > 0 && AllIn(value, DecimalChar)
    requires |kind| > 0 && AllIn(kind, Digit)
    requires |name| > 0 && AllIn(name, SensorNameChar)
    requires |status| > 0 && AllIn(status, Digit)
    ensures ReadingAt(SensorLine(value, kind, name, status), 0) == Some(Reading(value, name))
  {
    var v := 19 + |value|;
    var t := v + 8 + |kind|;
    var n := t + 8 + |name|;
    var e := n + 10 + |status|;
    SensorLineLayout(value, kind, name, status);
    SensorLayoutReadsBack(SensorLine(value, kind, name, status), v, t, n, e, Reading(value, name));
  }

  /** Such a line stores float(value) under the name, or raises when the value does not convert. */
  lemma SensorLineReading(value: string, kind: string, name: string, status: string)
    requires |value| > 0 && AllIn(value, DecimalChar)
    requires |kind| > 0 && AllIn(kind, Digit)
    requires |name| > 0 && AllIn(name, SensorNameChar)
    requires |status| > 0 && AllIn(status, Digit)
    ensures IsPlainDecimal(value) ==> ThermalLine(SensorLine(value, kind, name, status)) == Sensor(name, ParseDecimal(value).value)
    ensures !IsPlainDecimal(value) ==> ThermalLine(SensorLine(value, kind, name, status)) == Raise(ValueError(value))
  {
    SensorLineRoundTrip(value, kind, name, status);
  }

  lemma SensorLineLayout(value: string, kind: string, name: string, status: string)
    ensures var line := SensorLine(value, kind, name, status);
      var v := 19 + |value|;
      var t := v + 8 + |kind|;
      var n := t + 8 + |name|;
      var e := n + 10 + |status|;
      && StartsAt(line, 0, Opening) && line[19..v] == value
      && StartsAt(line, v, TypeKey) && line[v] == ',' && line[v + 8..t] == kind
      && StartsAt(line, t, NameKey) && line[t] == ',' && line[t + 8..n] == name
      && StartsAt(line, n, StatusKey) && line[n] == ',' && line[n + 10..e] == status
      && StartsAt(line, e, "}") && line[e] == '}'
  {
    var head := Opening + value + TypeKey + kind;
    HeadLayout(value, kind, NameKey + name + StatusKey + status + "}");
    TailLayout(head, name, status);
  }

  lemma HeadLayout(value: string, kind: string, tail: string)
    ensures var line := Opening + value + TypeKey + kind + tail;
      var v := 19 + |value|;
      var t := v + 8 + |kind|;
      && StartsAt(line, 0, Opening) && line[19..v] == value
      && StartsAt(line, v, TypeKey) && line[v] == ',' && line[v + 8..t] == kind
  {
  }

  lemma TailLayout(head: string, name: string, status: string)
    ensures var line := head + (NameKey + name + StatusKey + status + "}");
      var t := |head|;
      var n := t + 8 + |name|;
      var e := n + 10 + |status|;
      && StartsAt(line, t, NameKey) && line[t] == ',' && line[t + 8..n] == name
      && StartsAt(line, n, StatusKey) && line[n] == ',' && line[n + 10..e] == status
      && StartsAt(line, e, "}") && line[e] == '}'
  {
  }

  /** The match at 0 on a line laid out as the opening, a value up to v, `, mType=`, digits up
      to t, `, mName=`, a name up to n, `, mStatus=`, digits up to e and '}'. */
  lemma SensorLayoutReadsBack(line: string, v: nat, t: nat, n: nat, e: nat, f: Reading)
    requires 19 < v && v + 8 < t && t + 8 < n && n + 10 < e < |line|
    requires StartsAt(line, 0, Opening) && AllIn(line[19..v], DecimalChar)
    requires StartsAt(line, v, TypeKey) && line[v] == ',' && AllIn(line[v + 8..t], Digit)
    requires StartsAt(line, t, NameKey) && line[t] == ',' && AllIn(line[t + 8..n], SensorNameChar)
    requires StartsAt(line, n, StatusKey) && line[n] == ',' && AllIn(line[n + 10..e], Digit)
    requires StartsAt(line, e, "}") && line[e] == '}'
    requires f == Reading(line[19..v], line[t + 8..n])
    ensures ReadingAt(line, 0) == Some(f)
  {
    RunOverSlice(line, 19, v, DecimalChar);
    RunOverSlice(line, v + 8, t, Digit);
    RunOverSlice(line, t + 8, n, SensorNameChar);
    RunOverSlice(line, n + 10, e, Digit);
    ReadingAtIs(line, 0, v, t, n, e);
  }

  /** The match at i, once the end of each run is known. */
  lemma ReadingAtIs(line: string, i: nat, v: nat, t: nat, n: nat, e: nat)
    requires i + 19 < v && v + 8 < t && t + 8 < n && n + 10 < e < |line|
    requires StartsAt(line, i, Opening) && RunEnd(line, i + 19, DecimalChar) == v
    requires StartsAt(line, v, TypeKey) && RunEnd(line, v + 8, Digit) == t
    requires StartsAt(line, t, NameKey) && RunEnd(line, t + 8, SensorNameChar) == n
    requires StartsAt(line, n, StatusKey) && RunEnd(line, n + 10, Digit) == e && StartsAt(line, e, "}")
    ensures ReadingAt(line, i) == Some(Reading(line[i + 19..v], line[t + 8..n]))
  {
    var m := Some(Reading(line[i + 19..v], line[t + 8..n]));
    NameFromIs(line, i + 19, v, t + 8, n, e);
    KindFromIs(line, i + 19, v, v + 8, t, m);
    ValueFromIs(line, i + 19, v, m);
  }

  lemma ValueFromIs(line: string, a: nat, v: nat, m: Option<Reading>)
    requires a < v && v + 8 <= |line|
    requires RunEnd(line, a, DecimalChar) == v && StartsAt(line, v, TypeKey)
    requires KindFrom(line, a, v, v + 8) == m
    ensures ValueFrom(line, a) == m
  {
  }

  lemma KindFromIs(line: string, a: nat, v: nat, k: nat, t: nat, m: Option<Reading>)
    requires a <= v <= |line| && k < t < |line|
    requires RunEnd(line, k, Digit) == t && StartsAt(line, t, NameKey) && NameFrom(line, a, v, t + 8) == m
    ensures KindFrom(line, a, v, k) == m
  {
    assert t != k;
  }

  lemma NameFromIs(line: string, a: nat, v: nat, b: nat, n: nat, e: nat)
    requires a <= v <= |line| && b < n && n + 10 < e < |line|
    requires RunEnd(line, b, SensorNameChar) == n && StartsAt(line, n, StatusKey)
    requires RunEnd(line, n + 10, Digit) == e && StartsAt(line, e, "}")
    ensures NameFrom(line, a, v, b) == Some(Reading(line[a..v], line[b..n]))
  {
  }
}
