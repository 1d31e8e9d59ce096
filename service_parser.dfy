/** The service parser, collect_services_from_raw (diagnose.py:504-512): every line that
    starts, after optional whitespace, with `* ServiceRecord{<hex> u<user> <package>/<service>}`
    contributes the text `<package>/<service>`, in line order. */
module ServiceParser {
  import opened Text
  import opened Records

  const RecordOpening := "* ServiceRecord{"

  /** The groups of \s*\* ServiceRecord\{[a-f0-9]+ u\d+ ([\w\.]+)/(\S+)\} */
  datatype ServiceFields = ServiceFields(package: string, service: string)

  /** The last '}' in line[lo..j], if any: where the backtracking \S+ stops so that \} can follow. */
  function LastBraceBefore(line: string, lo: nat, j: nat): (c: Option<nat>)
    requires j <= |line|
    ensures c.Some? ==> lo <= c.value < j && line[c.value] == '}'
    ensures forall k :: lo <= k < j && (c.None? || c.value < k) ==> line[k] != '}'
    decreases j
  {
    if j <= lo then None
    else if line[j - 1] == '}' then Some(j - 1)
    else LastBraceBefore(line, lo, j - 1)
  }

  /** re.match of the service pattern. Each repeated class but the last is followed by a
      character outside it (' ', '/'), so it takes its maximal run; \S+ takes the longest
      non-whitespace run and gives back characters until the next one is '}'. */
  function ServiceMatch(line: string): (m: Option<ServiceFields>)
    ensures m.Some? ==> |m.value.package| > 0 && AllIn(m.value.package, PackageChar)
    ensures m.Some? ==> |m.value.service| > 0 && AllIn(m.value.service, NonSpace)
  {
    match PackageStart(line, SkipSpace(line, 0))
    case None => None
    case Some(p) => PackageFrom(line, p)
  }

  /** Where its package group starts, once \s* has taken the whitespace before ws: after the
      opening, the record id, ` u`, the user and one space. */
  function PackageStart(line: string, ws: nat): (p: Option<nat>)
    requires ws <= |line|
    ensures p.Some? ==> ws < p.value <= |line|
  {
    if !StartsAt(line, ws, RecordOpening) then None
    else
      var h := RunEnd(line, ws + 16, HexChar);
      if h == ws + 16 || !StartsAt(line, h, " u") then None
      else
        var d := RunEnd(line, h + 2, Digit);
        if d == h + 2 || !StartsAt(line, d, " ") then None
        else Some(d + 1)
  }

  /** Its package group from p on, then '/' and the service group. */
  function PackageFrom(line: string, p: nat): (m: Option<ServiceFields>)
    requires p <= |line|
    ensures m.Some? ==> |m.value.package| > 0 && AllIn(m.value.package, PackageChar)
    ensures m.Some? ==> |m.value.service| > 0 && AllIn(m.value.service, NonSpace)
  {
    var q := RunEnd(line, p, PackageChar);
    if q == p || !StartsAt(line, q, "/") then None
    else
      var r := RunEnd(line, q + 1, NonSpace);
      var c := LastBraceBefore(line, q + 2, r);
      assert c.Some? ==> AllIn(line[q + 1..c.value], NonSpace) by {
        if c.Some? {
          AllInSlice(line, q + 1, r, q + 1, c.value, NonSpace);
        }
      }
      ServiceFieldsAt(line, p, q, c)
  }

  /** The groups, given a package run [p, q) and where the service ends. */
  function ServiceFieldsAt(line: string, p: nat, q: nat, c: Option<nat>): (m: Option<ServiceFields>)
    requires p < q < |line| && AllIn(line[p..q], PackageChar)
    requires c.Some? ==> q + 2 <= c.value <= |line| && AllIn(line[q + 1..c.value], NonSpace)
    ensures m.Some? ==> |m.value.package| > 0 && AllIn(m.value.package, PackageChar)
    ensures m.Some? ==> |m.value.service| > 0 && AllIn(m.value.service, NonSpace)
  {
    if c.None? then None else Some(ServiceFields(line[p..q], line[q + 1..c.value]))
  }

  /** f"{pkg}/{svc}" for a matching line, nothing for any other. */
  function ServiceOf(line: string): (s: Option<string>)
    ensures s.Some? ==> exists k :: 0 < k < |s.value| - 1 && s.value[k] == '/'
  {
    match ServiceMatch(line)
    case None => None
    case Some(f) =>
      assert (f.package + "/" + f.service)[|f.package|] == '/';
      Some(f.package + "/" + f.service)
  }

  function ServiceOutcomes(lines: seq<string>): (os: seq<Option<string>>)
    ensures |os| == |lines|
  {
    if lines == [] then [] else ServiceOutcomes(lines[..|lines| - 1]) + [ServiceOf(lines[|lines| - 1])]
  }

  lemma {:induction false} ServiceOutcomeOf(lines: seq<string>, k: nat)
    requires k < |lines|
    ensures ServiceOutcomes(lines)[k] == ServiceOf(lines[k])
  {
    if k < |lines| - 1 {
      ServiceOutcomeOf(lines[..|lines| - 1], k);
    }
  }

  /** The services of os[i..], in order. */
  function ServicesFrom(os: seq<Option<string>>, i: nat): (r: seq<string>)
    requires i <= |os|
    ensures |r| <= |os| - i
    decreases |os| - i
  {
    if i == |os| then []
    else (if os[i].Some? then [os[i].value] else []) + ServicesFrom(os, i + 1)
  }

  function Services(raw: string): seq<string> {
    var lines := SplitLines(raw);
    ServicesFrom(ServiceOutcomes(lines), 0)
  }

  method CollectServicesFromRaw(raw: string) returns (services: seq<string>)
    ensures services == Services(raw)
  {
    services := CollectServiceLines(SplitLines(raw));
  }

  /** The loop at diagnose.py:507-511 over the lines of the text. */
  method CollectServiceLines(lines: seq<string>) returns (services: seq<string>)
    ensures services == ServicesFrom(ServiceOutcomes(lines), 0)
  {
    ghost var os := ServiceOutcomes(lines);
    services := [];
    var k := 0;
    while k < |lines|
      invariant k <= |lines| == |os|
      invariant ServicesFrom(os, 0) == services + ServicesFrom(os, k)
    {
      var s := ServiceOfLine(lines, k);
      if s.Some? {
        assert services + ([s.value] + ServicesFrom(os, k + 1)) == services + [s.value] + ServicesFrom(os, k + 1);
        services := services + [s.value];
      } else {
        assert [] + ServicesFrom(os, k + 1) == ServicesFrom(os, k + 1);
      }
      k := k + 1;
    }
    assert services + [] == services;
  }

  /** The loop body's search on line k. */
  method ServiceOfLine(lines: seq<string>, k: nat) returns (s: Option<string>)
    requires k < |lines|
    ensures s == ServiceOutcomes(lines)[k]
  {
    s := ServiceOf(lines[k]);
    ServiceOutcomeOf(lines, k);
  }

  // ------------------------------------------------------------ properties

  /** The services are exactly those of the matching lines, in line order: an increasing line
      index for each service, and every line in between matched nothing. */
  lemma {:induction false} ServicesInOrder(os: seq<Option<string>>, i: nat) returns (idx: seq<nat>)
    requires i <= |os|
    ensures |idx| == |ServicesFrom(os, i)|
    ensures forall k :: 0 <= k < |idx| ==> i <= idx[k] < |os| && os[idx[k]] == Some(ServicesFrom(os, i)[k])
    ensures forall k, l :: 0 <= k < l < |idx| ==> idx[k] < idx[l]
    ensures forall j :: i <= j < |os| && j !in idx ==> os[j].None?
    decreases |os| - i
  {
    if i == |os| {
      idx := [];
    } else {
      var rest := ServicesInOrder(os, i + 1);
      var tail := ServicesFrom(os, i + 1);
      if os[i].Some? {
        idx := [i] + rest;
        assert ServicesFrom(os, i) == [os[i].value] + tail;
      } else {
        idx := rest;
        assert ServicesFrom(os, i) == [] + tail == tail;
      }
    }
  }

  /** Stated on the text: at most one service per line, each one of the form package/service,
      and each taken from a line that matches the pattern. */
  lemma ServicesComeFromLines(raw: string) returns (idx: seq<nat>)
    ensures var lines, r := SplitLines(raw), Services(raw);
      && |r| <= |lines| && |idx| == |r|
      && (forall k :: 0 <= k < |r| ==> idx[k] < |lines| && ServiceOf(lines[idx[k]]) == Some(r[k]))
      && (forall k, l :: 0 <= k < l < |idx| ==> idx[k] < idx[l])
      && (forall j :: 0 <= j < |lines| && j !in idx ==> ServiceMatch(lines[j]).None?)
  {
    var lines := SplitLines(raw);
    var os := ServiceOutcomes(lines);
    idx := ServicesInOrder(os, 0);
    forall k | 0 <= k < |idx| ensures ServiceOf(lines[idx[k]]) == Some(Services(raw)[k]) {
      ServiceOutcomeOf(lines, idx[k]);
    }
    forall j | 0 <= j < |lines| && j !in idx
      ensures ServiceMatch(lines[j]).None?
    {
      ServiceOutcomeOf(lines, j);
    }
  }

  // ------------------------------------------------------------ round trip

  /** line is laid out as a record: whitespace up to ws, the opening, a non-empty record id up
      to h, ` u`, digits up to d, one space, a package up to q, '/', and a service up to a '}'
      at c; whatever follows c is not looked at. */
  predicate RecordLayout(line: string, ws: nat, h: nat, d: nat, q: nat, c: nat) {
    && ws <= |line| && AllIn(line[0..ws], Space)
    && HeadLaidOut(line, ws, h, d) && TailLaidOut(line, d + 1, q, c)
  }

  /** The opening, a non-empty record id up to h, ` u`, digits up to d and one space. */
  predicate HeadLaidOut(line: string, ws: nat, h: nat, d: nat) {
    && ws + 16 < h && h + 2 < d < |line|
    && StartsAt(line, ws, RecordOpening)
    && AllIn(line[ws + 16..h], HexChar) && StartsAt(line, h, " u")
    && AllIn(line[h + 2..d], Digit) && StartsAt(line, d, " ")
  }

  /** A package from p up to q, '/', and a service up to a '}' at c. */
  predicate TailLaidOut(line: string, p: nat, q: nat, c: nat) {
    && p < q && q + 1 < c < |line|
    && AllIn(line[p..q], PackageChar) && StartsAt(line, q, "/")
    && AllIn(line[q + 1..c], NonSpace) && line[c] == '}'
  }

  /** A line matches only if it is laid out as a record, and the groups are its package and
      service. */
  lemma ServiceMatchLayout(line: string) returns (ws: nat, h: nat, d: nat, q: nat, c: nat)
    requires ServiceMatch(line).Some?
    ensures RecordLayout(line, ws, h, d, q, c)
    ensures ServiceMatch(line).value == ServiceFields(line[d + 1..q], line[q + 1..c])
  {
    ws := SkipSpace(line, 0);
    h, d := HeadLayout(line, ws);
    q, c := TailLayout(line, d + 1);
    assert ServiceMatch(line) == PackageFrom(line, d + 1);
  }

  lemma HeadLayout(line: string, ws: nat) returns (h: nat, d: nat)
    requires ws <= |line| && PackageStart(line, ws).Some?
    ensures PackageStart(line, ws) == Some(d + 1)
    ensures HeadLaidOut(line, ws, h, d)
  {
    h := RunEnd(line, ws + 16, HexChar);
    d := RunEnd(line, h + 2, Digit);
  }

  lemma TailLayout(line: string, p: nat) returns (q: nat, c: nat)
    requires p <= |line| && PackageFrom(line, p).Some?
    ensures TailLaidOut(line, p, q, c)
    ensures PackageFrom(line, p).value == ServiceFields(line[p..q], line[q + 1..c])
  {
    q := RunEnd(line, p, PackageChar);
    var r := RunEnd(line, q + 1, NonSpace);
    c := LastBraceBefore(line, q + 2, r).value;
    AllInSlice(line, q + 1, r, q + 1, c, NonSpace);
  }

  /** The line `dumpsys activity services` prints for a running service. */
  function RecordLine(pad: string, hex: string, user: string, package: string, service: string): (line: string)
  {
    (pad + RecordOpening + hex + " u" + user + " ") + (package + "/" + service + "}")
  }

  /** Such a line gives package/service back, whatever '}' the service name itself holds. */
  lemma RecordLineRoundTrip(pad: string, hex: string, user: string, package: string, service: string)
    requires AllIn(pad, Space)
    requires |hex| > 0 && AllIn(hex, HexChar)
    requires |user| > 0 && AllIn(user, Digit)
    requires |package| > 0 && AllIn(package, PackageChar)
    requires |service| > 0 && AllIn(service, NonSpace)
    ensures ServiceOf(RecordLine(pad, hex, user, package, service)) == Some(package + "/" + service)
  {
    var line := RecordLine(pad, hex, user, package, service);
    var head := pad + RecordOpening + hex + " u" + user + " ";
    var d := |head| - 1;
    var q := |head| + |package|;
    RecordHeadLayout(pad, hex, user, package + "/" + service + "}");
    RecordTailLayout(head, package, service);
    assert line == head + (package + "/" + service + "}");
    assert line[d + 1..q] == package && line[q + 1..|line| - 1] == service;
    RecordReadsBack(line, |pad|, |pad| + 16 + |hex|, d, q);
  }

  lemma RecordHeadLayout(pad: string, hex: string, user: string, tail: string)
    requires AllIn(pad, Space) && |hex| > 0 && AllIn(hex, HexChar) && |user| > 0 && AllIn(user, Digit)
    ensures var line := (pad + RecordOpening + hex + " u" + user + " ") + tail;
      var h := |pad| + 16 + |hex|;
      AllIn(line[0..|pad|], Space) && HeadLaidOut(line, |pad|, h, h + 2 + |user|)
  {
    var line := (pad + RecordOpening + hex + " u" + user + " ") + tail;
    var h := |pad| + 16 + |hex|;
    var d := h + 2 + |user|;
    assert line[0..|pad|] == pad;
    assert line[|pad| + 16..h] == hex;
    assert line[h + 2..d] == user;
    assert line[|pad|..|pad| + 16] == RecordOpening;
    assert line[h..h + 2] == " u";
    assert line[d..d + 1] == " ";
  }

  lemma RecordTailLayout(head: string, package: string, service: string)
    requires |head| > 0 && |package| > 0 && AllIn(package, PackageChar) && |service| > 0 && AllIn(service, NonSpace)
    ensures var line := head + (package + "/" + service + "}");
      var q := |head| + |package|;
      && TailLaidOut(line, |head|, q, |line| - 1)
      && line[|head|..q] == package && line[q + 1..|line| - 1] == service
  {
    var line := head + (package + "/" + service + "}");
    var q := |head| + |package|;
    assert line[|head|..q] == package;
    assert line[q..q + 1] == "/";
    assert line[q + 1..|line| - 1] == service;
  }

  /** The converse of ServiceMatchLayout, for a line that ends at its '}': such a line matches,
      with the package and service it is laid out with. */
  lemma RecordReadsBack(line: string, ws: nat, h: nat, d: nat, q: nat)
    requires |line| > 0 && RecordLayout(line, ws, h, d, q, |line| - 1)
    ensures ServiceOf(line) == Some(line[d + 1..q] + "/" + line[q + 1..|line| - 1])
  {
    HeadReadsBack(line, ws, h, d);
    TailReadsBack(line, ws, d + 1, q);
  }

  /** Where the package group starts on a line whose head is laid out as a record's. */
  lemma HeadReadsBack(line: string, ws: nat, h: nat, d: nat)
    requires ws <= |line| && AllIn(line[0..ws], Space) && HeadLaidOut(line, ws, h, d)
    ensures SkipSpace(line, 0) == ws && PackageStart(line, ws) == Some(d + 1)
  {
    assert line[ws] == line[ws..ws + 16][0];
    assert line[h] == line[h..h + 2][0];
    assert line[d] == line[d..d + 1][0];
    RunOverSlice(line, 0, ws, Space);
    RunOverSlice(line, ws + 16, h, HexChar);
    RunOverSlice(line, h + 2, d, Digit);
    PackageStartIs(line, ws, h, d);
  }

  /** The match on a line whose package group starts at p and whose rest is laid out as a
      record's tail, ending at '}'. */
  lemma TailReadsBack(line: string, ws: nat, p: nat, q: nat)
    requires ws < p && |line| > 0 && TailLaidOut(line, p, q, |line| - 1)
    requires SkipSpace(line, 0) == ws && PackageStart(line, ws) == Some(p)
    ensures ServiceOf(line) == Some(line[p..q] + "/" + line[q + 1..|line| - 1])
  {
    TailRuns(line, p, q);
    ServiceChain(line, ws, p, ServiceFields(line[p..q], line[q + 1..|line| - 1]));
  }

  /** The groups read from p on a line whose rest is laid out as a record's tail. */
  lemma TailRuns(line: string, p: nat, q: nat)
    requires |line| > 0 && TailLaidOut(line, p, q, |line| - 1)
    ensures PackageFrom(line, p) == Some(ServiceFields(line[p..q], line[q + 1..|line| - 1]))
  {
    assert line[q] == line[q..q + 1][0];
    var rest, service := line[q + 1..|line|], line[q + 1..|line| - 1];
    forall k | 0 <= k < |rest| ensures InClass(rest[k], NonSpace) {
      if k < |service| {
        assert rest[k] == service[k];
      }
    }
    RunOverSlice(line, p, q, PackageChar);
    RunOverSlice(line, q + 1, |line|, NonSpace);
    PackageFromIs(line, p, q, |line|, ServiceFields(line[p..q], line[q + 1..|line| - 1]));
  }

  /** The match, given where its package starts and what the rest of the pattern reads there. */
  lemma ServiceChain(line: string, ws: nat, p: nat, f: ServiceFields)
    requires ws < p <= |line|
    requires SkipSpace(line, 0) == ws && PackageStart(line, ws) == Some(p) && PackageFrom(line, p) == Some(f)
    ensures ServiceOf(line) == Some(f.package + "/" + f.service)
  {
    assert ServiceMatch(line) == Some(f);
  }

  lemma PackageStartIs(line: string, ws: nat, h: nat, d: nat)
    requires ws + 16 < h && h + 2 < d < |line|
    requires StartsAt(line, ws, RecordOpening)
    requires RunEnd(line, ws + 16, HexChar) == h && StartsAt(line, h, " u")
    requires RunEnd(line, h + 2, Digit) == d && StartsAt(line, d, " ")
    ensures PackageStart(line, ws) == Some(d + 1)
  {
  }

  lemma PackageFromIs(line: string, p: nat, q: nat, r: nat, f: ServiceFields)
    requires p < q && q + 2 < r <= |line|
    requires RunEnd(line, p, PackageChar) == q && StartsAt(line, q, "/")
    requires RunEnd(line, q + 1, NonSpace) == r && line[r - 1] == '}'
    requires f == ServiceFields(line[p..q], line[q + 1..r - 1])
    ensures PackageFrom(line, p) == Some(f)
  {
  }
}
