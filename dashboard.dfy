/** collect_stats (dashboard.py:107-139): one snapshot of the device for the dashboard. The
    outputs of the three adb commands come in as text; an empty output skips its parser. The
    snapshot reports the first five processes and apps, the whole thermal map, the free memory
    left of an assumed 4096 MB after every parsed app's RSS, and a three-band verdict on it. */
module Dashboard {
  import opened Records
  import Text
  import CpuParser
  import RamParser
  import ThermalParser

  /** The memory the snapshot assumes the device has, in MB. */
  const TotalRam: nat := 4096

  /** How many processes and apps the snapshot reports. */
  const ReportedRows: nat := 5

  datatype MemHealth = Low | Medium | Good

  /** The dictionary collect_stats returns; jank and storage are always empty. */
  datatype Snapshot = Snapshot(
    cpu: seq<Process>,
    ram: seq<MemEntry>,
    thermal: map<string, real>,
    timestamp: real,
    lastUpdated: string,
    memHealth: MemHealth,
    freeRam: real,
    totalRam: nat,
    jank: map<string, real>,
    storage: map<string, real>)

  /** sum(a['ram_mb'] for a in ram), added left to right. */
  function UsedRam(ram: seq<MemEntry>): real {
    if ram == [] then 0.0 else UsedRam(ram[..|ram| - 1]) + ram[|ram| - 1].ramMb
  }

  /** The verdict on the free memory: low under 500 MB, medium under 1000 MB, good otherwise. */
  function Health(freeRam: real): (h: MemHealth)
    ensures h == Low <==> freeRam < 500.0
    ensures h == Medium <==> 500.0 <= freeRam < 1000.0
    ensures h == Good <==> freeRam >= 1000.0
  {
    if freeRam < 500.0 then Low
    else if freeRam < 1000.0 then Medium
    else Good
  }

  /** Low before medium before good. */
  function Rank(h: MemHealth): nat {
    match h
    case Low => 0
    case Medium => 1
    case Good => 2
  }

  /** The list slice [:5]. */
  function Reported<T>(s: seq<T>): (r: seq<T>)
    ensures |r| <= ReportedRows && r <= s
    ensures |s| <= ReportedRows ==> r == s
    ensures |s| > ReportedRows ==> |r| == ReportedRows
  {
    if |s| <= ReportedRows then s else s[..ReportedRows]
  }

  /** The snapshot made of the parsed lists and map. */
  function Assemble(cpu: seq<Process>, ram: seq<MemEntry>, thermal: map<string, real>, timestamp: real, lastUpdated: string): (s: Snapshot)
    ensures s.freeRam == TotalRam as real - UsedRam(ram) && s.memHealth == Health(s.freeRam)
    ensures s.cpu == Reported(cpu) && s.ram == Reported(ram) && s.thermal == thermal
    ensures s.totalRam == 4096 && s.jank == map[] && s.storage == map[]
  {
    var freeRam := TotalRam as real - UsedRam(ram);
    Snapshot(Reported(cpu), Reported(ram), thermal, timestamp, lastUpdated, Health(freeRam), freeRam, TotalRam, map[], map[])
  }

  /** The process table, or [] without running the parser when top printed nothing. */
  function CpuSource(cpuRaw: string): Result<seq<Process>> {
    if cpuRaw == [] then Success([]) else CpuParser.CpuStats(cpuRaw)
  }

  function RamSource(ramRaw: string): Result<seq<MemEntry>> {
    if ramRaw == [] then Success([]) else RamParser.RamStats(ramRaw)
  }

  function ThermalSource(thermalRaw: string): Result<map<string, real>> {
    if thermalRaw == [] then Success(map[]) else ThermalParser.Thermal(thermalRaw)
  }

  /** The snapshot, or the first error a parser raises (the process table is parsed first,
      then the memory listing, then the thermal dump). */
  function Stats(cpuRaw: string, ramRaw: string, thermalRaw: string, timestamp: real, lastUpdated: string): Result<Snapshot> {
    match CpuSource(cpuRaw)
    case Failure(e) => Failure(e)
    case Success(cpu) =>
      match RamSource(ramRaw)
      case Failure(e) => Failure(e)
      case Success(ram) =>
        match ThermalSource(thermalRaw)
        case Failure(e) => Failure(e)
        case Success(thermal) => Success(Assemble(cpu, ram, thermal, timestamp, lastUpdated))
  }

  /** collect_stats, given the text each adb command printed and the clock readings. */
  method CollectStats(cpuRaw: string, ramRaw: string, thermalRaw: string, timestamp: real, lastUpdated: string)
    returns (r: Result<Snapshot>)
    ensures r == Stats(cpuRaw, ramRaw, thermalRaw, timestamp, lastUpdated)
  {
    var cpu: Result<seq<Process>> := Success([]);
    if cpuRaw != [] {
      cpu := CpuParser.CollectCpuStatsFromRaw(cpuRaw);
    }
    if cpu.Failure? {
      return Failure(cpu.error);
    }
    var ram: Result<seq<MemEntry>> := Success([]);
    if ramRaw != [] {
      ram := RamParser.CollectRamStatsFromRaw(ramRaw);
    }
    if ram.Failure? {
      return Failure(ram.error);
    }
    var thermal: Result<map<string, real>> := Success(map[]);
    if thermalRaw != [] {
      thermal := ThermalParser.CollectThermalInfoFromRaw(thermalRaw);
    }
    if thermal.Failure? {
      return Failure(thermal.error);
    }
    r := Success(Assemble(cpu.value, ram.value, thermal.value, timestamp, lastUpdated));
  }

  // ------------------------------------------------------------ properties

  /** Skipping the parser on empty text changes nothing: each parser gives [] or {} for it. */
  lemma EmptySourcesNeedNoParser(raw: string)
    ensures CpuSource(raw) == CpuParser.CpuStats(raw)
    ensures RamSource(raw) == RamParser.RamStats(raw)
    ensures ThermalSource(raw) == ThermalParser.Thermal(raw)
  {
    if raw == [] {
      CpuParser.CpuStatsOfEmptyText();
      assert Text.SplitLines(raw) == [];
    }
  }

  /** A snapshot is made exactly when no parser raises. */
  lemma StatsFailExactly(cpuRaw: string, ramRaw: string, thermalRaw: string, timestamp: real, lastUpdated: string)
    ensures Stats(cpuRaw, ramRaw, thermalRaw, timestamp, lastUpdated).Success? <==>
      CpuParser.CpuStats(cpuRaw).Success? && RamParser.RamStats(ramRaw).Success? && ThermalParser.Thermal(thermalRaw).Success?
  {
    EmptySourcesNeedNoParser(cpuRaw);
    EmptySourcesNeedNoParser(ramRaw);
    EmptySourcesNeedNoParser(thermalRaw);
  }

  /** The used memory of two lists is the sum of each list's. */
  lemma {:induction false} UsedRamSplits(xs: seq<MemEntry>, ys: seq<MemEntry>)
    ensures UsedRam(xs + ys) == UsedRam(xs) + UsedRam(ys)
    decreases |ys|
  {
    if ys == [] {
      assert xs + ys == xs;
    } else {
      var init := ys[..|ys| - 1];
      assert (xs + ys)[..|xs + ys| - 1] == xs + init;
      UsedRamSplits(xs, init);
    }
  }

  /** The free memory counts every parsed app, not only the five reported: what the snapshot
      reports falls short of the whole by the apps after the fifth. */
  lemma FreeRamCountsEveryApp(cpu: seq<Process>, ram: seq<MemEntry>, thermal: map<string, real>, timestamp: real, lastUpdated: string)
    requires |ram| > ReportedRows
    ensures var s := Assemble(cpu, ram, thermal, timestamp, lastUpdated);
      s.freeRam == 4096.0 - UsedRam(s.ram) - UsedRam(ram[5..])
  {
    assert ram == ram[..5] + ram[5..];
    UsedRamSplits(ram[..5], ram[5..]);
  }

  /** Without any parsed app the free memory is the whole 4096 MB, and the verdict is good. */
  lemma NoAppsMeansGoodHealth(cpu: seq<Process>, thermal: map<string, real>, timestamp: real, lastUpdated: string)
    ensures var s := Assemble(cpu, [], thermal, timestamp, lastUpdated);
      s.freeRam == 4096.0 && s.memHealth == Good && s.ram == []
  {
  }

  /** More free memory never gives a worse verdict. */
  lemma HealthMonotone(a: real, b: real)
    requires a <= b
    ensures Rank(Health(a)) <= Rank(Health(b))
  {
  }

  /** Using more memory never gives a better verdict: an app added to the listing, with a
      non-negative RSS, can only lower the free memory. */
  lemma MoreAppsNeverImproveHealth(ram: seq<MemEntry>, app: MemEntry)
    requires app.ramMb >= 0.0
    ensures TotalRam as real - UsedRam(ram + [app]) <= TotalRam as real - UsedRam(ram)
    ensures Rank(Health(TotalRam as real - UsedRam(ram + [app]))) <= Rank(Health(TotalRam as real - UsedRam(ram)))
  {
    assert (ram + [app])[..|ram|] == ram;
    HealthMonotone(TotalRam as real - UsedRam(ram + [app]), TotalRam as real - UsedRam(ram));
  }
}
