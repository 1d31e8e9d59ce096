/** The classifier of diagnose.py:174-193: the two threshold filters that pick out heavy
    processes and heavy apps, and the name heuristic that tells system processes from apps. */
module Classifier {
  import opened Records

  /** A process at or above this CPU percentage is heavy. */
  const HeavyCpu: real := 50.0

  /** An app at or above this many megabytes of RSS is heavy. */
  const HeavyRam: real := 300.0

  /** The elements of xs that satisfy keep, in their order in xs (a list comprehension with a
      condition). */
  function Keep<T(!new)>(xs: seq<T>, keep: T -> bool): (r: seq<T>)
    ensures |r| <= |xs|
  {
    if xs == [] then []
    else (if keep(xs[0]) then [xs[0]] else []) + Keep(xs[1..], keep)
  }

  /** An element is kept exactly when it occurs in xs and passes. */
  lemma {:induction false} KeepMembers<T(!new)>(xs: seq<T>, keep: T -> bool)
    ensures forall x :: x in Keep(xs, keep) <==> x in xs && keep(x)
  {
    if xs != [] {
      KeepMembers(xs[1..], keep);
      assert xs == [xs[0]] + xs[1..];
    }
  }

  /** Filtering a concatenation filters each part. */
  lemma {:induction false} KeepDistributes<T(!new)>(xs: seq<T>, ys: seq<T>, keep: T -> bool)
    ensures Keep(xs + ys, keep) == Keep(xs, keep) + Keep(ys, keep)
  {
    if xs != [] {
      var head := if keep(xs[0]) then [xs[0]] else [];
      assert (xs + ys)[0] == xs[0];
      assert (xs + ys)[1..] == xs[1..] + ys;
      KeepDistributes(xs[1..], ys, keep);
      calc {
        Keep(xs + ys, keep);
        head + Keep(xs[1..] + ys, keep);
        head + (Keep(xs[1..], keep) + Keep(ys, keep));
        (head + Keep(xs[1..], keep)) + Keep(ys, keep);
      }
    } else {
      assert xs + ys == ys;
    }
  }

  /** A single element is kept exactly when it passes; with KeepDistributes this pins Keep
      down as the filter that keeps the passing elements in their order. */
  lemma KeepSingle<T(!new)>(x: T, keep: T -> bool)
    ensures Keep([x], keep) == if keep(x) then [x] else []
  {
    assert [x][1..] == [];
  }

  /** Filtering twice keeps what filtering once keeps. */
  lemma {:induction false} KeepIdempotent<T(!new)>(xs: seq<T>, keep: T -> bool)
    ensures Keep(Keep(xs, keep), keep) == Keep(xs, keep)
  {
    if xs != [] {
      KeepIdempotent(xs[1..], keep);
      var head := if keep(xs[0]) then [xs[0]] else [];
      KeepDistributes(head, Keep(xs[1..], keep), keep);
      assert Keep(head, keep) == head by {
        if keep(xs[0]) {
          assert [xs[0]][1..] == [];
        }
      }
    }
  }

  predicate IsHeavyProcess(p: Process) {
    p.cpu >= HeavyCpu
  }

  predicate IsHeavyApp(a: MemEntry) {
    a.ramMb >= HeavyRam
  }

  /** highlight_heavy_cpu: the processes at or above 50% CPU, in input order. */
  function HighlightHeavyCpu(processes: seq<Process>): (r: seq<Process>)
    ensures forall p :: p in r <==> p in processes && p.cpu >= 50.0
  {
    KeepMembers(processes, IsHeavyProcess);
    Keep(processes, IsHeavyProcess)
  }

  /** highlight_heavy_ram: the apps at or above 300 MB, in input order. */
  function HighlightHeavyRam(apps: seq<MemEntry>): (r: seq<MemEntry>)
    ensures forall a :: a in r <==> a in apps && a.ramMb >= 300.0
  {
    KeepMembers(apps, IsHeavyApp);
    Keep(apps, IsHeavyApp)
  }

  /** The heavy processes of a table split in two are the heavy processes of each part, in
      the same order; a single process is kept exactly when it is at or above 50%. */
  lemma HeavyCpuInOrder(xs: seq<Process>, ys: seq<Process>, p: Process)
    ensures HighlightHeavyCpu(xs + ys) == HighlightHeavyCpu(xs) + HighlightHeavyCpu(ys)
    ensures HighlightHeavyCpu([p]) == if p.cpu >= 50.0 then [p] else []
  {
    KeepDistributes(xs, ys, IsHeavyProcess);
    KeepSingle(p, IsHeavyProcess);
  }

  /** The same for apps and the 300 MB threshold. */
  lemma HeavyRamInOrder(xs: seq<MemEntry>, ys: seq<MemEntry>, a: MemEntry)
    ensures HighlightHeavyRam(xs + ys) == HighlightHeavyRam(xs) + HighlightHeavyRam(ys)
    ensures HighlightHeavyRam([a]) == if a.ramMb >= 300.0 then [a] else []
  {
    KeepDistributes(xs, ys, IsHeavyApp);
    KeepSingle(a, IsHeavyApp);
  }

  /** Highlighting an already highlighted list changes nothing. */
  lemma HighlightIdempotent(processes: seq<Process>, apps: seq<MemEntry>)
    ensures HighlightHeavyCpu(HighlightHeavyCpu(processes)) == HighlightHeavyCpu(processes)
    ensures HighlightHeavyRam(HighlightHeavyRam(apps)) == HighlightHeavyRam(apps)
  {
    KeepIdempotent(processes, IsHeavyProcess);
    KeepIdempotent(apps, IsHeavyApp);
  }

  /** The threshold is inclusive: exactly 50% CPU and exactly 300 MB are heavy; just below is not. */
  lemma ThresholdsAreInclusive(p: Process, a: MemEntry)
    requires p.cpu == 50.0 && a.ramMb == 300.0
    ensures HighlightHeavyCpu([p]) == [p] && HighlightHeavyRam([a]) == [a]
    ensures HighlightHeavyCpu([p.(cpu := 49.9)]) == [] && HighlightHeavyRam([a.(ramMb := 299.9)]) == []
  {
    assert p in HighlightHeavyCpu([p]);
    assert a in HighlightHeavyRam([a]);
  }

  // ------------------------------------------------------------ system processes

  /** The names whose prefixes mark a system process, in their listed order (duplicates
      included). The list is held in four parts so that the verifier can index it. */
  const SystemNames: seq<string> := SystemNamesA + SystemNamesB + SystemNamesC + SystemNamesD

  const SystemNamesA: seq<string> := [
    "system_server", "surfaceflinger", "audioserver", "mediaserver", "zygote", "init", "logd", "statsd",
    "adbd", "android.hardware", "vendor.", "servicemanager", "hwservicemanager", "gatekeeperd", "keystore2",
    "rild", "netd", "lmkd", "cameraserver", "drmserver", "gpsd", "vaultkeeperd", "watchdogd", "traced"
  ]
  const SystemNamesB: seq<string> := [
    "traced_probes", "tombstoned", "ueventd", "vold", "auditd", "credstore", "perfsdkserver", "main_abox",
    "abox_log", "fabric_crypto", "incidentd", "iod", "cass", "smdexe", "speg_helper", "spqr_service",
    "emservice", "tzdaemon", "prng_seeder", "smc_server", "wlbtd", "connfwexe", "ddexe", "diagexe"
  ]
  const SystemNamesC: seq<string> := [
    "cbd", "media.swcodec", "media.extractor", "media.metrics", "android.system.suspend-service",
    "android.hardware.memtrack-service.exynos", "android.hardware.bluetooth@1.0-service",
    "android.hardware.drm-service.widevine", "android.hardware.drm-service.clearkey",
    "android.hardware.gatekeeper@1.0-service", "android.hardware.graphics.allocator@4.0-service",
    "android.hardware.graphics.composer@2.2-service", "android.hardware.power.samsung-service",
    "android.hardware.sensors-service.multihal", "android.hardware.usb@1.3-service.coral",
    "android.hardware.vibrator-service", "android.hardware.wifi-service", "android.hardware.audio.service",
    "android.hardware.security.keymint-service", "android.hardware.security.fkeymaster-service",
    "android.hardware.security.drk@2.0-service", "android.hardware.security.engmode@1.0-service",
    "android.hardware.security.proca@2.0-service", "vendor.samsung.hardware."
  ]
  const SystemNamesD: seq<string> := [
    "samsung.hardware.media.c2@1.2-service", "samsung.software.media.c2@1.0-service", "vaultkeeperd",
    "perfmond", "pageboostd", "multiclientd", "wlbtd", "kumiho.decoder", "gpuservice", "vndservicemanager",
    "prey", "preyproject", "android.process.media", "android.process.acore", "android.process", "zygote64",
    "zygote"
  ]

  /** str.startswith */
  predicate StartsWith(name: string, prefix: string) {
    |prefix| <= |name| && name[..|prefix|] == prefix
  }

  /** any(name.startswith(n) for n in names[i..]), scanned in list order. */
  function StartsWithAny(name: string, names: seq<string>, i: nat): (b: bool)
    requires i <= |names|
    ensures b <==> exists k :: i <= k < |names| && StartsWith(name, names[k])
    decreases |names| - i
  {
    if i == |names| then false
    else StartsWith(name, names[i]) || StartsWithAny(name, names, i + 1)
  }

  /** is_system_process: the name begins with a listed name, or has no dot at all. */
  function IsSystemProcess(name: string): (b: bool)
    ensures b <==> (exists n :: n in SystemNames && StartsWith(name, n)) || '.' !in name
  {
    StartsWithAny(name, SystemNames, 0) || '.' !in name
  }

  /** A name that is system because of a listed prefix stays system whatever follows it, dots
      included. */
  lemma SystemPrefixSurvivesSuffix(name: string, suffix: string)
    requires exists n :: n in SystemNames && StartsWith(name, n)
    ensures IsSystemProcess(name + suffix)
  {
    var n :| n in SystemNames && StartsWith(name, n);
    assert (name + suffix)[..|n|] == name[..|n|];
  }

  /** zygote is system twice over (listed, and without a dot); vendor.qti.x by the prefix
      vendor.; a dotless name such as kworker that is not listed is system all the same. */
  lemma SystemExamples()
    ensures IsSystemProcess("zygote")
    ensures IsSystemProcess("vendor.qti.x")
    ensures IsSystemProcess("kworker")
  {
    assert SystemNames[10] == "vendor.";
    assert StartsWith("vendor.qti.x", SystemNames[10]);
  }

  /** A dotted name that no listed name begins is an app. */
  lemma AppExample()
    ensures !IsSystemProcess("org.mozilla.firefox")
  {
    var name := "org.mozilla.firefox";
    ShortNamesA(name);
    ShortNamesB(name);
    ShortNamesC(name);
    ShortNamesD(name);
    NoListedPrefix(name, SystemNames);
    assert name[3] == '.';
  }

  /** n is too long to begin name, or starts with another character. */
  predicate CannotPrefix(n: string, name: string) {
    |n| > |name| || (|n| > 0 && |name| > 0 && n[0] != name[0])
  }

  /** No listed name is a prefix of a name that each of them cannot begin. */
  lemma NoListedPrefix(name: string, names: seq<string>)
    requires forall k :: 0 <= k < |names| ==> CannotPrefix(names[k], name)
    ensures forall n :: n in names ==> !StartsWith(name, n)
  {
    forall n | n in names
      ensures !StartsWith(name, n)
    {
      if 0 < |n| <= |name| {
        assert name[..|n|][0] == name[0];
      }
    }
  }

  lemma ShortNamesA(name: string)
    requires name == "org.mozilla.firefox"
    ensures forall k :: 0 <= k < |SystemNamesA| ==> CannotPrefix(SystemNamesA[k], name)
  {
  }

  lemma ShortNamesB(name: string)
    requires name == "org.mozilla.firefox"
    ensures forall k :: 0 <= k < |SystemNamesB| ==> CannotPrefix(SystemNamesB[k], name)
  {
  }

  lemma ShortNamesC(name: string)
    requires name == "org.mozilla.firefox"
    ensures forall k :: 0 <= k < |SystemNamesC| ==> CannotPrefix(SystemNamesC[k], name)
  {
  }

  lemma ShortNamesD(name: string)
    requires name == "org.mozilla.firefox"
    ensures forall k :: 0 <= k < |SystemNamesD| ==> CannotPrefix(SystemNamesD[k], name)
  {
  }
}
