/** The frame-timing parser, collect_gfx_stats_from_raw (diagnose.py:481-502): the lines after
    the first one that contains `Profile data in ms:` are read up to the next whitespace-only
    line; a line of exactly three numbers is one frame, whose time is their sum. The result is
    the mean frame time, the number of frames slower than 16.67 ms and the frame count. */
module GfxParser {
  import opened Text
  import opened Numbers
  import opened Records

  const ProfileMarker := "Profile data in ms:"

  /** A frame slower than this many milliseconds counts as jank. */
  const JankThreshold: real := 16.67

  /** The time of a line of the section: the sum of its three numbers (draw, process, execute);
      None for any other number of tokens or when float() rejects one of them. */
  function FrameTime(line: string): (t: Option<real>)
    ensures var toks := Tokens(line);
      t.Some? <==> |toks| == 3 && ParseFloat(toks[0]).Some? && ParseFloat(toks[1]).Some? && ParseFloat(toks[2]).Some?
    ensures t.Some? ==> var toks := Tokens(line);
      |toks| == 3 && ParseFloat(toks[0]).Some? && ParseFloat(toks[1]).Some? && ParseFloat(toks[2]).Some?
      && t.value == ParseFloat(toks[0]).value + ParseFloat(toks[1]).value + ParseFloat(toks[2]).value
  {
    var parts := Tokens(line);
    if |parts| != 3 then None
    else
      match (ParseFloat(parts[0]), ParseFloat(parts[1]), ParseFloat(parts[2]))
      case (Some(draw), Some(process), Some(execute)) => Some(draw + process + execute)
      case _ => None
  }

  /** A number float() accepts is a word: non-empty, without whitespace. */
  lemma NumberIsWord(w: string)
    requires ParseFloat(w).Some?
    ensures w != [] && AllIn(w, NonSpace)
  {
    if !IsPlainDecimal(w) {
      assert forall k :: 1 <= k < |w| ==> w[k] == w[1..][k - 1];
    }
  }

  /** Three numbers written on one line, separated by single spaces, are one frame whose time
      is their sum. */
  lemma FrameTimeOfRow(draw: string, process: string, execute: string)
    requires ParseFloat(draw).Some? && ParseFloat(process).Some? && ParseFloat(execute).Some?
    ensures FrameTime(JoinWords([draw, process, execute]))
      == Some(ParseFloat(draw).value + ParseFloat(process).value + ParseFloat(execute).value)
  {
    var ws := [draw, process, execute];
    NumberIsWord(draw);
    NumberIsWord(process);
    NumberIsWord(execute);
    forall k | 0 <= k < 3
      ensures ws[k] != [] && AllIn(ws[k], NonSpace)
    {
      if k == 0 {
        assert ws[k] == draw;
      } else if k == 1 {
        assert ws[k] == process;
      } else {
        assert ws[k] == execute;
      }
    }
    TokensOfJoin(ws);
    FrameTimeOfTokens(JoinWords(ws), draw, process, execute);
  }

  lemma FrameTimeOfTokens(line: string, draw: string, process: string, execute: string)
    requires Tokens(line) == [draw, process, execute]
    requires ParseFloat(draw).Some? && ParseFloat(process).Some? && ParseFloat(execute).Some?
    ensures FrameTime(line) == Some(ParseFloat(draw).value + ParseFloat(process).value + ParseFloat(execute).value)
  {
  }

  /** How the loop at diagnose.py:484-495 treats a line: the marker test comes first, the
      blank test and the frame only matter inside the section. */
  datatype GfxLine = MarkerLine | BlankLine | DataLine(time: Option<real>)

  function ClassifyLine(line: string): (c: GfxLine)
    ensures c.MarkerLine? <==> Contains(line, ProfileMarker)
    ensures c.BlankLine? <==> !Contains(line, ProfileMarker) && IsBlank(line)
  {
    if Contains(line, ProfileMarker) then MarkerLine
    else if IsBlank(line) then BlankLine
    else DataLine(FrameTime(line))
  }

  function GfxLines(lines: seq<string>): (cs: seq<GfxLine>)
    ensures |cs| == |lines|
  {
    if lines == [] then [] else GfxLines(lines[..|lines| - 1]) + [ClassifyLine(lines[|lines| - 1])]
  }

  lemma {:induction false} LineClassOf(lines: seq<string>, k: nat)
    requires k < |lines|
    ensures GfxLines(lines)[k] == ClassifyLine(lines[k])
  {
    if k < |lines| - 1 {
      LineClassOf(lines[..|lines| - 1], k);
    }
  }

  /** The frame times the loop collects from cs[i..] with the flag in_section as given. */
  function FramesFrom(cs: seq<GfxLine>, i: nat, inSection: bool): (ts: seq<real>)
    requires i <= |cs|
    ensures |ts| <= |cs| - i
    decreases |cs| - i
  {
    if i == |cs| then []
    else
      match cs[i]
      case MarkerLine => FramesFrom(cs, i + 1, true)
      case BlankLine => if inSection then [] else FramesFrom(cs, i + 1, false)
      case DataLine(t) => (if inSection && t.Some? then [t.value] else []) + FramesFrom(cs, i + 1, inSection)
  }

  function FrameTimes(raw: string): seq<real> {
    FramesFrom(GfxLines(SplitLines(raw)), 0, false)
  }

  /** sum(frame_times), added left to right. */
  function Sum(ts: seq<real>): real {
    if ts == [] then 0.0 else Sum(ts[..|ts| - 1]) + ts[|ts| - 1]
  }

  /** The number of frames slower than the jank threshold. */
  function JankCount(ts: seq<real>): (n: nat)
    ensures n <= |ts|
  {
    if ts == [] then 0 else JankCount(ts[..|ts| - 1]) + (if ts[|ts| - 1] > JankThreshold then 1 else 0)
  }

  /** The indices of the frames slower than the jank threshold. */
  function SlowFrames(ts: seq<real>): set<nat> {
    set k: nat | k < |ts| && ts[k] > JankThreshold
  }

  /** JankCount counts exactly the slow frames. */
  lemma {:induction false} JankCountIsSlowFrames(ts: seq<real>)
    ensures JankCount(ts) == |SlowFrames(ts)|
    decreases |ts|
  {
    if ts != [] {
      var init := ts[..|ts| - 1];
      JankCountIsSlowFrames(init);
      var last := |ts| - 1;
      assert |ts| - 1 !in SlowFrames(init);
      if ts[last] > JankThreshold {
        assert SlowFrames(ts) == SlowFrames(init) + {last};
      } else {
        assert SlowFrames(ts) == SlowFrames(init);
      }
    }
  }

  /** The dictionary the parser returns for the collected frame times. */
  function Summary(ts: seq<real>): (r: FrameStats)
    ensures r.totalFrames == |ts|
    ensures r.avgFrameTimeMs.None? <==> ts == []
    ensures r.jankFrames.None? <==> ts == []
    ensures r.jankFrames.Some? ==> r.jankFrames.value == |SlowFrames(ts)| <= r.totalFrames
    ensures r.avgFrameTimeMs.Some? ==> r.avgFrameTimeMs.value * (|ts| as real) == Sum(ts)
  {
    if ts == [] then FrameStats(None, None, 0)
    else
      JankCountIsSlowFrames(ts);
      FrameStats(Some(Sum(ts) / (|ts| as real)), Some(JankCount(ts)), |ts|)
  }

  function GfxStats(raw: string): FrameStats {
    Summary(FrameTimes(raw))
  }

  method CollectGfxStatsFromRaw(raw: string) returns (r: FrameStats)
    ensures r == GfxStats(raw)
  {
    var frameTimes := CollectFrameTimes(SplitLines(raw));
    r := Summary(frameTimes);
  }

  /** The loop at diagnose.py:484-495 over the lines of the text. */
  method CollectFrameTimes(lines: seq<string>) returns (frameTimes: seq<real>)
    ensures frameTimes == FramesFrom(GfxLines(lines), 0, false)
  {
    ghost var cs := GfxLines(lines);
    frameTimes := [];
    var inSection := false;
    var k := 0;
    while k < |lines|
      invariant k <= |lines| == |cs|
      invariant FramesFrom(cs, 0, false) == frameTimes + FramesFrom(cs, k, inSection)
    {
      LineClassOf(lines, k);
      if Contains(lines[k], ProfileMarker) {
        inSection := true;
      } else if inSection {
        if IsBlank(lines[k]) {
          assert frameTimes + [] == frameTimes;
          return;
        }
        var t := FrameTime(lines[k]);
        if t.Some? {
          assert frameTimes + ([t.value] + FramesFrom(cs, k + 1, true)) == frameTimes + [t.value] + FramesFrom(cs, k + 1, true);
          frameTimes := frameTimes + [t.value];
        } else {
          assert [] + FramesFrom(cs, k + 1, true) == FramesFrom(cs, k + 1, true);
        }
      } else {
        assert cs[k].DataLine? ==> [] + FramesFrom(cs, k + 1, false) == FramesFrom(cs, k + 1, false);
      }
      k := k + 1;
    }
    assert frameTimes + [] == frameTimes;
  }

  // ------------------------------------------------------------ the section

  /** The index of the first marker line at or after i. */
  function FirstMarkerLine(cs: seq<GfxLine>, i: nat): (m: Option<nat>)
    requires i <= |cs|
    ensures m.Some? ==> i <= m.value < |cs| && cs[m.value].MarkerLine?
    ensures forall j :: i <= j < |cs| && (m.None? || j < m.value) ==> !cs[j].MarkerLine?
    decreases |cs| - i
  {
    if i == |cs| then None
    else if cs[i].MarkerLine? then Some(i)
    else FirstMarkerLine(cs, i + 1)
  }

  /** The index of the first blank line at or after i, or |cs|: where the section ends. */
  function SectionEnd(cs: seq<GfxLine>, i: nat): (e: nat)
    requires i <= |cs|
    ensures i <= e <= |cs|
    ensures e < |cs| ==> cs[e].BlankLine?
    ensures forall j :: i <= j < e ==> !cs[j].BlankLine?
    decreases |cs| - i
  {
    if i == |cs| || cs[i].BlankLine? then i else SectionEnd(cs, i + 1)
  }

  /** The times of the lines in cs[i..e] that are frames, in line order. */
  function DataTimes(cs: seq<GfxLine>, i: nat, e: nat): (ts: seq<real>)
    requires i <= e <= |cs|
    decreases e - i
  {
    if i == e then []
    else (if cs[i].DataLine? && cs[i].time.Some? then [cs[i].time.value] else []) + DataTimes(cs, i + 1, e)
  }

  /** Inside the section, the frames are those of the lines before the next blank line. */
  lemma {:induction false} SectionFrames(cs: seq<GfxLine>, i: nat)
    requires i <= |cs|
    ensures FramesFrom(cs, i, true) == DataTimes(cs, i, SectionEnd(cs, i))
    decreases |cs| - i
  {
    if i < |cs| && !cs[i].BlankLine? {
      SectionFrames(cs, i + 1);
    }
  }

  /** Before the section, every line up to the first marker is ignored. */
  lemma {:induction false} FramesBeforeSection(cs: seq<GfxLine>, i: nat)
    requires i <= |cs|
    ensures FirstMarkerLine(cs, i).None? ==> FramesFrom(cs, i, false) == []
    ensures FirstMarkerLine(cs, i).Some? ==> FramesFrom(cs, i, false) == FramesFrom(cs, FirstMarkerLine(cs, i).value + 1, true)
    decreases |cs| - i
  {
    if i < |cs| && !cs[i].MarkerLine? {
      FramesBeforeSection(cs, i + 1);
      assert cs[i].DataLine? ==> [] + FramesFrom(cs, i + 1, false) == FramesFrom(cs, i + 1, false);
    }
  }

  /** The frames are exactly the three-number lines between the first marker and the next
      blank line, in line order; without a marker there are none. */
  lemma FramesAreTheSection(raw: string)
    ensures var cs := GfxLines(SplitLines(raw));
      && (FirstMarkerLine(cs, 0).None? ==> FrameTimes(raw) == [])
      && (FirstMarkerLine(cs, 0).Some? ==>
            var m := FirstMarkerLine(cs, 0).value;
            FrameTimes(raw) == DataTimes(cs, m + 1, SectionEnd(cs, m + 1)))
  {
    var cs := GfxLines(SplitLines(raw));
    FramesBeforeSection(cs, 0);
    if FirstMarkerLine(cs, 0).Some? {
      SectionFrames(cs, FirstMarkerLine(cs, 0).value + 1);
    }
  }

  // ------------------------------------------------------------ the summary

  /** jank counts every frame exactly when every frame is slower than the threshold, and no
      frame exactly when none is. */
  lemma {:induction false} JankCountExtremes(ts: seq<real>)
    ensures JankCount(ts) == |ts| <==> forall k :: 0 <= k < |ts| ==> ts[k] > JankThreshold
    ensures JankCount(ts) == 0 <==> forall k :: 0 <= k < |ts| ==> ts[k] <= JankThreshold
  {
    if ts != [] {
      var init := ts[..|ts| - 1];
      JankCountExtremes(init);
      assert forall k :: 0 <= k < |init| ==> init[k] == ts[k];
    }
  }

  /** The sum of frames that all lie within [lo, hi] lies within [n lo, n hi]. */
  lemma {:induction false} SumBounded(ts: seq<real>, lo: real, hi: real)
    requires forall k :: 0 <= k < |ts| ==> lo <= ts[k] <= hi
    ensures (|ts| as real) * lo <= Sum(ts) <= (|ts| as real) * hi
  {
    if ts != [] {
      var init := ts[..|ts| - 1];
      assert forall k :: 0 <= k < |init| ==> init[k] == ts[k];
      SumBounded(init, lo, hi);
      var m, last := |init| as real, ts[|ts| - 1];
      assert Sum(ts) == Sum(init) + last && lo <= last <= hi;
      assert m * lo + lo <= Sum(ts) <= m * hi + hi;
      assert (|ts| as real) * lo == m * lo + lo && (|ts| as real) * hi == m * hi + hi by {
        assert |ts| as real == m + 1.0;
      }
    }
  }

  /** The mean frame time lies between the fastest and the slowest frame. */
  lemma MeanWithinFrameTimes(ts: seq<real>, lo: real, hi: real)
    requires ts != [] && forall k :: 0 <= k < |ts| ==> lo <= ts[k] <= hi
    ensures lo <= Summary(ts).avgFrameTimeMs.value <= hi
  {
    SumBounded(ts, lo, hi);
    QuotientBetween(Sum(ts), |ts| as real, lo, hi);
  }

  lemma QuotientBetween(total: real, n: real, lo: real, hi: real)
    requires n > 0.0 && n * lo <= total <= n * hi
    ensures lo <= total / n <= hi
  {
    var a := total / n;
    assert (a - lo) * n == total - n * lo;
    assert (hi - a) * n == n * hi - total;
  }

  /** Two frames of 7 ms and 22 ms: a mean of 14.5 ms and one jank frame. */
  lemma TwoFrameExample()
    ensures Summary([7.0, 22.0]) == FrameStats(Some(14.5), Some(1), 2)
  {
    assert [7.0, 22.0][..1] == [7.0];
    assert [7.0][..0] == [];
  }
}
