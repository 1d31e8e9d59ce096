/** The recording session of the dashboard: the globals session_active and session_data
    (dashboard.py:17-19), api_session_start (dashboard.py:411-417), one turn of the loop of
    session_monitor (dashboard.py:149-155) and api_session_stop (dashboard.py:420-431). The
    monitor thread is modelled by a flag saying whether its loop is still running; each Tick is
    one turn of that loop, taking the text the adb commands print at that moment. */
module Session {
  import opened Records
  import Dashboard

  /** The session as a value: whether a session is on, whether its monitor loop still runs,
      and the snapshots recorded so far. */
  datatype SessionState = SessionState(active: bool, monitoring: bool, data: seq<Dashboard.Snapshot>)

  /** The state when the server starts: no session, no thread, no data. */
  const Initial := SessionState(false, false, [])

  /** The monitor loop only runs within a session. */
  predicate Consistent(s: SessionState) {
    s.monitoring ==> s.active
  }

  /** api_session_start: a session that is off starts afresh with no data and a new monitor
      loop; a session already on is left as it is. */
  function Started(s: SessionState): (t: SessionState)
    ensures t.active && t.monitoring == (s.monitoring || !s.active)
    ensures s.active ==> t == s
    ensures !s.active ==> t.data == []
  {
    if s.active then s else SessionState(true, true, [])
  }

  /** One turn of session_monitor: while the session is on, the snapshot is appended; a parser
      raising ends the thread; once the session is off the loop ends. */
  function Ticked(s: SessionState, stats: Result<Dashboard.Snapshot>): (t: SessionState)
    ensures t.active == s.active
    ensures s.active && s.monitoring && stats.Success? ==> t.data == s.data + [stats.value] && t.monitoring
    ensures !(s.active && s.monitoring && stats.Success?) ==> t.data == s.data && !t.monitoring
  {
    if !(s.active && s.monitoring) then s.(monitoring := false)
    else
      match stats
      case Success(snapshot) => s.(data := s.data + [snapshot])
      case Failure(_) => s.(monitoring := false)
  }

  /** api_session_stop: the session is switched off and its monitor loop ends; the data is
      written out as it stands and is not cleared. */
  function Stopped(s: SessionState): (t: SessionState)
    ensures !t.active && !t.monitoring && t.data == s.data
  {
    SessionState(false, false, s.data)
  }

  /** What stop writes to session.json. */
  function Exported(s: SessionState): seq<Dashboard.Snapshot> {
    Stopped(s).data
  }

  /** A run of ticks, with the collect_stats outcome of each in turn. */
  function AfterTicks(s: SessionState, outcomes: seq<Result<Dashboard.Snapshot>>): SessionState
    decreases |outcomes|
  {
    if outcomes == [] then s else AfterTicks(Ticked(s, outcomes[0]), outcomes[1..])
  }

  /** The snapshots of the outcomes before the first error. */
  function Recorded(outcomes: seq<Result<Dashboard.Snapshot>>): (r: seq<Dashboard.Snapshot>)
    ensures |r| <= |outcomes|
  {
    if outcomes == [] then []
    else
      match outcomes[0]
      case Success(snapshot) => [snapshot] + Recorded(outcomes[1..])
      case Failure(_) => []
  }

  // ------------------------------------------------------------ properties

  /** Every operation keeps the monitor loop within a session. */
  lemma OperationsKeepConsistent(s: SessionState, stats: Result<Dashboard.Snapshot>)
    requires Consistent(s)
    ensures Consistent(Started(s)) && Consistent(Ticked(s, stats)) && Consistent(Stopped(s))
  {
  }

  /** A second stop exports the same data as the first. */
  lemma StopTwiceExportsSame(s: SessionState)
    ensures Exported(Stopped(s)) == Exported(s) == s.data
  {
  }

  /** Once the loop has ended, ticks record nothing more. */
  lemma {:induction false} EndedLoopRecordsNothing(s: SessionState, outcomes: seq<Result<Dashboard.Snapshot>>)
    requires !s.monitoring
    ensures AfterTicks(s, outcomes).data == s.data && AfterTicks(s, outcomes).active == s.active
    decreases |outcomes|
  {
    if outcomes != [] {
      EndedLoopRecordsNothing(Ticked(s, outcomes[0]), outcomes[1..]);
    }
  }

  /** A running session appends the snapshots of its ticks in order, up to the first tick whose
      collect_stats raised. */
  lemma {:induction false} RunningSessionRecords(s: SessionState, outcomes: seq<Result<Dashboard.Snapshot>>)
    requires s.active && s.monitoring
    ensures AfterTicks(s, outcomes).data == s.data + Recorded(outcomes)
    decreases |outcomes|
  {
    if outcomes == [] {
      assert s.data + [] == s.data;
    } else {
      var t := Ticked(s, outcomes[0]);
      match outcomes[0]
      case Success(snapshot) => {
        RunningSessionRecords(t, outcomes[1..]);
        assert s.data + [snapshot] + Recorded(outcomes[1..]) == s.data + ([snapshot] + Recorded(outcomes[1..]));
      }
      case Failure(_) => {
        EndedLoopRecordsNothing(t, outcomes[1..]);
        assert s.data + [] == s.data;
      }
    }
  }

  /** Start, ticks and stop from any state with no session: the export holds exactly the
      snapshots taken before the first error, in order. */
  lemma SessionExportsItsSnapshots(s: SessionState, outcomes: seq<Result<Dashboard.Snapshot>>)
    requires !s.active
    ensures Exported(AfterTicks(Started(s), outcomes)) == Recorded(outcomes)
  {
    RunningSessionRecords(Started(s), outcomes);
    assert [] + Recorded(outcomes) == Recorded(outcomes);
  }

  /** Without a start, however many ticks come, stop exports nothing. */
  lemma StopWithoutStartExportsNothing(outcomes: seq<Result<Dashboard.Snapshot>>)
    ensures Exported(AfterTicks(Initial, outcomes)) == []
  {
    EndedLoopRecordsNothing(Initial, outcomes);
  }

  /** Starting again after a stop discards the data of the earlier session. */
  lemma RestartDiscardsOldData(s: SessionState)
    ensures Started(Stopped(s)).data == [] && Started(Stopped(s)).monitoring
  {
  }

  /** Starting a session that is already on keeps its data and its loop. */
  lemma StartIsIdempotent(s: SessionState)
    ensures Started(Started(s)) == Started(s)
  {
  }

  // ------------------------------------------------------------ the globals

  /** The module globals session_active, session_data and the monitor thread. */
  class Session {
    var active: bool
    var monitoring: bool
    var data: seq<Dashboard.Snapshot>

    function State(): SessionState
      reads this
    {
      SessionState(active, monitoring, data)
    }

    constructor ()
      ensures State() == Initial && Consistent(State())
    {
      active := false;
      monitoring := false;
      data := [];
    }

    /** api_session_start */
    method Start()
      modifies this
      ensures State() == Started(old(State()))
      ensures Consistent(old(State())) ==> Consistent(State())
    {
      if !active {
        active := true;
        data := [];
        monitoring := true;
      }
    }

    /** One turn of the loop of session_monitor, with the text the adb commands print now and
        the clock readings. */
    method Tick(cpuRaw: string, ramRaw: string, thermalRaw: string, timestamp: real, lastUpdated: string)
      modifies this
      ensures State() == Ticked(old(State()), Dashboard.Stats(cpuRaw, ramRaw, thermalRaw, timestamp, lastUpdated))
      ensures Consistent(old(State())) ==> Consistent(State())
    {
      if active && monitoring {
        var stats := Dashboard.CollectStats(cpuRaw, ramRaw, thermalRaw, timestamp, lastUpdated);
        match stats {
          case Success(snapshot) =>
            data := data + [snapshot];
          case Failure(_) =>
            monitoring := false;
        }
      } else {
        monitoring := false;
      }
    }

    /** api_session_stop: returns what is written to session.json. */
    method Stop() returns (exported: seq<Dashboard.Snapshot>)
      modifies this
      ensures State() == Stopped(old(State())) && Consistent(State())
      ensures exported == Exported(old(State()))
    {
      active := false;
      monitoring := false;
      exported := data;
    }
  }
}
