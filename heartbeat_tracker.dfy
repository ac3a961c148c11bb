/**
 * The collector's view of the link (`HeartbeatTracker` in vps-monitor/monitor.py):
 * a two-state machine, Online/Offline, moved offline by the periodic check when
 * heartbeats stop and back online by the next heartbeat.
 *
 * The clock is a parameter of every operation. Readings are seconds since the
 * epoch and so positive; the source's truthiness tests on stored times
 * (`if self.outage_start_time:`) then coincide with "a time is stored".
 * The heartbeat's payload is only stored by the source and is not modelled.
 */
module HeartbeatTracking {
  import opened Options

  /** A wall-clock reading, as `time.time()` returns it. */
  type Timestamp = t: real | t > 0.0 witness 1.0

  /** The settings the tracker reads, and when the process started. */
  datatype TrackerConfig = TrackerConfig(heartbeatTimeoutSeconds: int, startupGraceSeconds: int, startupTime: Timestamp)

  datatype TrackerState = TrackerState(isOnline: bool, lastHeartbeatTime: Option<Timestamp>,
                                       outageStartTime: Option<Timestamp>)

  /** What `record_heartbeat` returns. */
  datatype HeartbeatEvent = Ack | Restored(durationSeconds: real)

  /** What `check_status` returns when it declares the link down. */
  datatype DownEvent = NoHeartbeatReceived | HeartbeatTimeout(lastHeartbeatAge: real)

  /** A state together with what an operation returned. */
  datatype Step<E> = Step(state: TrackerState, emitted: E)

  /** Python truthiness of an optional float: present and nonzero. */
  predicate Truthy(t: Option<Timestamp>)
  {
    t.Some? && t.value != 0.0
  }

  /** An outage start is recorded exactly while the link is offline. */
  predicate Consistent(s: TrackerState)
  {
    s.isOnline <==> s.outageStartTime.None?
  }

  /** The state `HeartbeatTracker.__init__` sets up: online, nothing heard yet. */
  function Initial(): TrackerState
  {
    TrackerState(true, None, None)
  }

  /** `record_heartbeat` at time `now`. */
  function AfterHeartbeat(s: TrackerState, now: Timestamp): Step<HeartbeatEvent>
  {
    var wasOffline := !s.isOnline;
    if wasOffline && Truthy(s.outageStartTime) then
      Step(TrackerState(true, Some(now), None), Restored(now - s.outageStartTime.value))
    else
      Step(TrackerState(true, Some(now), s.outageStartTime), Ack)
  }

  /** `check_status` at time `now`. */
  function AfterCheck(cfg: TrackerConfig, s: TrackerState, now: Timestamp): Step<Option<DownEvent>>
  {
    if now - cfg.startupTime < cfg.startupGraceSeconds as real then Step(s, None)
    else if s.lastHeartbeatTime.None? then
      if s.isOnline then Step(s.(isOnline := false, outageStartTime := Some(now)), Some(NoHeartbeatReceived))
      else Step(s, None)
    else
      var sinceHeartbeat := now - s.lastHeartbeatTime.value;
      if sinceHeartbeat > cfg.heartbeatTimeoutSeconds as real && s.isOnline then
        Step(s.(isOnline := false, outageStartTime := s.lastHeartbeatTime), Some(HeartbeatTimeout(sinceHeartbeat)))
      else Step(s, None)
  }

  /** A heartbeat always brings the link online and becomes the last one heard. */
  lemma HeartbeatBringsOnline(s: TrackerState, now: Timestamp)
    ensures AfterHeartbeat(s, now).state.isOnline
    ensures AfterHeartbeat(s, now).state.lastHeartbeatTime == Some(now)
  {
  }

  /**
   * A heartbeat reports `restored` exactly when the link was offline, with the
   * time since the recorded outage start, which it then clears; otherwise it
   * reports a plain heartbeat and leaves the outage start alone.
   */
  lemma HeartbeatRestores(s: TrackerState, now: Timestamp)
    requires Consistent(s)
    ensures var after := AfterHeartbeat(s, now);
            (after.emitted.Restored? <==> !s.isOnline)
            && (after.emitted.Restored? ==>
                  after.emitted.durationSeconds == now - s.outageStartTime.value && after.state.outageStartTime == None)
            && (after.emitted == Ack ==> after.state.outageStartTime == s.outageStartTime)
  {
  }

  /** Within the startup grace period the check reports nothing and changes nothing. */
  lemma CheckDuringGrace(cfg: TrackerConfig, s: TrackerState, now: Timestamp)
    requires now - cfg.startupTime < cfg.startupGraceSeconds as real
    ensures AfterCheck(cfg, s, now) == Step(s, None)
  {
  }

  /**
   * Past the grace period with no heartbeat ever heard, an online link goes
   * offline with the outage starting now; an offline one stays as it is.
   */
  lemma CheckWithoutHeartbeat(cfg: TrackerConfig, s: TrackerState, now: Timestamp)
    requires now - cfg.startupTime >= cfg.startupGraceSeconds as real
    requires s.lastHeartbeatTime.None?
    ensures AfterCheck(cfg, s, now)
            == if s.isOnline then Step(TrackerState(false, None, Some(now)), Some(NoHeartbeatReceived))
               else Step(s, None)
  {
  }

  /**
   * Past the grace period, the link is declared down exactly when it is online
   * and the last heartbeat is strictly older than the timeout; the outage is
   * back-dated to that heartbeat, not to now.
   */
  lemma CheckTimeout(cfg: TrackerConfig, s: TrackerState, now: Timestamp)
    requires now - cfg.startupTime >= cfg.startupGraceSeconds as real
    requires s.lastHeartbeatTime.Some?
    ensures var after := AfterCheck(cfg, s, now);
            var age := now - s.lastHeartbeatTime.value;
            (after.emitted.Some? <==> s.isOnline && age > cfg.heartbeatTimeoutSeconds as real)
            && (after.emitted.Some? ==>
                  after.emitted == Some(HeartbeatTimeout(age))
                  && after.state == TrackerState(false, s.lastHeartbeatTime, s.lastHeartbeatTime))
            && (after.emitted.None? ==> after.state == s)
  {
  }

  /** The initial state is consistent, and both operations keep it so. */
  lemma ConsistencyPreserved(cfg: TrackerConfig, s: TrackerState, now: Timestamp)
    ensures Consistent(Initial())
    ensures Consistent(s) ==> Consistent(AfterHeartbeat(s, now).state)
    ensures Consistent(s) ==> Consistent(AfterCheck(cfg, s, now).state)
  {
  }

  /* ---------- Runs: sequences of heartbeats and checks ---------- */

  datatype TrackerOp = HeartbeatAt(time: Timestamp) | CheckAt(time: Timestamp)

  /** What the tracker reported: every heartbeat's answer, and each `down`. */
  datatype Report = FromHeartbeat(event: HeartbeatEvent) | FromCheck(down: DownEvent)

  /** The state after a run of operations, with the reports it produced in order. */
  function Run(cfg: TrackerConfig, s: TrackerState, ops: seq<TrackerOp>): (Step<seq<Report>>)
    decreases |ops|
  {
    if ops == [] then Step(s, [])
    else
      match ops[0]
      case HeartbeatAt(now) =>
        var after := AfterHeartbeat(s, now);
        var rest := Run(cfg, after.state, ops[1..]);
        Step(rest.state, [FromHeartbeat(after.emitted)] + rest.emitted)
      case CheckAt(now) =>
        var after := AfterCheck(cfg, s, now);
        var rest := Run(cfg, after.state, ops[1..]);
        Step(rest.state, (if after.emitted.Some? then [FromCheck(after.emitted.value)] else []) + rest.emitted)
  }

  /**
   * Reports that a tracker starting online (or offline) can produce: `down`
   * only while online and `restored` only while offline, so they alternate,
   * and a plain heartbeat only while online.
   */
  ghost predicate Alternates(reports: seq<Report>, online: bool)
    decreases |reports|
  {
    reports == []
    || match reports[0]
       case FromHeartbeat(Ack) => online && Alternates(reports[1..], true)
       case FromHeartbeat(Restored(_)) => !online && Alternates(reports[1..], true)
       case FromCheck(_) => online && Alternates(reports[1..], false)
  }

  /**
   * Over any run from a consistent state, consistency holds at the end and the
   * reports alternate: at most one `down` per outage, every outage closed by
   * exactly one `restored`.
   */
  lemma {:induction false} RunAlternates(cfg: TrackerConfig, s: TrackerState, ops: seq<TrackerOp>)
    requires Consistent(s)
    ensures Consistent(Run(cfg, s, ops).state)
    ensures Alternates(Run(cfg, s, ops).emitted, s.isOnline)
    decreases |ops|
  {
    if ops != [] {
      match ops[0]
      case HeartbeatAt(now) =>
        var after := AfterHeartbeat(s, now);
        RunAlternates(cfg, after.state, ops[1..]);
        var reports := Run(cfg, s, ops).emitted;
        assert reports[1..] == Run(cfg, after.state, ops[1..]).emitted;
      case CheckAt(now) =>
        var after := AfterCheck(cfg, s, now);
        RunAlternates(cfg, after.state, ops[1..]);
        var rest := Run(cfg, after.state, ops[1..]).emitted;
        if after.emitted.Some? {
          assert s.isOnline && !after.state.isOnline;
          assert Run(cfg, s, ops).emitted == [FromCheck(after.emitted.value)] + rest;
          assert ([FromCheck(after.emitted.value)] + rest)[1..] == rest;
        } else {
          assert after.state == s;
          assert Run(cfg, s, ops).emitted == [] + rest == rest;
        }
    }
  }

  /** Checks that all fall within the startup grace period never report `down`, whatever heartbeats arrive. */
  lemma {:induction false} NoDownDuringGrace(cfg: TrackerConfig, s: TrackerState, ops: seq<TrackerOp>)
    requires forall i :: 0 <= i < |ops| && ops[i].CheckAt? ==>
               ops[i].time - cfg.startupTime < cfg.startupGraceSeconds as real
    ensures forall i :: 0 <= i < |Run(cfg, s, ops).emitted| ==> Run(cfg, s, ops).emitted[i].FromHeartbeat?
    decreases |ops|
  {
    if ops != [] {
      assert ops[0].CheckAt? ==> ops[0].time - cfg.startupTime < cfg.startupGraceSeconds as real;
      match ops[0]
      case HeartbeatAt(now) =>
        NoDownDuringGrace(cfg, AfterHeartbeat(s, now).state, ops[1..]);
      case CheckAt(now) =>
        NoDownDuringGrace(cfg, s, ops[1..]);
    }
  }

  /**
   * Timeout 180 s, grace 120 s, started at 1000: a heartbeat at 1200; a check
   * at 1380 (exactly the timeout) does nothing; at 1381 the link goes down,
   * back-dated to 1200; a later check stays quiet; the heartbeat at 1500
   * restores it after 300 s.
   */
  lemma TimeoutThenRestoreScenario()
    ensures var run := Run(TrackerConfig(180, 120, 1000.0), Initial(),
                           [HeartbeatAt(1200.0), CheckAt(1380.0), CheckAt(1381.0), CheckAt(1400.0), HeartbeatAt(1500.0)]);
            run.emitted == [FromHeartbeat(Ack), FromCheck(HeartbeatTimeout(181.0)), FromHeartbeat(Restored(300.0))]
            && run.state == TrackerState(true, Some(1500.0), None)
  {
  }

  /* ---------- The tracker object ---------- */

  class HeartbeatTracker {
    const config: TrackerConfig
    var lastHeartbeatTime: Option<Timestamp>
    var isOnline: bool
    var outageStartTime: Option<Timestamp>

    function State(): TrackerState
      reads this
    {
      TrackerState(isOnline, lastHeartbeatTime, outageStartTime)
    }

    ghost predicate Valid()
      reads this
    {
      Consistent(State())
    }

    constructor (heartbeatTimeoutSeconds: int, startupGraceSeconds: int, startupTime: Timestamp)
      ensures Valid() && State() == Initial()
      ensures config == TrackerConfig(heartbeatTimeoutSeconds, startupGraceSeconds, startupTime)
    {
      config := TrackerConfig(heartbeatTimeoutSeconds, startupGraceSeconds, startupTime);
      lastHeartbeatTime := None;
      isOnline := true;
      outageStartTime := None;
    }

    /** `record_heartbeat`: the new state and the answer are those of `AfterHeartbeat`. */
    method RecordHeartbeat(now: Timestamp) returns (e: HeartbeatEvent)
      requires Valid()
      modifies this
      ensures Valid()
      ensures Step(State(), e) == AfterHeartbeat(old(State()), now)
    {
      var wasOffline := !isOnline;
      lastHeartbeatTime := Some(now);
      isOnline := true;
      if wasOffline && Truthy(outageStartTime) {
        var duration := now - outageStartTime.value;
        outageStartTime := None;
        return Restored(duration);
      }
      return Ack;
    }

    /** `check_status`: the new state and the answer are those of `AfterCheck`. */
    method CheckStatus(now: Timestamp) returns (e: Option<DownEvent>)
      requires Valid()
      modifies this
      ensures Valid()
      ensures Step(State(), e) == AfterCheck(config, old(State()), now)
    {
      if now - config.startupTime < config.startupGraceSeconds as real {
        return None;
      }
      if lastHeartbeatTime.None? {
        if isOnline {
          isOnline := false;
          outageStartTime := Some(now);
          return Some(NoHeartbeatReceived);
        }
        return None;
      }
      var timeSinceHeartbeat := now - lastHeartbeatTime.value;
      if timeSinceHeartbeat > config.heartbeatTimeoutSeconds as real {
        if isOnline {
          isOnline := false;
          outageStartTime := lastHeartbeatTime;
          return Some(HeartbeatTimeout(timeSinceHeartbeat));
        }
      }
      return None;
    }

    /**
     * `get_status` at time `now`: the stored fields, and the ages measured from
     * them, present exactly when the time they are measured from is; the outage
     * duration is present exactly while offline.
     */
    function GetStatus(now: Timestamp): (s: StatusSnapshot)
      reads this
      ensures s.isOnline == isOnline && s.lastHeartbeatTime == lastHeartbeatTime
      ensures s.outageStartTime == outageStartTime
      ensures s.lastHeartbeatAgeSeconds.Some? <==> lastHeartbeatTime.Some?
      ensures s.lastHeartbeatAgeSeconds.Some? ==> lastHeartbeatTime.value + s.lastHeartbeatAgeSeconds.value == now
      ensures s.currentOutageDurationSeconds.Some? <==> outageStartTime.Some?
      ensures s.currentOutageDurationSeconds.Some? ==>
                outageStartTime.value + s.currentOutageDurationSeconds.value == now
      ensures Valid() ==> (s.currentOutageDurationSeconds.Some? <==> !isOnline)
    {
      StatusSnapshot(
        isOnline,
        lastHeartbeatTime,
        if Truthy(lastHeartbeatTime) then Some(now - lastHeartbeatTime.value) else None,
        outageStartTime,
        if Truthy(outageStartTime) then Some(now - outageStartTime.value) else None)
    }
  }

  /** The dictionary `get_status` returns. */
  datatype StatusSnapshot = StatusSnapshot(
    isOnline: bool,
    lastHeartbeatTime: Option<Timestamp>,
    lastHeartbeatAgeSeconds: Option<real>,
    outageStartTime: Option<Timestamp>,
    currentOutageDurationSeconds: Option<real>)
}
