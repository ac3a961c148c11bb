/**
 * The reporting node's decision layer (`InternetMonitor` in nas-monitor/monitor.py):
 * speed-test triage with its slow-mode flag, online/outage transitions with the
 * queue of outages still to be reported, and the gated heartbeat to the VPS.
 *
 * Calls outward are modelled by what they record and what they return:
 * `event_logger.log_event` appends to `eventLog`, `notifier.send` to `notices`,
 * each speed test started to `testsRun` and each request to the VPS to
 * `vpsPosts`; the tests' measurements, the VPS's answers and the clock are
 * parameters.
 */
module InternetMonitoring {
  import opened Options
  import opened PingMonitoring
  import opened SpeedTesting

  /** `OutageEvent` without its rendered date strings. */
  datatype OutageEvent = OutageEvent(startTime: real, endTime: Option<real>, durationSeconds: Option<real>)
  {
    /** Still going on: neither end nor duration recorded. */
    predicate IsOpen()
    {
      endTime.None? && durationSeconds.None?
    }

    /** Over, and its duration is the time from start to end. */
    predicate IsClosed()
    {
      endTime.Some? && durationSeconds == Some(endTime.value - startTime)
    }
  }

  /** A row `event_logger.log_event` writes, without its rendered date string. */
  datatype LogEntry =
    | SpeedTestLogged(timestamp: real, speedMbps: real, trigger: Trigger)
    | ConfirmedSpeedTestLogged(timestamp: real, vpsSpeedMbps: real, ooklaSpeedMbps: real,
                               uploadMbps: Option<real>, trigger: Trigger, confirmedSlow: bool)
    | OutageStartLogged(timestamp: real)
    | OutageEndLogged(timestamp: real, durationSeconds: real)

  /** A speed test that was started, whatever its outcome. */
  datatype TestRun = QuickTest(trigger: Trigger) | OoklaTest(trigger: Trigger)

  /** A request to the VPS, whatever its outcome. */
  datatype VpsPost = HeartbeatPost(time: real) | OutageReport(outage: OutageEvent)

  /* ---------- Speed-test triage (`_maybe_run_speed_test`) as a function ---------- */

  /** Everything one triage run produces. */
  datatype Triage = Triage(
    result: Option<SpeedTestResult>,
    ran: seq<TestRun>,
    logged: seq<LogEntry>,
    notified: seq<Notice>,
    slowMode: bool)

  /**
   * What `_maybe_run_speed_test(trigger, onlyLogIfSlow)` does, given the quick
   * test's measurement and, should it be asked for, the Ookla run's.
   */
  function TriageOf(slowThresholdMbps: real, ooklaAvailable: bool, priorSlowMode: bool,
                    trigger: Trigger, onlyLogIfSlow: bool,
                    quick: Option<Download>, ookla: Option<OoklaMeasurement>): Triage
  {
    if quick.None? then Triage(None, [QuickTest(trigger)], [], [], priorSlowMode)
    else
      var result := QuickResult(quick.value, trigger);
      var isSlow := result.speedMbps < slowThresholdMbps;
      var confirming := isSlow && ooklaAvailable;
      var ran := [QuickTest(trigger)] + (if confirming then [OoklaTest(Confirm(trigger))] else []);
      if confirming && ookla.Some? then
        var confirmed := OoklaResult(ookla.value, Confirm(trigger));
        var confirmedSlow := confirmed.speedMbps < slowThresholdMbps;
        Triage(Some(confirmed), ran,
               [ConfirmedSpeedTestLogged(result.timestamp, result.speedMbps, confirmed.speedMbps,
                                         confirmed.uploadMbps, trigger, confirmedSlow)],
               [ConfirmedSpeedTestNotice(result.speedMbps, confirmed.speedMbps, confirmed.uploadMbps, trigger,
                                         if confirmedSlow then Slow else Fine)],
               confirmedSlow)
      else
        var report := !onlyLogIfSlow || isSlow;
        Triage(Some(result), ran,
               if report then [SpeedTestLogged(result.timestamp, result.speedMbps, result.trigger)] else [],
               if report then [NotifySpeedTest(result, slowThresholdMbps)] else [],
               isSlow)
  }

  /** A failed quick test ends the triage: nothing is returned, logged or announced, slow mode stays. */
  lemma TriageWhenQuickTestFails(threshold: real, ooklaAvailable: bool, prior: bool, trigger: Trigger,
                                 onlyLogIfSlow: bool, ookla: Option<OoklaMeasurement>)
    ensures var t := TriageOf(threshold, ooklaAvailable, prior, trigger, onlyLogIfSlow, None, ookla);
            t.result == None && t.ran == [QuickTest(trigger)] && t.logged == [] && t.notified == []
            && t.slowMode == prior
  {
  }

  /**
   * Ookla is started exactly when the quick test succeeded, measured below the
   * threshold and Ookla is installed, and then only with the `_confirm` trigger.
   */
  lemma TriageConfirmsOnlySlowQuickTests(threshold: real, ooklaAvailable: bool, prior: bool, trigger: Trigger,
                                         onlyLogIfSlow: bool, quick: Option<Download>,
                                         ookla: Option<OoklaMeasurement>)
    ensures var t := TriageOf(threshold, ooklaAvailable, prior, trigger, onlyLogIfSlow, quick, ookla);
            var confirming := quick.Some? && QuickResult(quick.value, trigger).speedMbps < threshold && ooklaAvailable;
            t.ran == [QuickTest(trigger)] + (if confirming then [OoklaTest(Confirm(trigger))] else [])
  {
  }

  /**
   * The ground truth: when Ookla confirmed, its result is returned and decides
   * slow mode; otherwise the quick result does. Either way slow mode ends up
   * as "the returned speed is below the threshold", whatever it was before.
   */
  lemma TriageGroundTruth(threshold: real, ooklaAvailable: bool, prior: bool, trigger: Trigger,
                          onlyLogIfSlow: bool, d: Download, ookla: Option<OoklaMeasurement>)
    ensures var t := TriageOf(threshold, ooklaAvailable, prior, trigger, onlyLogIfSlow, Some(d), ookla);
            var quick := QuickResult(d, trigger);
            var confirmed := quick.speedMbps < threshold && ooklaAvailable && ookla.Some?;
            t.result == Some(if confirmed then OoklaResult(ookla.value, Confirm(trigger)) else quick)
            && t.slowMode == (t.result.value.speedMbps < threshold)
  {
  }

  /**
   * Without an Ookla confirmation the quick result is logged and announced
   * exactly when the caller did not ask for "only if slow" or it is slow; a
   * confirmed test is always logged and announced once.
   */
  lemma TriageReportGating(threshold: real, ooklaAvailable: bool, prior: bool, trigger: Trigger,
                           onlyLogIfSlow: bool, d: Download, ookla: Option<OoklaMeasurement>)
    ensures var t := TriageOf(threshold, ooklaAvailable, prior, trigger, onlyLogIfSlow, Some(d), ookla);
            var quick := QuickResult(d, trigger);
            var isSlow := quick.speedMbps < threshold;
            if isSlow && ooklaAvailable && ookla.Some? then
              |t.logged| == 1 && |t.notified| == 1 && t.logged[0].ConfirmedSpeedTestLogged?
            else
              (t.logged != [] <==> !onlyLogIfSlow || isSlow)
              && (t.notified != [] <==> !onlyLogIfSlow || isSlow)
              && (t.logged != [] ==>
                    t.logged == [SpeedTestLogged(quick.timestamp, quick.speedMbps, trigger)]
                    && t.notified == [NotifySpeedTest(quick, threshold)])
  {
  }

  /**
   * A quick test at or above the threshold never starts Ookla and leaves an
   * inactive slow mode inactive.
   */
  lemma TriageFastQuickTest(threshold: real, ooklaAvailable: bool, trigger: Trigger, onlyLogIfSlow: bool,
                            d: Download, ookla: Option<OoklaMeasurement>)
    requires QuickResult(d, trigger).speedMbps >= threshold
    ensures var t := TriageOf(threshold, ooklaAvailable, false, trigger, onlyLogIfSlow, Some(d), ookla);
            t.ran == [QuickTest(trigger)] && !t.slowMode
  {
  }

  /**
   * A quick test of 20 Mbps (2.5 MB in one second) against a 50 Mbps threshold,
   * overruled by an Ookla confirmation of 55 Mbps: the 55 Mbps result is
   * returned, slow mode stays off and the notice says OK.
   */
  lemma TriageConfirmationOverrulesQuickTest()
    ensures var t := TriageOf(50.0, true, false, Scheduled, true,
                              Some(Download(1000.0, 2500000, 1.0)), Some(OoklaMeasurement(1001.0, 55.0, 10.0, 30.0)));
            t.result.Some? && t.result.value.speedMbps == 55.0 && t.result.value.trigger == Confirm(Scheduled)
            && !t.slowMode && t.notified[0].severity == Fine
  {
    assert DownloadSpeedMbps(2500000, 1.0) == 20.0;
  }

  /* ---------- Draining the queue of outages still to report (`_send_pending_outages`) ---------- */

  /**
   * How many outages at the head of `queue` the VPS accepts when `sendOk[i]`
   * is its answer to the `i`-th report: the reports succeed up to the first
   * refusal.
   */
  function Delivered(queue: seq<OutageEvent>, sendOk: seq<bool>): (k: nat)
    requires |sendOk| >= |queue|
    ensures k <= |queue|
    ensures forall j :: 0 <= j < k ==> sendOk[j]
    ensures k < |queue| ==> !sendOk[k]
    decreases |queue|
  {
    if queue == [] || !sendOk[0] then 0 else 1 + Delivered(queue[1..], sendOk[1..])
  }

  /** How many reports are attempted: the delivered ones, plus the refused one if any. */
  function Attempted(queue: seq<OutageEvent>, sendOk: seq<bool>): nat
    requires |sendOk| >= |queue|
  {
    var k := Delivered(queue, sendOk);
    if k < |queue| then k + 1 else k
  }

  /** The queue after a drain: the delivered outages gone, the refused one moved to the tail. */
  function Drained(queue: seq<OutageEvent>, sendOk: seq<bool>): seq<OutageEvent>
    requires |sendOk| >= |queue|
  {
    var k := Delivered(queue, sendOk);
    if k == |queue| then [] else queue[k + 1..] + [queue[k]]
  }

  function Reports(outages: seq<OutageEvent>): (posts: seq<VpsPost>)
    ensures |posts| == |outages|
  {
    seq(|outages|, i requires 0 <= i < |outages| => OutageReport(outages[i]))
  }

  /**
   * No outage is ever dropped: the queue shrinks by exactly the number
   * delivered, and what is delivered together with what is left is what was
   * queued.
   */
  lemma DrainKeepsEveryOutage(queue: seq<OutageEvent>, sendOk: seq<bool>)
    requires |sendOk| >= |queue|
    ensures var k := Delivered(queue, sendOk);
            |Drained(queue, sendOk)| == |queue| - k
            && multiset(queue[..k]) + multiset(Drained(queue, sendOk)) == multiset(queue)
  {
    var k := Delivered(queue, sendOk);
    var left := Drained(queue, sendOk);
    if k < |queue| {
      var delivered, refused, waiting := queue[..k], queue[k], queue[k + 1..];
      assert left == waiting + [refused];
      assert queue == delivered + [refused] + waiting;
      assert multiset(queue) == multiset(delivered) + multiset([refused]) + multiset(waiting);
      assert multiset(left) == multiset(waiting) + multiset([refused]);
    } else {
      assert queue[..k] == queue;
    }
  }

  /* ---------- The monitor ---------- */

  class InternetMonitor {
    const slowSpeedThresholdMbps: real
    const heartbeatIntervalSeconds: int
    /** Whether the Ookla library could be imported (`SPEEDTEST_AVAILABLE`). */
    const ooklaAvailable: bool

    var currentOutage: Option<OutageEvent>
    var pendingOutages: seq<OutageEvent>
    var lastHeartbeatTime: real
    var lastStatus: LinkStatus
    var lastSpeedTestTime: real
    var inSlowSpeedMode: bool

    ghost var eventLog: seq<LogEntry>
    ghost var notices: seq<Notice>
    ghost var testsRun: seq<TestRun>
    ghost var vpsPosts: seq<VpsPost>

    /**
     * An outage is open exactly while the last status was `Outage`, and every
     * queued outage is closed, its duration being the time from start to end.
     */
    ghost predicate Valid()
      reads this
    {
      (currentOutage.Some? <==> lastStatus == Outage)
      && (currentOutage.Some? ==> currentOutage.value.IsOpen())
      && (forall o :: o in pendingOutages ==> o.IsClosed())
    }

    constructor (slowSpeedThresholdMbps: real, heartbeatIntervalSeconds: int, ooklaAvailable: bool)
      ensures Valid()
      ensures this.slowSpeedThresholdMbps == slowSpeedThresholdMbps
      ensures this.heartbeatIntervalSeconds == heartbeatIntervalSeconds
      ensures this.ooklaAvailable == ooklaAvailable
      ensures currentOutage == None && pendingOutages == [] && lastHeartbeatTime == 0.0
      ensures lastStatus == Online && lastSpeedTestTime == 0.0 && !inSlowSpeedMode
      ensures eventLog == [] && notices == [] && testsRun == [] && vpsPosts == []
    {
      this.slowSpeedThresholdMbps := slowSpeedThresholdMbps;
      this.heartbeatIntervalSeconds := heartbeatIntervalSeconds;
      this.ooklaAvailable := ooklaAvailable;
      currentOutage := None;
      pendingOutages := [];
      lastHeartbeatTime := 0.0;
      lastStatus := Online;
      lastSpeedTestTime := 0.0;
      inSlowSpeedMode := false;
      eventLog, notices, testsRun, vpsPosts := [], [], [], [];
    }

    /**
     * `_check_slow_speed`: slow mode is entered below the threshold and left at
     * or above it, so afterwards it only depends on this result; applying it
     * twice is the same as once.
     */
    method CheckSlowSpeed(result: SpeedTestResult)
      modifies this`inSlowSpeedMode
      ensures inSlowSpeedMode == (result.speedMbps < slowSpeedThresholdMbps)
    {
      if result.speedMbps < slowSpeedThresholdMbps {
        if !inSlowSpeedMode {
          inSlowSpeedMode := true;
        }
      } else {
        if inSlowSpeedMode {
          inSlowSpeedMode := false;
        }
      }
    }

    /**
     * `_maybe_run_speed_test`: the quick test, an Ookla confirmation when it
     * looks slow, logging and announcing, and the slow-mode update, as
     * `TriageOf` describes; the time of the last test moves only when the
     * quick test succeeded.
     */
    method MaybeRunSpeedTest(trigger: Trigger, onlyLogIfSlow: bool, now: real,
                             quick: Option<Download>, ookla: Option<OoklaMeasurement>)
      returns (r: Option<SpeedTestResult>)
      modifies this`inSlowSpeedMode, this`lastSpeedTestTime, this`eventLog, this`notices, this`testsRun
      ensures var t := TriageOf(slowSpeedThresholdMbps, ooklaAvailable, old(inSlowSpeedMode),
                                trigger, onlyLogIfSlow, quick, ookla);
              r == t.result && inSlowSpeedMode == t.slowMode
              && eventLog == old(eventLog) + t.logged && notices == old(notices) + t.notified
              && testsRun == old(testsRun) + t.ran
      ensures lastSpeedTestTime == if quick.Some? then now else old(lastSpeedTestTime)
    {
      testsRun := testsRun + [QuickTest(trigger)];
      if quick.None? {
        return None;
      }
      var result := QuickResult(quick.value, trigger);
      lastSpeedTestTime := now;
      var vpsSpeed := result.speedMbps;
      var isSlow := vpsSpeed < slowSpeedThresholdMbps;

      if isSlow && ooklaAvailable {
        testsRun := testsRun + [OoklaTest(Confirm(trigger))];
        if ookla.Some? {
          var ooklaResult := OoklaResult(ookla.value, Confirm(trigger));
          var confirmedSlow := ooklaResult.speedMbps < slowSpeedThresholdMbps;
          eventLog := eventLog + [ConfirmedSpeedTestLogged(result.timestamp, vpsSpeed, ooklaResult.speedMbps,
                                                           ooklaResult.uploadMbps, trigger, confirmedSlow)];
          notices := notices + [ConfirmedSpeedTestNotice(vpsSpeed, ooklaResult.speedMbps, ooklaResult.uploadMbps,
                                                         trigger, if confirmedSlow then Slow else Fine)];
          CheckSlowSpeed(ooklaResult);
          return Some(ooklaResult);
        }
      }

      if !onlyLogIfSlow || isSlow {
        eventLog := eventLog + [SpeedTestLogged(result.timestamp, result.speedMbps, result.trigger)];
        notices := notices + [NotifySpeedTest(result, slowSpeedThresholdMbps)];
      }
      CheckSlowSpeed(result);
      return Some(result);
    }

    /**
     * `_handle_status_change`: opening an outage when the link goes down,
     * closing and queueing it (and running a post-outage speed test) when it
     * comes back. The answer says whether the status differs from the last one.
     */
    method HandleStatusChange(result: PingResult, now: real,
                              quick: Option<Download>, ookla: Option<OoklaMeasurement>)
      returns (changed: bool)
      requires Valid()
      modifies this`currentOutage, this`pendingOutages, this`lastStatus, this`eventLog,
               this`inSlowSpeedMode, this`lastSpeedTestTime, this`notices, this`testsRun
      ensures Valid()
      ensures changed <==> result.status != old(lastStatus)
      ensures lastStatus == result.status
      ensures old(lastStatus) == Online && result.status == Outage ==>
                currentOutage == Some(OutageEvent(result.timestamp, None, None))
                && eventLog == old(eventLog) + [OutageStartLogged(result.timestamp)]
                && pendingOutages == old(pendingOutages) && notices == old(notices) && testsRun == old(testsRun)
                && inSlowSpeedMode == old(inSlowSpeedMode) && lastSpeedTestTime == old(lastSpeedTestTime)
      ensures old(lastStatus) == Outage && result.status == Online ==>
                var start := old(currentOutage).value.startTime;
                var closed := OutageEvent(start, Some(result.timestamp), Some(result.timestamp - start));
                var t := TriageOf(slowSpeedThresholdMbps, ooklaAvailable, old(inSlowSpeedMode),
                                  PostOutage, false, quick, ookla);
                currentOutage == None && pendingOutages == old(pendingOutages) + [closed]
                && eventLog == old(eventLog) + [OutageEndLogged(result.timestamp, result.timestamp - start)] + t.logged
                && notices == old(notices) + t.notified && testsRun == old(testsRun) + t.ran
                && inSlowSpeedMode == t.slowMode
                && lastSpeedTestTime == (if quick.Some? then now else old(lastSpeedTestTime))
      ensures old(lastStatus) == result.status ==>
                currentOutage == old(currentOutage) && pendingOutages == old(pendingOutages)
                && eventLog == old(eventLog) && notices == old(notices) && testsRun == old(testsRun)
                && inSlowSpeedMode == old(inSlowSpeedMode) && lastSpeedTestTime == old(lastSpeedTestTime)
    {
      changed := false;
      if result.status == Outage && lastStatus == Online {
        currentOutage := Some(OutageEvent(result.timestamp, None, None));
        eventLog := eventLog + [OutageStartLogged(result.timestamp)];
        changed := true;
      } else if result.status == Online && lastStatus == Outage {
        if currentOutage.Some? {
          var outage := currentOutage.value;
          outage := outage.(endTime := Some(result.timestamp));
          outage := outage.(durationSeconds := Some(result.timestamp - outage.startTime));
          eventLog := eventLog + [OutageEndLogged(result.timestamp, outage.durationSeconds.value)];
          pendingOutages := pendingOutages + [outage];
          currentOutage := None;
          var _ := MaybeRunSpeedTest(PostOutage, false, now, quick, ookla);
        }
        changed := true;
      }
      lastStatus := result.status;
    }

    /**
     * `_send_pending_outages`: report queued outages from the head; a refused
     * report goes back to the tail and ends the drain. `sendOk[i]` is the VPS's
     * answer to the `i`-th report.
     */
    method SendPendingOutages(sendOk: seq<bool>)
      requires Valid()
      requires |sendOk| >= |pendingOutages|
      modifies this`pendingOutages, this`vpsPosts
      ensures Valid()
      ensures pendingOutages == Drained(old(pendingOutages), sendOk)
      ensures vpsPosts == old(vpsPosts) + Reports(old(pendingOutages)[..Attempted(old(pendingOutages), sendOk)])
    {
      ghost var queued := pendingOutages;
      var i := 0;
      while pendingOutages != []
        invariant 0 <= i <= |queued|
        invariant pendingOutages == queued[i..]
        invariant forall j :: 0 <= j < i ==> sendOk[j]
        invariant vpsPosts == old(vpsPosts) + Reports(queued[..i])
        decreases |pendingOutages|
      {
        var outage := pendingOutages[0];
        pendingOutages := pendingOutages[1..];
        vpsPosts := vpsPosts + [OutageReport(outage)];
        assert Reports(queued[..i + 1]) == Reports(queued[..i]) + [OutageReport(outage)];
        if sendOk[i] {
          i := i + 1;
        } else {
          pendingOutages := pendingOutages + [outage];
          break;
        }
      }
      assert Delivered(queued, sendOk) == i;
    }

    /**
     * `_maybe_send_heartbeat`: while online and at least one interval after the
     * last accepted heartbeat, send one; if the VPS accepts it, remember the
     * time and drain the outage queue.
     */
    method MaybeSendHeartbeat(now: real, heartbeatOk: bool, sendOk: seq<bool>)
      requires Valid()
      requires |sendOk| >= |pendingOutages|
      modifies this`lastHeartbeatTime, this`pendingOutages, this`vpsPosts
      ensures Valid()
      ensures var due := old(lastStatus) == Online && now - old(lastHeartbeatTime) >= heartbeatIntervalSeconds as real;
              if !due then
                lastHeartbeatTime == old(lastHeartbeatTime) && pendingOutages == old(pendingOutages)
                && vpsPosts == old(vpsPosts)
              else if !heartbeatOk then
                lastHeartbeatTime == old(lastHeartbeatTime) && pendingOutages == old(pendingOutages)
                && vpsPosts == old(vpsPosts) + [HeartbeatPost(now)]
              else
                lastHeartbeatTime == now && pendingOutages == Drained(old(pendingOutages), sendOk)
                && vpsPosts == old(vpsPosts) + [HeartbeatPost(now)]
                               + Reports(old(pendingOutages)[..Attempted(old(pendingOutages), sendOk)])
    {
      var currentTime := now;
      if lastStatus == Online && currentTime - lastHeartbeatTime >= heartbeatIntervalSeconds as real {
        vpsPosts := vpsPosts + [HeartbeatPost(currentTime)];
        if heartbeatOk {
          lastHeartbeatTime := currentTime;
          SendPendingOutages(sendOk);
        }
      }
    }
  }
}
