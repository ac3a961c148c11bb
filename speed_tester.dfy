/**
 * Bandwidth measurements on the reporting node (`SpeedTester` in
 * nas-monitor/monitor.py) and how a measurement is classified when it is
 * announced (`NtfyNotifier.notify_speed_test`, `InternetMonitor._notify_full_speed_test`).
 *
 * The HTTP download and the Ookla library are not modelled: what they measured
 * is given as a `Download` or an `OoklaMeasurement`, or as `None` when the
 * test failed.
 */
module SpeedTesting {
  import opened Options

  /** Why a test ran; `Confirm(t)` is the `f"{t}_confirm"` trigger of an Ookla confirmation. */
  datatype Trigger = Manual | ManualFull | PostOutage | HighLatency | SlowSpeedRetest | Scheduled
                   | Confirm(base: Trigger)

  datatype TestType = Vps | Ookla

  /** `SpeedTestResult` without its rendered date string. */
  datatype SpeedTestResult = SpeedTestResult(
    timestamp: real,
    speedMbps: real,
    durationSeconds: real,
    fileSizeBytes: nat,
    trigger: Trigger,
    uploadMbps: Option<real>,
    testType: TestType)

  /** What the quick download from the VPS measured: when it started, bytes received, seconds taken. */
  datatype Download = Download(timestamp: real, totalBytes: nat, durationSeconds: real)

  /** What an Ookla run measured, in Mbps. */
  datatype OoklaMeasurement = OoklaMeasurement(timestamp: real, downloadMbps: real, uploadMbps: real, durationSeconds: real)

  /**
   * The download speed in megabits per second: bits over seconds over a million,
   * and 0 rather than a division fault when no time elapsed.
   */
  function DownloadSpeedMbps(totalBytes: nat, durationSeconds: real): (mbps: real)
    ensures mbps >= 0.0
    ensures durationSeconds <= 0.0 ==> mbps == 0.0
    ensures durationSeconds > 0.0 ==> mbps * durationSeconds * 1000000.0 == (totalBytes * 8) as real
  {
    if durationSeconds > 0.0 then (totalBytes * 8) as real / (durationSeconds * 1000000.0) else 0.0
  }

  /** The result `SpeedTester.run_test(trigger)` builds from a completed download. */
  function QuickResult(d: Download, trigger: Trigger): SpeedTestResult
  {
    SpeedTestResult(d.timestamp, DownloadSpeedMbps(d.totalBytes, d.durationSeconds), d.durationSeconds,
                    d.totalBytes, trigger, None, Vps)
  }

  /** The result `SpeedTester.run_ookla_test(trigger)` builds from a completed Ookla run. */
  function OoklaResult(m: OoklaMeasurement, trigger: Trigger): SpeedTestResult
  {
    SpeedTestResult(m.timestamp, m.downloadMbps, m.durationSeconds, 0, trigger, Some(m.uploadMbps), Ookla)
  }

  /** How a notification presents a measurement; title suffix, priority and tags all follow it. */
  datatype Severity = Slow | Fine

  /** A push notification, without its rendered text. */
  datatype Notice =
    | SpeedTestNotice(result: SpeedTestResult, severity: Severity)
    | ConfirmedSpeedTestNotice(vpsSpeedMbps: real, ooklaSpeedMbps: real, ooklaUploadMbps: Option<real>,
                               trigger: Trigger, severity: Severity)

  /** `NtfyNotifier.notify_speed_test`: the notice announces the result, as SLOW exactly below the threshold. */
  function NotifySpeedTest(r: SpeedTestResult, slowThresholdMbps: real): (n: Notice)
    ensures n.SpeedTestNotice? && n.result == r
    ensures n.severity == Slow <==> r.speedMbps < slowThresholdMbps
  {
    var speed := r.speedMbps;
    if speed < slowThresholdMbps then SpeedTestNotice(r, Slow) else SpeedTestNotice(r, Fine)
  }

  /** Python's `any(v is not None and v < threshold for v in speeds)`. */
  function AnyBelow(speeds: seq<Option<real>>, threshold: real): (b: bool)
    ensures b <==> exists i :: 0 <= i < |speeds| && speeds[i].Some? && speeds[i].value < threshold
    decreases |speeds|
  {
    if speeds == [] then false
    else (speeds[0].Some? && speeds[0].value < threshold) || AnyBelow(speeds[1..], threshold)
  }

  /**
   * The classification in `InternetMonitor._notify_full_speed_test`: SLOW when
   * either download speed that was measured is below the threshold; the upload
   * speed never counts.
   */
  function FullSpeedTestSeverity(vpsDownloadMbps: Option<real>, ooklaDownloadMbps: Option<real>,
                                 slowThresholdMbps: real): (s: Severity)
    ensures s == Slow <==>
              ((vpsDownloadMbps.Some? && vpsDownloadMbps.value < slowThresholdMbps)
               || (ooklaDownloadMbps.Some? && ooklaDownloadMbps.value < slowThresholdMbps))
  {
    var downloads := [vpsDownloadMbps, ooklaDownloadMbps];
    assert downloads[0] == vpsDownloadMbps && downloads[1] == ooklaDownloadMbps;
    if AnyBelow(downloads, slowThresholdMbps) then Slow else Fine
  }
}
