/** How the collector words a restore notification (`NtfyNotifier.notify_restored` in vps-monitor/monitor.py). */
module VpsNotifier {

  /** The outage length as the message states it, before rounding for display. */
  datatype DurationText = Seconds(seconds: real) | Minutes(minutes: real) | Hours(hours: real)

  /**
   * Seconds under a minute, minutes under an hour, hours from then on; the
   * number shown, times its unit, is the duration.
   */
  function RestoredDuration(durationSeconds: real): (t: DurationText)
    ensures t.Seconds? <==> durationSeconds < 60.0
    ensures t.Minutes? <==> 60.0 <= durationSeconds < 3600.0
    ensures t.Hours? <==> durationSeconds >= 3600.0
    ensures t.Seconds? ==> t.seconds == durationSeconds
    ensures t.Minutes? ==> t.minutes * 60.0 == durationSeconds
    ensures t.Hours? ==> t.hours * 3600.0 == durationSeconds
  {
    var durationMin := durationSeconds / 60.0;
    if durationMin < 1.0 then Seconds(durationSeconds)
    else if durationMin < 60.0 then Minutes(durationMin)
    else Hours(durationMin / 60.0)
  }
}
