# Internet monitor: the decision layer, modelled in Dafny

The monitored system has two halves. A *reporting node* behind the home link
(nas-monitor) pings a few targets, keeps track of outages, runs bandwidth tests
with an Ookla confirmation when a quick test looks slow, and pushes heartbeats
and outage reports to a *collector* (vps-monitor). The collector decides from
the heartbeats alone whether the link is up, and announces outages and
restorations.

This project models the parts of both that make decisions:

- `HeartbeatTracking` (heartbeat_tracker.dfy): the collector's Online/Offline
  state machine, `HeartbeatTracker`, as pure step functions (`AfterHeartbeat`,
  `AfterCheck`, `Run`) with lemmas, and as a class whose methods update the
  three fields in place and are proved to follow the step functions.
- `VpsNotifier` (vps_notifier.dfy): the unit a restore notification uses.
- `PingMonitoring` (ping_monitor.dfy): parsing `ping` output and trying the
  targets in order.
- `SpeedTesting` (speed_tester.dfy): the download-speed formula, the results
  the two kinds of test build, and the SLOW/OK classification of notifications.
- `InternetMonitoring` (internet_monitor.dfy): the `InternetMonitor` class
  (slow mode, speed-test triage, online/outage transitions, the queue of
  outages to report, the heartbeat gate), with the triage and the queue drain
  also stated as functions and proved about.
- `Text` (text.dfy) and `Options` (options.dfy): the Python string operations
  the parser needs, and `Option`.

The clock (`time.time()`) is a `now` parameter. Every outside call is a
parameter or a ghost trace: a ping reply, the quick download's measurement, the
Ookla measurement and each answer of the VPS are given; rows written to the
event log, notifications attempted (every call of the notifier's `send`, which
posts nothing when no topic is configured and may fail), speed tests started and requests made to the VPS
are appended to ghost sequences (`eventLog`, `notices`, `testsRun`,
`vpsPosts`), so that "logged exactly when …" can be stated.

Notes on the program's behaviour as modelled:

- The program has no boot-id based cause classification (power cut versus ISP
  problem) and no incident aggregation; neither is modelled.
- A heartbeat reports `restored` only when the tracker was offline *and* an
  outage start is recorded (a truthiness test on a float). With positive clock
  readings and the tracker's invariant the two coincide; the model keeps the
  test as written.
- `check_status` back-dates a timed-out outage to the last heartbeat, and an
  outage detected before any heartbeat starts at the check's own time, as the
  code does.

## Model

| member | source | states |
|---|---|---|
| `Text.Split` | nas-monitor/monitor.py:177-181 | `str.split` with one separator gives at least one piece, at least two exactly when the separator occurs, and no piece contains it |
| `Text.JoinSplit` | nas-monitor/monitor.py:177-181 | joining the pieces of a split with the separator gives back the original text |
| `Text.FloatKeepsSeparators` | nas-monitor/monitor.py:180-186 | `str.strip()` removes a leading U+001F but `float()` does not: the field stripped of it reads `12.3`, while the float parse of the field with it fails, which the program turns into no latency |
| `PingMonitoring.LineAverageField` | nas-monitor/monitor.py:178-183 | the per-line tests of the parser accept a line exactly when `HasAverageField` holds and answer `AverageField`, whose meaning on a summary line `SummaryLineAverage` fixes |
| `PingMonitoring.SummaryLineAverage` | nas-monitor/monitor.py:178-183 | any line `pre=ws f0/f1/rest` that mentions avg/average, with `=` only once, white space `ws`, a first number `f0` that does not start with white space and no `/` in `f0` or `f1`, qualifies, and its field is exactly `f1`, whatever follows the second `/` |
| `PingMonitoring.LinuxSummaryLine` | nas-monitor/monitor.py:178-183 | on the Linux summary line `rtt min/avg/max/mdev = 10.1/12.3/15.0/1.2 ms` the field found is `12.3` |
| `PingMonitoring.ParsePingLatency` | nas-monitor/monitor.py:174-186 | the latency is None when no line carries an average field, and otherwise the float parse (None on failure) of the field of the first line that does |
| `PingMonitoring.CheckConnectivity` | nas-monitor/monitor.py:188-212 | targets are pinged in order up to the first success; status is online iff some target answers; target and latency are those of the first success (an empty target name falls back to the first target), else the first target and no latency; no targets is the IndexError case |
| `SpeedTesting.DownloadSpeedMbps` | nas-monitor/monitor.py:244-247 | the speed times the duration times a million is the number of bits received; with no elapsed time the speed is 0, never a division fault; never negative |
| `SpeedTesting.NotifySpeedTest` | nas-monitor/monitor.py:394-410 | the notice announces the given result, as SLOW exactly when its speed is below the threshold |
| `SpeedTesting.AnyBelow` | nas-monitor/monitor.py:551-554 | true exactly when some present speed in the list is below the threshold |
| `SpeedTesting.FullSpeedTestSeverity` | nas-monitor/monitor.py:549-563 | a full test is SLOW exactly when the VPS download or the Ookla download was measured and is below the threshold; upload never counts |
| `InternetMonitoring.TriageWhenQuickTestFails` | nas-monitor/monitor.py:580-582 | a failed quick test returns None and logs, announces and changes nothing, slow mode included; only the attempt itself is recorded |
| `InternetMonitoring.TriageConfirmsOnlySlowQuickTests` | nas-monitor/monitor.py:585-591 | Ookla is started exactly when the quick test succeeded below the threshold and Ookla is installed, and then with the `<trigger>_confirm` trigger |
| `InternetMonitoring.TriageGroundTruth` | nas-monitor/monitor.py:593-638 | when Ookla confirmed, its result is returned; otherwise the quick result is; slow mode afterwards is "the returned speed is below the threshold" whatever it was before |
| `InternetMonitoring.TriageReportGating` | nas-monitor/monitor.py:597-635 | a confirmed test is logged and announced once; otherwise the quick result is logged and announced exactly when not "only if slow" or it is slow |
| `InternetMonitoring.TriageFastQuickTest` | nas-monitor/monitor.py:585-589 | a quick test at or above the threshold never starts Ookla and leaves an inactive slow mode inactive |
| `InternetMonitoring.TriageConfirmationOverrulesQuickTest` | nas-monitor/monitor.py:586-623 | a 20 Mbps quick test overruled by a 55 Mbps Ookla run (threshold 50) returns the 55 Mbps result, leaves slow mode off and announces OK |
| `InternetMonitoring.Delivered` | nas-monitor/monitor.py:678-685 | the number of outages the VPS accepts is the length of the run of successful answers, bounded by the queue length |
| `InternetMonitoring.DrainKeepsEveryOutage` | nas-monitor/monitor.py:676-687 | a drain never drops an outage: the queue shrinks by exactly the number delivered, and delivered plus remaining is what was queued |
| `InternetMonitoring.InternetMonitor.constructor` | nas-monitor/monitor.py:455-470 | starts online, with no open or queued outage, slow mode off, heartbeat and test times 0 |
| `InternetMonitoring.InternetMonitor.CheckSlowSpeed` | nas-monitor/monitor.py:567-576 | afterwards slow mode is exactly "this speed is below the threshold", whatever it was, so a second application changes nothing |
| `InternetMonitoring.InternetMonitor.MaybeRunSpeedTest` | nas-monitor/monitor.py:578-638 | the result, slow mode, log rows, notices and tests started are those `TriageOf` gives; the last test time becomes now exactly when the quick test succeeded |
| `InternetMonitoring.InternetMonitor.HandleStatusChange` | nas-monitor/monitor.py:640-674 | online to outage opens an outage at the result's time and logs its start; outage to online closes it with duration end minus start, logs the end, queues it, clears it and runs the post-outage triage; the last status becomes the new one; the answer is true iff the status differed; the invariant (open outage iff last status is outage, queued outages closed) is kept |
| `InternetMonitoring.InternetMonitor.SendPendingOutages` | nas-monitor/monitor.py:676-687 | reports go out from the head in order until the first refusal, which is moved to the tail; the new queue is `Drained` and the requests made are the attempted prefix |
| `InternetMonitoring.InternetMonitor.MaybeSendHeartbeat` | nas-monitor/monitor.py:689-697 | a heartbeat is sent only while online and at least one interval after the last accepted one; only an accepted heartbeat moves the heartbeat time and drains the queue |
| `HeartbeatTracking.HeartbeatBringsOnline` | vps-monitor/monitor.py:100-105 | a heartbeat always leaves the tracker online with the last heartbeat time equal to now |
| `HeartbeatTracking.HeartbeatRestores` | vps-monitor/monitor.py:107-115 | a heartbeat reports restored exactly when the tracker was offline, with duration now minus the outage start, which it clears; otherwise it reports a heartbeat and leaves the outage start |
| `HeartbeatTracking.CheckDuringGrace` | vps-monitor/monitor.py:122-124 | within the startup grace period the check returns nothing and changes nothing |
| `HeartbeatTracking.CheckWithoutHeartbeat` | vps-monitor/monitor.py:126-132 | with no heartbeat ever, an online tracker goes offline with the outage starting now and reason no_heartbeat_received; an offline one returns nothing |
| `HeartbeatTracking.CheckTimeout` | vps-monitor/monitor.py:134-146 | down is reported exactly when online and the last heartbeat is strictly older than the timeout; the outage start is the last heartbeat time, not now; otherwise nothing changes |
| `HeartbeatTracking.ConsistencyPreserved` | vps-monitor/monitor.py:88-146 | an outage start is recorded exactly while offline: true initially and kept by both operations |
| `HeartbeatTracking.RunAlternates` | vps-monitor/monitor.py:97-146 | over any sequence of heartbeats and checks the invariant holds and down/restored strictly alternate: at most one down per outage, each outage ended by one restored |
| `HeartbeatTracking.NoDownDuringGrace` | vps-monitor/monitor.py:117-124 | if every check falls within the grace period, no down is ever reported, whatever heartbeats arrive |
| `HeartbeatTracking.TimeoutThenRestoreScenario` | vps-monitor/monitor.py:97-146 | worked run: a check at exactly the timeout stays quiet, one second later a single down back-dated to the last heartbeat, a later check stays quiet, and the next heartbeat restores with the full outage duration |
| `HeartbeatTracking.HeartbeatTracker.constructor` | vps-monitor/monitor.py:88-95 | starts online with no heartbeat and no outage start, and the invariant holds |
| `HeartbeatTracking.HeartbeatTracker.RecordHeartbeat` | vps-monitor/monitor.py:97-115 | the fields after the call and the answer are those of `AfterHeartbeat`; the invariant is kept |
| `HeartbeatTracking.HeartbeatTracker.CheckStatus` | vps-monitor/monitor.py:117-146 | the fields after the call and the answer are those of `AfterCheck`; the invariant is kept |
| `HeartbeatTracking.HeartbeatTracker.GetStatus` | vps-monitor/monitor.py:148-164 | reports the stored fields; each age is present exactly when its base time is and adds up to now; the outage duration is present exactly while offline |
| `VpsNotifier.RestoredDuration` | vps-monitor/monitor.py:218-227 | seconds below 60 s, minutes below 3600 s, hours from then on; the number shown times its unit is the duration |

## Left out

- Running `ping` and building its command line (nas-monitor/monitor.py:145-172): each target's reply is a parameter.
- The HTTP download, the `speedtest` library, the VPS client's requests and the ntfy HTTP posts: their outcomes are parameters, and what they were asked is recorded in ghost traces.
- CSV logging, log retention and the collector's outage log file: a log row is an entry appended to a ghost sequence.
- Loading configuration from YAML and the environment: settings are constructor arguments.
- The Flask and `BaseHTTPRequestHandler` routes, threads, `threading.Lock`, signal handlers and the `run` / `_check_loop` loops, including the high-latency and scheduled-test cadence decided in `run`; the lock only makes each tracker method atomic, so the methods are modelled sequentially.
- `request_speed_test` and `request_full_speed_test` (manual triggers over HTTP); of the latter only the classification in `_notify_full_speed_test` is modelled.
- `NtfyNotifier.notify_down` and the rendered text of every notification and log message (titles, `:.1f` formatting, priorities and tags, which all follow the modelled severity), date strings, and the messages written to standard output (such as entering or leaving slow mode).
- The heartbeat payload, which the tracker only stores (vps-monitor/monitor.py:104).
- Floating-point arithmetic: times, speeds and latencies are real numbers.
- PingMonitoring.ParsePingLatency: `float()` is modelled for plain decimal literals with an optional sign; exponents, `inf`/`nan`, digit separators, non-ASCII decimal digits (such as fullwidth or Arabic-Indic digits) and non-ASCII white space around the literal, which Python also accepts, make the model's parse fail. `str.strip()` is modelled on the ASCII characters `str.isspace()` accepts (tab to carriage return, U+001C to U+001F, space) and `float()` on the ones it skips (tab to carriage return, space), so a field led by U+001F is rejected as in Python; non-ASCII white space is stripped by neither. Lower-casing covers ASCII only (no other character lowercases to the letters of "avg" or "average").
- HeartbeatTracking.RunAlternates: throughout the `HeartbeatTracking` module clock readings are positive reals (the `Timestamp` type that every tracker function, lemma and method takes); a reading of exactly 0 (the epoch), which Python treats as "no time recorded", is not modelled.
