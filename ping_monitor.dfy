/**
 * The reporting node's connectivity probe (`PingMonitor` in nas-monitor/monitor.py):
 * reading the average round-trip time out of `ping` output, and trying the
 * configured targets in order until one answers.
 *
 * The `ping` subprocess itself is not modelled: each target's reply is given
 * as a `PingReply`, the pair `(success, latency)` that `PingMonitor.ping` returns.
 */
module PingMonitoring {
  import opened Options
  import opened Text

  datatype LinkStatus = Online | Outage

  /** What `PingMonitor.ping(target)` returned: success, and the parsed average latency. */
  datatype PingReply = PingReply(success: bool, latencyMs: Option<real>)

  /** `PingResult` without its rendered date string. */
  datatype PingResult = PingResult(timestamp: real, status: LinkStatus, pingMs: Option<real>, target: string)

  function Lines(output: string): seq<string>
  {
    Split(output, '\n')
  }

  /** The line mentions an average, case-insensitively. */
  predicate MentionsAverage(line: string)
  {
    Contains(Lower(line), "avg") || Contains(Lower(line), "average")
  }

  /**
   * The line mentions an average, has an `=`, and the text after the first `=`
   * (stripped) has at least two `/`-separated fields.
   */
  predicate HasAverageField(line: string)
  {
    MentionsAverage(line) && '=' in line && |Split(Strip(Split(line, '=')[1]), '/')| >= 2
  }

  /** The second `/`-separated field after the first `=`: the average in `min/avg/max`. */
  function AverageField(line: string): string
    requires HasAverageField(line)
  {
    Split(Strip(Split(line, '=')[1]), '/')[1]
  }

  /** The text after the only `=` of a line. */
  lemma AfterOnlyEquals(pre: string, tail: string)
    requires '=' !in pre && '=' !in tail
    ensures Split(pre + ['='] + tail, '=')[1] == tail
  {
    SplitAtFirstSep(pre, tail, '=');
    SplitWithoutSep(tail, '=');
  }

  /** Stripping `ws f0/f1/rest` keeps everything from `f0` up to the second `/`. */
  lemma StripNumbers(ws: string, f0: string, f1: string, rest: string)
    requires forall i :: 0 <= i < |ws| ==> IsSpace(ws[i])
    requires f0 != [] && !IsSpace(f0[0])
    ensures Strip(ws + (f0 + ['/'] + f1 + ['/'] + rest)) == f0 + ['/'] + f1 + ['/'] + TrimRight(rest, IsSpace)
  {
    var numbers := f0 + ['/'] + f1 + ['/'] + rest;
    assert numbers[0] == f0[0];
    TrimLeftSpaces(ws, numbers, IsSpace);
    TrimRightStopsAt(f0 + ['/'] + f1, '/', rest, IsSpace);
  }

  /** The second `/`-separated field of `f0/f1/more` is `f1`. */
  lemma SecondField(f0: string, f1: string, more: string)
    requires '/' !in f0 && '/' !in f1
    ensures |Split(f0 + ['/'] + f1 + ['/'] + more, '/')| >= 2
    ensures Split(f0 + ['/'] + f1 + ['/'] + more, '/')[1] == f1
  {
    assert f0 + ['/'] + f1 + ['/'] + more == f0 + ['/'] + (f1 + ['/'] + more);
    SplitAtFirstSep(f0, f1 + ['/'] + more, '/');
    SplitAtFirstSep(f1, more, '/');
  }

  /**
   * On a summary line `… = min/avg/max…` the field found is the second number:
   * whatever precedes the `=`, white space after it, and whatever follows the
   * second `/` (further fields, a unit, trailing blanks).
   */
  lemma {:induction false} SummaryLineAverage(pre: string, ws: string, f0: string, f1: string, rest: string)
    requires '=' !in pre
    requires MentionsAverage(pre + ['='] + (ws + (f0 + ['/'] + f1 + ['/'] + rest)))
    requires forall i :: 0 <= i < |ws| ==> IsSpace(ws[i])
    requires f0 != [] && !IsSpace(f0[0])
    requires '/' !in f0 && '/' !in f1 && '=' !in f0 && '=' !in f1 && '=' !in rest
    ensures var line := pre + ['='] + (ws + (f0 + ['/'] + f1 + ['/'] + rest));
            HasAverageField(line) && AverageField(line) == f1
  {
    var tail := ws + (f0 + ['/'] + f1 + ['/'] + rest);
    assert '=' !in tail;
    AfterOnlyEquals(pre, tail);
    StripNumbers(ws, f0, f1, rest);
    SecondField(f0, f1, TrimRight(rest, IsSpace));
  }

  /** A Linux `ping` summary line yields its average. */
  lemma LinuxSummaryLine()
    ensures var line := "rtt min/avg/max/mdev " + ['='] + (" " + ("10.1" + ['/'] + "12.3" + ['/'] + "15.0/1.2 ms"));
            HasAverageField(line) && AverageField(line) == "12.3"
  {
    var line := "rtt min/avg/max/mdev " + ['='] + (" " + ("10.1" + ['/'] + "12.3" + ['/'] + "15.0/1.2 ms"));
    var low := Lower(line);
    assert low[8] == LowerChar(line[8]) == 'a';
    assert low[9] == LowerChar(line[9]) == 'v';
    assert low[10] == LowerChar(line[10]) == 'g';
    assert low[8..11] == "avg";
    ContainsAt(low, "avg", 8);
    SummaryLineAverage("rtt min/avg/max/mdev ", " ", "10.1", "12.3", "15.0/1.2 ms");
  }

  /** Line `i` is the first line that carries an average field. */
  predicate FirstAverageLine(lines: seq<string>, i: int)
  {
    0 <= i < |lines| && HasAverageField(lines[i])
    && forall j :: 0 <= j < i ==> !HasAverageField(lines[j])
  }

  /**
   * The tests `_parse_ping_latency` applies to one line: it mentions an
   * average, has an `=`, and at least two `/`-separated fields follow; the
   * answer is the second of those fields.
   */
  method LineAverageField(line: string) returns (field: Option<string>)
    ensures field.Some? <==> HasAverageField(line)
    ensures field.Some? ==> field.value == AverageField(line)
  {
    if Contains(Lower(line), "avg") || Contains(Lower(line), "average") {
      if '=' in line {
        var numbersPart := Strip(Split(line, '=')[1]);
        var parts := Split(numbersPart, '/');
        if |parts| >= 2 {
          return Some(parts[1]);
        }
      }
    }
    return None;
  }

  /**
   * `PingMonitor._parse_ping_latency`: scan the lines in order and return the
   * parsed average field of the first line that has one. A field that is not
   * a number makes the whole parse fail, even if a later line would qualify.
   */
  method ParsePingLatency(output: string) returns (latency: Option<real>)
    ensures (latency == None && forall i :: 0 <= i < |Lines(output)| ==> !HasAverageField(Lines(output)[i]))
         || (exists i :: FirstAverageLine(Lines(output), i) && latency == ParseFloat(AverageField(Lines(output)[i])))
  {
    var lines := Split(output, '\n');
    assert lines == Lines(output);
    var i := 0;
    while i < |lines|
      invariant 0 <= i <= |lines|
      invariant forall j :: 0 <= j < i ==> !HasAverageField(lines[j])
    {
      var field := LineAverageField(lines[i]);
      if field.Some? {
        latency := ParseFloat(field.value);
        assert FirstAverageLine(lines, i) && latency == ParseFloat(AverageField(lines[i]));
        return;
      }
      i := i + 1;
    }
    return None;
  }

  /**
   * `PingMonitor.check_connectivity`: ping the targets in order, stopping at the
   * first success. `replies[i]` is what pinging `targets[i]` returns; `pinged`
   * counts the targets actually pinged. With no targets at all the source fails
   * with an IndexError on `ping_targets[0]`; that is the `None` result here.
   */
  method CheckConnectivity(targets: seq<string>, replies: seq<PingReply>, now: real)
    returns (r: Option<PingResult>, ghost pinged: nat)
    requires |replies| == |targets|
    ensures r.None? <==> targets == []
    ensures r.Some? ==> r.value.timestamp == now
    ensures r.Some? ==> (r.value.status == Online <==> exists k :: 0 <= k < |replies| && replies[k].success)
    ensures r.Some? && r.value.status == Outage ==>
              pinged == |targets| && r.value.pingMs == None && r.value.target == targets[0]
    ensures r.Some? && r.value.status == Online ==>
              0 < pinged <= |targets| && replies[pinged - 1].success
              && (forall j :: 0 <= j < pinged - 1 ==> !replies[j].success)
              && r.value.pingMs == replies[pinged - 1].latencyMs
              && r.value.target == (if targets[pinged - 1] != "" then targets[pinged - 1] else targets[0])
  {
    var bestLatency: Option<real> := None;
    var anySuccess := false;
    var successfulTarget: Option<string> := None;
    var i := 0;
    while i < |targets|
      invariant 0 <= i <= |targets|
      invariant !anySuccess && bestLatency == None && successfulTarget == None
      invariant forall j :: 0 <= j < i ==> !replies[j].success
    {
      var reply := replies[i];
      i := i + 1;
      if reply.success {
        anySuccess := true;
        successfulTarget := Some(targets[i - 1]);
        // The source keeps the smaller of this latency and the best so far, but
        // nothing has been kept yet: the loop stops at the first success.
        if reply.latencyMs.Some? {
          bestLatency := reply.latencyMs;
        }
        break;
      }
    }
    pinged := i;
    if targets == [] {
      return None, pinged;
    }
    var target := if successfulTarget.Some? && successfulTarget.value != "" then successfulTarget.value else targets[0];
    r := Some(PingResult(now, if anySuccess then Online else Outage, bestLatency, target));
  }
}
