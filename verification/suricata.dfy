/** Queries over the Suricata EVE log: alerts at or above a severity, and
    flows, optionally from one source address. The log is a sequence of
    lines, each already decoded or malformed; a missing file is `None`. */
module Suricata {
  import opened Wrappers
  import opened Seqs

  /** An `alert` object: its `severity`, if present, and its other fields. */
  datatype AlertInfo = AlertInfo(severity: Option<int>, fields: map<string, string>)

  /** A `flow` object: its `src_ip`, if present, whether its `alert` value is
      truthy, and its other fields. */
  datatype FlowInfo = FlowInfo(srcIp: Option<string>, alert: bool, fields: map<string, string>)

  /** The `{}` substituted for a missing `alert` or `flow` object. */
  const EmptyAlert: AlertInfo := AlertInfo(None, map[])
  const EmptyFlow: FlowInfo := FlowInfo(None, false, map[])

  /** `get_alerts`' default threshold. */
  const DefaultSeverityLevel: int := 1

  /** One decoded event: the `event_type` discriminator and the nested objects. */
  datatype Record = Record(eventType: Option<string>, alert: Option<AlertInfo>, flow: Option<FlowInfo>)

  /** A log line: a decoded event, or one that `json.loads` (or the
      following `.get`) rejects. */
  datatype Line = Malformed | Event(record: Record)

  /** The log file: `None` when it does not exist. */
  type EveLog = Option<seq<Line>>

  /** The decode error escaping from the line at `index`. */
  datatype EveError = MalformedLine(index: nat)

  predicate HasMalformed(lines: seq<Line>) {
    exists i :: 0 <= i < |lines| && lines[i].Malformed?
  }

  /** Line `k` is malformed and no earlier line is. */
  predicate FirstMalformedAt(lines: seq<Line>, k: nat) {
    k < |lines| && lines[k].Malformed? && forall j :: 0 <= j < k ==> !lines[j].Malformed?
  }

  /** `log.get("alert", {})`. */
  function AlertPayload(rec: Record): AlertInfo {
    rec.alert.GetOr(EmptyAlert)
  }

  /** `alert.get("severity", 0)`. */
  function Severity(a: AlertInfo): int {
    a.severity.GetOr(0)
  }

  /** The event is an alert at or above `level`. */
  predicate AlertSelected(rec: Record, level: int) {
    rec.eventType == Some("alert") && Severity(AlertPayload(rec)) >= level
  }

  /** `log.get("flow", {})`. */
  function FlowPayload(rec: Record): FlowInfo {
    rec.flow.GetOr(EmptyFlow)
  }

  /** Python truthiness of the `device_ip` argument: neither `None` nor "". */
  predicate Truthy(ip: Option<string>) {
    ip.Some? && ip.value != ""
  }

  /** The event is a flow that passes the source-address filter. */
  predicate FlowSelected(rec: Record, ip: Option<string>) {
    rec.eventType == Some("flow") && (!Truthy(ip) || FlowPayload(rec).srcIp == ip)
  }

  /** What one decoded event adds to the `get_alerts` result. */
  function AlertsOf(rec: Record, level: int): seq<AlertInfo> {
    if AlertSelected(rec, level) then [AlertPayload(rec)] else []
  }

  /** What one decoded event adds to the `get_flow_data` result. */
  function FlowsOf(rec: Record, ip: Option<string>): seq<FlowInfo> {
    if FlowSelected(rec, ip) then [FlowPayload(rec)] else []
  }

  /** The payloads of all alert events, whatever their severity. */
  function AlertEvents(lines: seq<Line>): seq<AlertInfo> {
    if |lines| == 0 then []
    else
      (if lines[0].Event? && lines[0].record.eventType == Some("alert")
       then [AlertPayload(lines[0].record)] else [])
      + AlertEvents(lines[1..])
  }

  /** The read loop of `get_alerts` over the lines of an existing file. */
  function ScanAlerts(lines: seq<Line>, level: int): (r: Result<seq<AlertInfo>, EveError>)
    ensures r.Failure? <==> HasMalformed(lines)
    ensures r.Failure? ==> FirstMalformedAt(lines, r.error.index)
    ensures r.Success? ==> |r.value| <= |lines|
    decreases |lines|
  {
    if |lines| == 0 then Success([])
    else
      assert forall j :: 1 <= j < |lines| ==> lines[j] == lines[1..][j - 1];
      match lines[0]
      case Malformed => Failure(MalformedLine(0))
      case Event(rec) =>
        match ScanAlerts(lines[1..], level)
        case Failure(e) => Failure(MalformedLine(e.index + 1))
        case Success(rest) =>
          Success(AlertsOf(rec, level) + rest)
  }

  /** Exactly the selected payloads are reported. */
  lemma {:induction false} ScanAlertsMembers(lines: seq<Line>, level: int)
    requires ScanAlerts(lines, level).Success?
    ensures forall a :: a in ScanAlerts(lines, level).value <==>
              exists i :: 0 <= i < |lines| && lines[i].Event?
                          && AlertSelected(lines[i].record, level) && AlertPayload(lines[i].record) == a
    decreases |lines|
  {
    if |lines| > 0 {
      var rec := lines[0].record;
      ScanAlertsMembers(lines[1..], level);
      assert forall j :: 1 <= j < |lines| ==> lines[j] == lines[1..][j - 1];
      forall a
        ensures a in ScanAlerts(lines, level).value <==>
                exists i :: 0 <= i < |lines| && lines[i].Event?
                            && AlertSelected(lines[i].record, level) && AlertPayload(lines[i].record) == a
      {
        if a in ScanAlerts(lines[1..], level).value {
          var i :| 0 <= i < |lines| - 1 && lines[1..][i].Event?
                   && AlertSelected(lines[1..][i].record, level) && AlertPayload(lines[1..][i].record) == a;
          assert lines[i + 1] == lines[1..][i];
        }
      }
    }
  }

  /** `get_alerts(severity_level)`: a missing file yields no alerts; a
      malformed line fails the whole call; otherwise the alert objects at or
      above the threshold. */
  function GetAlerts(log: EveLog, level: int): (r: Result<seq<AlertInfo>, EveError>)
    ensures log.None? ==> r == Success([])
    ensures r.Failure? <==> log.Some? && HasMalformed(log.value)
    ensures r.Failure? ==> FirstMalformedAt(log.value, r.error.index)
    ensures r.Success? && log.Some? ==> forall a :: a in r.value <==>
              exists i :: 0 <= i < |log.value| && log.value[i].Event?
                          && AlertSelected(log.value[i].record, level) && AlertPayload(log.value[i].record) == a
    ensures r.Success? ==> forall a :: a in r.value ==> Severity(a) >= level
  {
    match log
    case None => Success([])
    case Some(lines) =>
      if ScanAlerts(lines, level).Success? then ScanAlertsMembers(lines, level); ScanAlerts(lines, level)
      else ScanAlerts(lines, level)
  }

  /** The read loop of `get_flow_data` over the lines of an existing file. */
  function ScanFlows(lines: seq<Line>, ip: Option<string>): (r: Result<seq<FlowInfo>, EveError>)
    ensures r.Failure? <==> HasMalformed(lines)
    ensures r.Failure? ==> FirstMalformedAt(lines, r.error.index)
    ensures r.Success? ==> |r.value| <= |lines|
    decreases |lines|
  {
    if |lines| == 0 then Success([])
    else
      assert forall j :: 1 <= j < |lines| ==> lines[j] == lines[1..][j - 1];
      match lines[0]
      case Malformed => Failure(MalformedLine(0))
      case Event(rec) =>
        match ScanFlows(lines[1..], ip)
        case Failure(e) => Failure(MalformedLine(e.index + 1))
        case Success(rest) =>
          Success(FlowsOf(rec, ip) + rest)
  }

  /** Exactly the selected payloads are reported. */
  lemma {:induction false} ScanFlowsMembers(lines: seq<Line>, ip: Option<string>)
    requires ScanFlows(lines, ip).Success?
    ensures forall f :: f in ScanFlows(lines, ip).value <==>
              exists i :: 0 <= i < |lines| && lines[i].Event?
                          && FlowSelected(lines[i].record, ip) && FlowPayload(lines[i].record) == f
    decreases |lines|
  {
    if |lines| > 0 {
      var rec := lines[0].record;
      ScanFlowsMembers(lines[1..], ip);
      assert forall j :: 1 <= j < |lines| ==> lines[j] == lines[1..][j - 1];
      forall f
        ensures f in ScanFlows(lines, ip).value <==>
                exists i :: 0 <= i < |lines| && lines[i].Event?
                            && FlowSelected(lines[i].record, ip) && FlowPayload(lines[i].record) == f
      {
        if f in ScanFlows(lines[1..], ip).value {
          var i :| 0 <= i < |lines| - 1 && lines[1..][i].Event?
                   && FlowSelected(lines[1..][i].record, ip) && FlowPayload(lines[1..][i].record) == f;
          assert lines[i + 1] == lines[1..][i];
        }
      }
    }
  }

  /** `get_flow_data(device_ip)`: a missing file yields no flows; a malformed
      line fails the whole call; otherwise every flow object, or with a
      truthy `device_ip` only those whose `src_ip` equals it. */
  function GetFlowData(log: EveLog, ip: Option<string>): (r: Result<seq<FlowInfo>, EveError>)
    ensures log.None? ==> r == Success([])
    ensures r.Failure? <==> log.Some? && HasMalformed(log.value)
    ensures r.Failure? ==> FirstMalformedAt(log.value, r.error.index)
    ensures r.Success? && log.Some? ==> forall f :: f in r.value <==>
              exists i :: 0 <= i < |log.value| && log.value[i].Event?
                          && FlowSelected(log.value[i].record, ip) && FlowPayload(log.value[i].record) == f
    ensures r.Success? && Truthy(ip) ==> forall f :: f in r.value ==> f.srcIp == ip
  {
    match log
    case None => Success([])
    case Some(lines) =>
      if ScanFlows(lines, ip).Success? then ScanFlowsMembers(lines, ip); ScanFlows(lines, ip)
      else ScanFlows(lines, ip)
  }

  /** Reading a log in two pieces: results concatenate in order, and the
      first malformed line decides the failure. */
  lemma ScanAlertsAppend(a: seq<Line>, b: seq<Line>, level: int)
    ensures ScanAlerts(a, level).Failure? ==> ScanAlerts(a + b, level) == ScanAlerts(a, level)
    ensures ScanAlerts(a, level).Success? && ScanAlerts(b, level).Failure? ==>
              ScanAlerts(a + b, level) == Failure(MalformedLine(|a| + ScanAlerts(b, level).error.index))
    ensures ScanAlerts(a, level).Success? && ScanAlerts(b, level).Success? ==>
              ScanAlerts(a + b, level) == Success(ScanAlerts(a, level).value + ScanAlerts(b, level).value)
  {
    if ScanAlerts(a, level).Failure? {
      ScanAlertsAppendEarlyFailure(a, b, level);
    } else if ScanAlerts(b, level).Failure? {
      ScanAlertsAppendLateFailure(a, b, level);
    } else {
      ScanAlertsAppendSuccess(a, b, level);
    }
  }

  lemma {:induction false} ScanAlertsAppendEarlyFailure(a: seq<Line>, b: seq<Line>, level: int)
    requires ScanAlerts(a, level).Failure?
    ensures ScanAlerts(a + b, level) == ScanAlerts(a, level)
    decreases |a|
  {
    assert (a + b)[0] == a[0];
    if a[0].Event? {
      assert (a + b)[1..] == a[1..] + b;
      ScanAlertsAppendEarlyFailure(a[1..], b, level);
    }
  }

  lemma {:induction false} ScanAlertsAppendLateFailure(a: seq<Line>, b: seq<Line>, level: int)
    requires ScanAlerts(a, level).Success? && ScanAlerts(b, level).Failure?
    ensures ScanAlerts(a + b, level) == Failure(MalformedLine(|a| + ScanAlerts(b, level).error.index))
    decreases |a|
  {
    if |a| == 0 {
      assert a + b == b;
    } else {
      assert (a + b)[0] == a[0];
      assert (a + b)[1..] == a[1..] + b;
      ScanAlertsAppendLateFailure(a[1..], b, level);
    }
  }

  lemma {:induction false} ScanAlertsAppendSuccess(a: seq<Line>, b: seq<Line>, level: int)
    requires ScanAlerts(a, level).Success? && ScanAlerts(b, level).Success?
    ensures ScanAlerts(a + b, level) == Success(ScanAlerts(a, level).value + ScanAlerts(b, level).value)
    decreases |a|
  {
    if |a| == 0 {
      assert a + b == b;
      assert [] + ScanAlerts(b, level).value == ScanAlerts(b, level).value;
    } else {
      assert (a + b)[0] == a[0];
      assert (a + b)[1..] == a[1..] + b;
      ScanAlertsAppendSuccess(a[1..], b, level);
      var head, x, y := AlertsOf(a[0].record, level), ScanAlerts(a[1..], level).value, ScanAlerts(b, level).value;
      assert head + (x + y) == (head + x) + y;
    }
  }

  /** As `ScanAlertsAppend`, for flows. */
  lemma ScanFlowsAppend(a: seq<Line>, b: seq<Line>, ip: Option<string>)
    ensures ScanFlows(a, ip).Failure? ==> ScanFlows(a + b, ip) == ScanFlows(a, ip)
    ensures ScanFlows(a, ip).Success? && ScanFlows(b, ip).Failure? ==>
              ScanFlows(a + b, ip) == Failure(MalformedLine(|a| + ScanFlows(b, ip).error.index))
    ensures ScanFlows(a, ip).Success? && ScanFlows(b, ip).Success? ==>
              ScanFlows(a + b, ip) == Success(ScanFlows(a, ip).value + ScanFlows(b, ip).value)
  {
    if ScanFlows(a, ip).Failure? {
      ScanFlowsAppendEarlyFailure(a, b, ip);
    } else if ScanFlows(b, ip).Failure? {
      ScanFlowsAppendLateFailure(a, b, ip);
    } else {
      ScanFlowsAppendSuccess(a, b, ip);
    }
  }

  lemma {:induction false} ScanFlowsAppendEarlyFailure(a: seq<Line>, b: seq<Line>, ip: Option<string>)
    requires ScanFlows(a, ip).Failure?
    ensures ScanFlows(a + b, ip) == ScanFlows(a, ip)
    decreases |a|
  {
    assert (a + b)[0] == a[0];
    if a[0].Event? {
      assert (a + b)[1..] == a[1..] + b;
      ScanFlowsAppendEarlyFailure(a[1..], b, ip);
    }
  }

  lemma {:induction false} ScanFlowsAppendLateFailure(a: seq<Line>, b: seq<Line>, ip: Option<string>)
    requires ScanFlows(a, ip).Success? && ScanFlows(b, ip).Failure?
    ensures ScanFlows(a + b, ip) == Failure(MalformedLine(|a| + ScanFlows(b, ip).error.index))
    decreases |a|
  {
    if |a| == 0 {
      assert a + b == b;
    } else {
      assert (a + b)[0] == a[0];
      assert (a + b)[1..] == a[1..] + b;
      ScanFlowsAppendLateFailure(a[1..], b, ip);
    }
  }

  lemma {:induction false} ScanFlowsAppendSuccess(a: seq<Line>, b: seq<Line>, ip: Option<string>)
    requires ScanFlows(a, ip).Success? && ScanFlows(b, ip).Success?
    ensures ScanFlows(a + b, ip) == Success(ScanFlows(a, ip).value + ScanFlows(b, ip).value)
    decreases |a|
  {
    if |a| == 0 {
      assert a + b == b;
      assert [] + ScanFlows(b, ip).value == ScanFlows(b, ip).value;
    } else {
      assert (a + b)[0] == a[0];
      assert (a + b)[1..] == a[1..] + b;
      ScanFlowsAppendSuccess(a[1..], b, ip);
      var head, x, y := FlowsOf(a[0].record, ip), ScanFlows(a[1..], ip).value, ScanFlows(b, ip).value;
      assert head + (x + y) == (head + x) + y;
    }
  }

  /** An event of any other type contributes nothing to either query (it
      only shifts the line number a later decode error reports). */
  lemma OtherEventsIgnored(a: seq<Line>, b: seq<Line>, rec: Record, level: int, ip: Option<string>)
    requires rec.eventType != Some("alert") && rec.eventType != Some("flow")
    ensures ScanAlerts(a + [Event(rec)] + b, level).Success? == ScanAlerts(a + b, level).Success?
    ensures ScanAlerts(a + b, level).Success? ==>
              ScanAlerts(a + [Event(rec)] + b, level).value == ScanAlerts(a + b, level).value
    ensures ScanFlows(a + [Event(rec)] + b, ip).Success? == ScanFlows(a + b, ip).Success?
    ensures ScanFlows(a + b, ip).Success? ==>
              ScanFlows(a + [Event(rec)] + b, ip).value == ScanFlows(a + b, ip).value
  {
    var one := [Event(rec)];
    assert one[1..] == [];
    assert ScanAlerts(one, level) == Success([]);
    assert ScanFlows(one, ip) == Success([]);
    ScanAlertsAppend(a, one, level);
    ScanAlertsAppend(a + one, b, level);
    ScanAlertsAppend(a, b, level);
    ScanFlowsAppend(a, one, ip);
    ScanFlowsAppend(a + one, b, ip);
    ScanFlowsAppend(a, b, ip);
    match ScanAlerts(a, level)
    case Failure(e) =>
    case Success(x) => assert x + [] == x;
    match ScanFlows(a, ip)
    case Failure(e) =>
    case Success(x) => assert x + [] == x;
  }

  /** At the default threshold every reported alert carries an explicit
      positive `severity`: the implied 0 never reaches 1. */
  lemma DefaultLevelNeedsSeverity(log: EveLog)
    ensures GetAlerts(log, DefaultSeverityLevel).Success? ==>
              forall a :: a in GetAlerts(log, DefaultSeverityLevel).value ==>
                a.severity.Some? && a.severity.value >= 1
  {
  }

  /** An alert event without an `alert` object counts as `{}` of severity 0,
      so it is reported exactly when the threshold is at most 0 (not at the
      default threshold 1). */
  lemma AlertWithoutObject(t: Option<FlowInfo>, level: int)
    ensures ScanAlerts([Event(Record(Some("alert"), None, t))], level)
            == if level <= 0 then Success([EmptyAlert]) else Success([])
  {
    var lines := [Event(Record(Some("alert"), None, t))];
    assert lines[1..] == [];
    assert Severity(AlertPayload(lines[0].record)) == 0;
    assert [EmptyAlert] + [] == [EmptyAlert];
  }

  /** Raising the severity threshold keeps a subsequence of the alerts, so
      never more of them. */
  lemma {:induction false} RaisingThresholdKeepsSubsequence(lines: seq<Line>, lo: int, hi: int)
    requires lo <= hi
    requires ScanAlerts(lines, lo).Success?
    ensures ScanAlerts(lines, hi).Success?
    ensures IsSubsequence(ScanAlerts(lines, hi).value, ScanAlerts(lines, lo).value)
    ensures |ScanAlerts(lines, hi).value| <= |ScanAlerts(lines, lo).value|
    decreases |lines|
  {
    ThresholdSubsequence(lines, lo, hi);
    SubsequenceLength(ScanAlerts(lines, hi).value, ScanAlerts(lines, lo).value);
  }

  lemma {:induction false} ThresholdSubsequence(lines: seq<Line>, lo: int, hi: int)
    requires lo <= hi
    requires ScanAlerts(lines, lo).Success?
    ensures ScanAlerts(lines, hi).Success?
    ensures IsSubsequence(ScanAlerts(lines, hi).value, ScanAlerts(lines, lo).value)
    decreases |lines|
  {
    if |lines| > 0 {
      var rec := lines[0].record;
      ThresholdSubsequence(lines[1..], lo, hi);
      var x := ScanAlerts(lines[1..], hi).value;
      var y := ScanAlerts(lines[1..], lo).value;
      var p := AlertPayload(rec);
      if AlertSelected(rec, hi) {
        assert ([p] + x)[1..] == x && ([p] + y)[1..] == y;
      } else if AlertSelected(rec, lo) {
        assert ([p] + y)[1..] == y;
        assert [] + x == x;
      } else {
        assert [] + x == x && [] + y == y;
      }
    }
  }

  /** The alerts reported are an order-preserving subsequence of the
      alert events of the log. */
  lemma {:induction false} AlertsAreSubsequenceOfEvents(lines: seq<Line>, level: int)
    requires ScanAlerts(lines, level).Success?
    ensures IsSubsequence(ScanAlerts(lines, level).value, AlertEvents(lines))
    decreases |lines|
  {
    if |lines| > 0 {
      var rec := lines[0].record;
      AlertsAreSubsequenceOfEvents(lines[1..], level);
      var x := ScanAlerts(lines[1..], level).value;
      var y := AlertEvents(lines[1..]);
      var p := AlertPayload(rec);
      if AlertSelected(rec, level) {
        assert ([p] + x)[1..] == x && ([p] + y)[1..] == y;
      } else if rec.eventType == Some("alert") {
        assert ([p] + y)[1..] == y;
        assert [] + x == x;
      } else {
        assert [] + x == x && [] + y == y;
      }
    }
  }

  /** Filtering by a source address keeps an order-preserving subsequence of
      all flows. */
  lemma {:induction false} FlowFilterKeepsSubsequence(lines: seq<Line>, ip: Option<string>)
    requires ScanFlows(lines, None).Success?
    ensures ScanFlows(lines, ip).Success?
    ensures IsSubsequence(ScanFlows(lines, ip).value, ScanFlows(lines, None).value)
    decreases |lines|
  {
    if |lines| > 0 {
      var rec := lines[0].record;
      FlowFilterKeepsSubsequence(lines[1..], ip);
      var x := ScanFlows(lines[1..], ip).value;
      var y := ScanFlows(lines[1..], None).value;
      var p := FlowPayload(rec);
      if FlowSelected(rec, ip) {
        assert ([p] + x)[1..] == x && ([p] + y)[1..] == y;
      } else if FlowSelected(rec, None) {
        assert ([p] + y)[1..] == y;
        assert [] + x == x;
      } else {
        assert [] + x == x && [] + y == y;
      }
    }
  }

  /** An empty `device_ip` is falsy, so it filters nothing, like `None`. */
  lemma {:induction false} EmptyIpMeansAllFlows(lines: seq<Line>)
    ensures ScanFlows(lines, Some("")) == ScanFlows(lines, None)
    decreases |lines|
  {
    if |lines| > 0 {
      EmptyIpMeansAllFlows(lines[1..]);
    }
  }
}
