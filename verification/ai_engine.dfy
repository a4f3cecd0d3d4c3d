/** The deterministic parts of report generation: the statistics and device
    lines fed into the prompt, and the summary cut from the report text. The
    completion service itself is an input. */
module AiEngine {
  import opened Wrappers
  import opened Text
  import opened Devices
  import Suricata

  const ParagraphBreak: string := "\n\n"
  const LineBreak: string := "\n"

  /** `_summarize_report`: `report_text.split('\n\n')[0]`, the text before
      the first blank-line paragraph break, or all of it when there is none. */
  function SummarizeReport(text: string): (r: string)
    ensures |r| <= |text| && text[..|r|] == r
    ensures !Contains(r, ParagraphBreak)
    ensures !Contains(text, ParagraphBreak) ==> r == text
    ensures Contains(text, ParagraphBreak) ==>
              && |r| + |ParagraphBreak| <= |text|
              && text == r + ParagraphBreak + text[|r| + |ParagraphBreak|..]
              && IndexOf(text, ParagraphBreak) == Some(|r|)
    ensures text == "" ==> r == ""
  {
    var parts := Split(text, ParagraphBreak);
    if |parts| > 1 then
      var rest := Join(ParagraphBreak, parts[1..]);
      assert text == parts[0] + ParagraphBreak + rest;
      assert text[..|parts[0]|] == parts[0];
      assert text[|parts[0]| + |ParagraphBreak|..] == rest;
      parts[0]
    else
      parts[0]
  }

  /** `d['ip']` or `d['mac']` raised `KeyError` for the device at `index`. */
  datatype PromptError = MissingKey(index: nat, key: string)

  /** The device carries both keys the prompt line reads unguarded. */
  predicate Describable(d: Device) {
    d.ip.Some? && d.mac.Some?
  }

  /** One line of the device summary. */
  function DeviceLine(d: Device): string
    requires Describable(d)
  {
    "- IP: " + d.ip.value + ", MAC: " + d.mac.value + ", Type: " + d.deviceType.GetOr("N/A")
  }

  /** The list comprehension over `devices`: one line per device, in order;
      it raises at the first device lacking `ip` (checked first) or `mac`. */
  function DeviceLines(ds: seq<Device>): (r: Result<seq<string>, PromptError>)
    ensures r.Success? <==> forall i :: 0 <= i < |ds| ==> Describable(ds[i])
    ensures r.Success? ==> |r.value| == |ds|
    ensures r.Success? ==> forall i :: 0 <= i < |ds| ==> r.value[i] == DeviceLine(ds[i])
    ensures r.Failure? ==> && r.error.index < |ds| && !Describable(ds[r.error.index])
                           && r.error.key == (if ds[r.error.index].ip.None? then "ip" else "mac")
                           && forall j :: 0 <= j < r.error.index ==> Describable(ds[j])
    decreases |ds|
  {
    if |ds| == 0 then Success([])
    else
      assert forall j :: 1 <= j < |ds| ==> ds[j] == ds[1..][j - 1];
      var d := ds[0];
      if d.ip.None? then Failure(MissingKey(0, "ip"))
      else if d.mac.None? then Failure(MissingKey(0, "mac"))
      else
        match DeviceLines(ds[1..])
        case Failure(e) => Failure(MissingKey(e.index + 1, e.key))
        case Success(rest) => Success([DeviceLine(d)] + rest)
  }

  /** `sum(1 for t in traffic_data if t.get('alert'))`. */
  function CountSuspicious(flows: seq<Suricata.FlowInfo>): (n: nat)
    ensures n <= |flows|
    ensures n == |flows| <==> forall i :: 0 <= i < |flows| ==> flows[i].alert
    ensures n == 0 <==> forall i :: 0 <= i < |flows| ==> !flows[i].alert
    decreases |flows|
  {
    if |flows| == 0 then 0
    else
      assert forall j :: 1 <= j < |flows| ==> flows[j] == flows[1..][j - 1];
      (if flows[0].alert then 1 else 0) + CountSuspicious(flows[1..])
  }

  /** The positions of the flows whose `alert` value is truthy. */
  function AlertIndices(flows: seq<Suricata.FlowInfo>): set<nat> {
    set i: nat | i < |flows| && flows[i].alert
  }

  /** The count adds over concatenated traffic lists. */
  lemma {:induction false} CountSuspiciousAppend(a: seq<Suricata.FlowInfo>, b: seq<Suricata.FlowInfo>)
    ensures CountSuspicious(a + b) == CountSuspicious(a) + CountSuspicious(b)
    decreases |a|
  {
    if |a| == 0 {
      assert a + b == b;
    } else {
      assert (a + b)[1..] == a[1..] + b;
      CountSuspiciousAppend(a[1..], b);
    }
  }

  /** The count is exactly the number of flows with a truthy `alert`. */
  lemma {:induction false} CountSuspiciousIsFlaggedFlows(flows: seq<Suricata.FlowInfo>)
    ensures CountSuspicious(flows) == |AlertIndices(flows)|
    decreases |flows|
  {
    if |flows| > 0 {
      var n := |flows| - 1;
      var front := flows[..n];
      assert flows == front + [flows[n]];
      CountSuspiciousIsFlaggedFlows(front);
      CountSuspiciousAppend(front, [flows[n]]);
      assert CountSuspicious([flows[n]]) == (if flows[n].alert then 1 else 0);
      var last: set<nat> := if flows[n].alert then {n} else {};
      assert AlertIndices(flows) == AlertIndices(front) + last;
      assert n !in AlertIndices(front);
    }
  }

  /** The figures `_build_prompt` writes into the prompt. */
  datatype PromptFacts = PromptFacts(
    deviceCount: nat,
    deviceSummary: string,
    totalFlows: nat,
    suspiciousFlows: nat,
    totalVulns: nat)

  /** `_build_prompt`, without its fixed template text. */
  function BuildPrompt<V>(devices: seq<Device>, flows: seq<Suricata.FlowInfo>, vulns: seq<V>): (r: Result<PromptFacts, PromptError>)
    ensures r.Success? <==> forall i :: 0 <= i < |devices| ==> Describable(devices[i])
    ensures r.Success? ==> && r.value.deviceCount == |devices|
                           && r.value.totalFlows == |flows|
                           && r.value.suspiciousFlows == |AlertIndices(flows)|
                           && r.value.suspiciousFlows <= r.value.totalFlows
                           && r.value.totalVulns == |vulns|
    ensures r.Success? ==> r.value.deviceSummary == Join(LineBreak, DeviceLines(devices).value)
    ensures r.Failure? ==> r == Failure(DeviceLines(devices).error)
  {
    match DeviceLines(devices)
    case Failure(e) => Failure(e)
    case Success(lines) =>
      CountSuspiciousIsFlaggedFlows(flows);
      Success(PromptFacts(|devices|, Join(LineBreak, lines), |flows|, CountSuspicious(flows), |vulns|))
  }

  /** No field of the device holds a line break. */
  predicate SingleLine(d: Device) {
    && (d.ip.Some? ==> '\n' !in d.ip.value)
    && (d.mac.Some? ==> '\n' !in d.mac.value)
    && (d.deviceType.Some? ==> '\n' !in d.deviceType.value)
  }

  /** The device summary has one line per device, in input order: splitting
      it at line breaks gives back the device lines. */
  lemma DeviceSummaryLines<V>(devices: seq<Device>, flows: seq<Suricata.FlowInfo>, vulns: seq<V>)
    requires |devices| >= 1
    requires forall i :: 0 <= i < |devices| ==> Describable(devices[i]) && SingleLine(devices[i])
    ensures BuildPrompt(devices, flows, vulns).Success?
    ensures var lines := Split(BuildPrompt(devices, flows, vulns).value.deviceSummary, LineBreak);
            |lines| == |devices| && forall i :: 0 <= i < |devices| ==> lines[i] == DeviceLine(devices[i])
  {
    var lines := DeviceLines(devices).value;
    forall i | 0 <= i < |lines|
      ensures !Contains(lines[i], LineBreak)
    {
      ContainsChar(lines[i], LineBreak);
      assert LineBreak[0] == '\n';
      assert '\n' !in "- IP: " && '\n' !in ", MAC: " && '\n' !in ", Type: " && '\n' !in "N/A";
    }
    SplitJoin(LineBreak, lines);
  }

  /** What `generate_network_report` returns. */
  datatype ReportOutcome = Report(reportText: string, summary: string) | ErrorPayload(message: string)

  /** `generate_network_report`. `completion` is the completion service's
      reply text, or the message of the exception the call raised. A device
      the prompt cannot describe fails the whole call, because the prompt is
      built before the `try`; a failed completion becomes an error payload. */
  function GenerateNetworkReport<V>(devices: seq<Device>, flows: seq<Suricata.FlowInfo>, vulns: seq<V>,
                                    completion: Result<string, string>): (r: Result<ReportOutcome, PromptError>)
    ensures r.Failure? <==> exists i :: 0 <= i < |devices| && !Describable(devices[i])
    ensures r.Success? && completion.Failure? ==> r.value == ErrorPayload(completion.error)
    ensures r.Success? && completion.Success? ==>
              && r.value.Report?
              && r.value.reportText == Strip(completion.value)
              && r.value.summary == SummarizeReport(r.value.reportText)
              && r.value.reportText[..|r.value.summary|] == r.value.summary
  {
    match BuildPrompt(devices, flows, vulns)
    case Failure(e) => Failure(e)
    case Success(_) =>
      match completion
      case Failure(message) => Success(ErrorPayload(message))
      case Success(raw) =>
        var text := Strip(raw);
        Success(Report(text, SummarizeReport(text)))
  }

  /** The empty report has the empty summary; a report without a paragraph
      break is its own summary. */
  lemma SummaryEdgeCases(text: string)
    ensures SummarizeReport("") == ""
    ensures !Contains(text, ParagraphBreak) ==> SummarizeReport(text) == text
  {
  }
}
