/** Firmware identification: classify an HTTP `Server` header against an
    ordered keyword table, after probing a fixed list of ports and keeping
    the first one that answers. */
module Scanner {
  import opened Wrappers
  import opened Text

  /** The classifier's three confidence levels, 0.0, 0.3 and 0.85. */
  datatype Confidence = NoSignal | Low | High {

    function Hundredths(): nat {
      match this
      case NoSignal => 0
      case Low => 30
      case High => 85
    }
  }

  datatype FirmwareInfo = FirmwareInfo(ip: string, deviceType: string, firmware: string, confidence: Confidence)

  /** One row of the fingerprint table: keyword, then device type and vendor. */
  datatype Fingerprint = Fingerprint(keyword: string, deviceType: string, vendor: string)

  /** The table in its priority order; the first keyword found wins. */
  const Fingerprints: seq<Fingerprint> := [
    Fingerprint("canon", "Printer", "Canon"),
    Fingerprint("hp", "Printer", "HP"),
    Fingerprint("cisco", "Network", "Cisco"),
    Fingerprint("tplink", "Router", "TP-Link"),
    Fingerprint("nest", "IoT", "Google Nest"),
    Fingerprint("wyoming", "Camera", "Wylie")
  ]

  /** The ports probed, in the order they are tried. */
  const ProbePorts: seq<int> := [80, 443, 8080]

  const Unknown: string := "Unknown"

  /** A response's headers, as the plain dictionary the source builds from them. */
  type Headers = map<string, string>

  /** `headers.get("Server", "").lower()`. */
  function ServerHeader(h: Headers): string {
    Lower(if "Server" in h then h["Server"] else "")
  }

  /** Some keyword of the table occurs in `server`. */
  predicate Recognised(server: string) {
    exists i :: 0 <= i < |Fingerprints| && Contains(server, Fingerprints[i].keyword)
  }

  /** The position of the first row whose keyword occurs in `server`. */
  function FirstMatch(table: seq<Fingerprint>, server: string): (r: Option<nat>)
    ensures r.Some? ==> r.value < |table| && Contains(server, table[r.value].keyword)
    ensures r.Some? ==> forall j :: 0 <= j < r.value ==> !Contains(server, table[j].keyword)
    ensures r.None? ==> forall j :: 0 <= j < |table| ==> !Contains(server, table[j].keyword)
    decreases |table|
  {
    if |table| == 0 then None
    else if Contains(server, table[0].keyword) then Some(0)
    else
      var rest := FirstMatch(table[1..], server);
      assert forall j :: 1 <= j < |table| ==> table[j] == table[1..][j - 1];
      match rest
      case Some(i) => Some(i + 1)
      case None => None
  }

  /** `_parse_headers`: a recognised header yields the type and vendor of the
      first matching row with confidence 0.85; otherwise "Unknown" with 0.3
      and the lower-cased header (or "Unknown" when it is empty). */
  function ParseHeaders(h: Headers, ip: string): (r: FirmwareInfo)
    ensures r.ip == ip
    ensures r.confidence != NoSignal
    ensures r.deviceType == Unknown <==> r.confidence == Low
    ensures r.confidence == High <==> Recognised(ServerHeader(h))
    ensures r.confidence == High ==>
              exists i :: && 0 <= i < |Fingerprints|
                          && Contains(ServerHeader(h), Fingerprints[i].keyword)
                          && (forall j :: 0 <= j < i ==> !Contains(ServerHeader(h), Fingerprints[j].keyword))
                          && r.deviceType == Fingerprints[i].deviceType
                          && r.firmware == Fingerprints[i].vendor
    ensures r.confidence == Low ==>
              r.firmware == (if ServerHeader(h) == "" then Unknown else ServerHeader(h))
  {
    var server := ServerHeader(h);
    match FirstMatch(Fingerprints, server)
    case Some(i) =>
      FirmwareInfo(ip, Fingerprints[i].deviceType, Fingerprints[i].vendor, High)
    case None =>
      FirmwareInfo(ip, Unknown, if server == "" then Unknown else server, Low)
  }

  /** What `identify_firmware` reports when no port answers. */
  function NoSignalInfo(ip: string): FirmwareInfo {
    FirmwareInfo(ip, Unknown, Unknown, NoSignal)
  }

  /** `candidates[k]` is the first port whose probe answers. */
  predicate FirstAnswering(candidates: seq<int>, probe: int -> Option<Headers>, k: int) {
    && 0 <= k < |candidates| && probe(candidates[k]).Some?
    && forall j :: 0 <= j < k ==> probe(candidates[j]).None?
  }

  /** The probe loop over `candidates`: the headers of the first port whose
      probe answers are classified, and nothing after it is consulted. */
  function ProbeLoop(candidates: seq<int>, probe: int -> Option<Headers>, ip: string): (r: FirmwareInfo)
    ensures r.ip == ip
    ensures r.confidence == NoSignal <==> forall j :: 0 <= j < |candidates| ==> probe(candidates[j]).None?
    ensures r.confidence == NoSignal ==> r == NoSignalInfo(ip)
    ensures forall k :: FirstAnswering(candidates, probe, k) ==> r == ParseHeaders(probe(candidates[k]).value, ip)
    decreases |candidates|
  {
    if |candidates| == 0 then NoSignalInfo(ip)
    else if probe(candidates[0]).Some? then
      assert forall k :: FirstAnswering(candidates, probe, k) ==> k == 0;
      ParseHeaders(probe(candidates[0]).value, ip)
    else
      var tail := candidates[1..];
      assert forall j :: 1 <= j < |candidates| ==> candidates[j] == tail[j - 1];
      assert forall k :: FirstAnswering(candidates, probe, k) ==> FirstAnswering(tail, probe, k - 1) by {
        forall k | FirstAnswering(candidates, probe, k)
          ensures FirstAnswering(tail, probe, k - 1)
        {
          assert k != 0;
          forall j | 0 <= j < k - 1 ensures probe(tail[j]).None? {
            assert tail[j] == candidates[j + 1];
          }
        }
      }
      ProbeLoop(tail, probe, ip)
  }

  /** `identify_firmware`. Each port's HTTP outcome is the input `probe`:
      `None` for a failed or timed-out request, else the response headers.
      The `ports` argument is accepted and ignored, as in the source. */
  function IdentifyFirmware(ip: string, ports: seq<int>, probe: int -> Option<Headers>): (r: FirmwareInfo)
    ensures r.ip == ip
    ensures probe(80).Some? ==> r == ParseHeaders(probe(80).value, ip)
    ensures probe(80).None? && probe(443).Some? ==> r == ParseHeaders(probe(443).value, ip)
    ensures probe(80).None? && probe(443).None? && probe(8080).Some?
            ==> r == ParseHeaders(probe(8080).value, ip)
    ensures probe(80).None? && probe(443).None? && probe(8080).None?
            ==> r == FirmwareInfo(ip, "Unknown", "Unknown", NoSignal)
    ensures r.confidence == NoSignal <==> probe(80).None? && probe(443).None? && probe(8080).None?
    ensures r.deviceType == Unknown <==> r.confidence != High
  {
    var r := ProbeLoop(ProbePorts, probe, ip);
    assert ProbePorts[0] == 80 && ProbePorts[1] == 443 && ProbePorts[2] == 8080;
    r
  }

  /** Ports after the first one that answers are never consulted: two
      network states that agree up to that port give the same result. */
  lemma ProbeShortCircuit(ip: string, ports: seq<int>, p1: int -> Option<Headers>, p2: int -> Option<Headers>, k: nat)
    requires k < |ProbePorts| && p1(ProbePorts[k]).Some?
    requires forall j :: 0 <= j <= k ==> p1(ProbePorts[j]) == p2(ProbePorts[j])
    ensures IdentifyFirmware(ip, ports, p1) == IdentifyFirmware(ip, ports, p2)
  {
    var first :| 0 <= first <= k && p1(ProbePorts[first]).Some?
                 && forall j :: 0 <= j < first ==> p1(ProbePorts[j]).None?;
  }

  /** Matching ignores case: a header and its lower-cased form classify alike. */
  lemma ParseHeadersIgnoresCase(h: Headers, v: string, ip: string)
    ensures ParseHeaders(h["Server" := v], ip) == ParseHeaders(h["Server" := Lower(v)], ip)
  {
    LowerIdempotent(v);
    assert ServerHeader(h["Server" := v]) == ServerHeader(h["Server" := Lower(v)]);
  }

  /** Substring matching is loose: "PHP" contains "hp", so it reads as an HP printer. */
  lemma PhpReadsAsHp(ip: string)
    ensures ParseHeaders(map["Server" := "PHP"], ip) == FirmwareInfo(ip, "Printer", "HP", High)
  {
    var server := ServerHeader(map["Server" := "PHP"]);
    assert server == "php";
    assert !OccursAt("canon", server, 0);
    assert OccursAt("hp", server, 1);
    OccursContains("hp", server, 1);
    assert FirstMatch(Fingerprints, server) == Some(1);
  }

  /** Table order decides overlaps: a header naming "canon" is a Canon
      printer whatever other keywords (say "cisco") it also contains. */
  lemma FirstRowWins(h: Headers, ip: string)
    requires Contains(ServerHeader(h), "canon")
    ensures ParseHeaders(h, ip) == FirmwareInfo(ip, "Printer", "Canon", High)
  {
    assert Fingerprints[0].keyword == "canon";
  }

  /** No `Server` header: "Unknown" firmware with confidence 0.3, which is
      not the 0.0 of a device that never answered. */
  lemma MissingServerHeader(ip: string)
    ensures ParseHeaders(map[], ip) == FirmwareInfo(ip, "Unknown", "Unknown", Low)
    ensures ParseHeaders(map[], ip).confidence.Hundredths() == 30
    ensures NoSignalInfo(ip).confidence.Hundredths() == 0
  {
    assert ServerHeader(map[]) == "";
    assert !Recognised("");
  }
}
