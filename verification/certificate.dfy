/** The security scorer: a device list becomes a score, a letter grade and
    an ordered list of human-readable issues. */
module Certificate {
  import opened Wrappers
  import opened Devices

  const StartScore: int := 100
  const UnknownPenalty: int := 5
  const PortPenalty: int := 2
  /** A device is penalised for having strictly more open ports than this. */
  const PortLimit: int := 3
  /** The certificate identifier is a fixed placeholder, not a fresh token. */
  const CertificateId: string := "some-unique-id"

  datatype Grade = APlus | A | B | C | F {

    function Label(): string {
      match this
      case APlus => "A+"
      case A => "A"
      case B => "B"
      case C => "C"
      case F => "F"
    }

    /** Position in the ladder, `F` lowest. */
    function Rank(): nat {
      match this
      case F => 0
      case C => 1
      case B => 2
      case A => 3
      case APlus => 4
    }

    /** The inclusive lower bound a score must reach for this grade; `F` has none. */
    function Threshold(): Option<int> {
      match this
      case APlus => Some(90)
      case A => Some(80)
      case B => Some(70)
      case C => Some(60)
      case F => None
    }

    predicate Admits(score: int) {
      Threshold().None? || score >= Threshold().value
    }
  }

  datatype SecurityCertificate = SecurityCertificate(
    score: int,
    grade: Grade,
    issues: seq<string>,
    certificateId: string)

  /** `device['ip']` raised `KeyError` while reporting the device at this index. */
  datatype ScoreError = MissingIp(index: nat)

  /** The running state of the scoring loop. */
  datatype Tally = Tally(total: int, issues: seq<string>)

  predicate Unidentified(d: Device) {
    d.deviceType == Some("Unknown")
  }

  predicate ExcessivePorts(d: Device) {
    |PortsOrEmpty(d)| > PortLimit
  }

  /** The device produces at least one issue, so its `ip` is read. */
  predicate Flagged(d: Device) {
    Unidentified(d) || ExcessivePorts(d)
  }

  /** Every device whose `ip` the scorer reads has one. */
  predicate IpsPresent(ds: seq<Device>) {
    forall i :: 0 <= i < |ds| && Flagged(ds[i]) ==> ds[i].ip.Some?
  }

  function UnidentifiedIssue(ip: string): string {
    "Unidentified device at " + ip
  }

  function ExcessivePortsIssue(ip: string): string {
    "Excessive open ports on " + ip
  }

  /** U: the number of devices typed "Unknown". */
  function CountUnidentified(ds: seq<Device>): nat {
    if |ds| == 0 then 0
    else (if Unidentified(ds[0]) then 1 else 0) + CountUnidentified(ds[1..])
  }

  /** P: the number of devices with more than `PortLimit` ports. */
  function CountExcessive(ds: seq<Device>): nat {
    if |ds| == 0 then 0
    else (if ExcessivePorts(ds[0]) then 1 else 0) + CountExcessive(ds[1..])
  }

  /** The closed form of the score: `max(0, 100 - 5U - 2P)`. */
  function ExpectedScore(ds: seq<Device>): int {
    var raw := StartScore - UnknownPenalty * CountUnidentified(ds) - PortPenalty * CountExcessive(ds);
    if raw < 0 then 0 else raw
  }

  /** The issues one device contributes, unidentified before excessive ports. */
  function DeviceIssues(d: Device): seq<string>
    requires !Flagged(d) || d.ip.Some?
  {
    (if Unidentified(d) then [UnidentifiedIssue(d.ip.value)] else [])
    + (if ExcessivePorts(d) then [ExcessivePortsIssue(d.ip.value)] else [])
  }

  /** The issues of a device list, device by device. */
  function IssuesOf(ds: seq<Device>): seq<string>
    requires IpsPresent(ds)
  {
    if |ds| == 0 then [] else DeviceIssues(ds[0]) + IssuesOf(ds[1..])
  }

  /** The grade ladder: the highest grade whose threshold the score reaches. */
  function GradeOf(score: int): (g: Grade)
    ensures g.Admits(score)
    ensures forall h: Grade :: h.Rank() > g.Rank() ==> !h.Admits(score)
  {
    if score >= 90 then APlus
    else if score >= 80 then A
    else if score >= 70 then B
    else if score >= 60 then C
    else F
  }

  /** One pass of the loop body for device `d`. */
  function Visit(d: Device, t: Tally): (r: Tally)
    requires !Flagged(d) || d.ip.Some?
  {
    var afterType :=
      if Unidentified(d) then Tally(t.total - UnknownPenalty, t.issues + [UnidentifiedIssue(d.ip.value)])
      else t;
    if ExcessivePorts(d) then
      Tally(afterType.total - PortPenalty, afterType.issues + [ExcessivePortsIssue(d.ip.value)])
    else afterType
  }

  /** The `for device in devices` loop, run from tally `t`. It stops with
      `KeyError` at the first flagged device without an `ip`. */
  function ScoreLoop(ds: seq<Device>, t: Tally): (r: Result<Tally, ScoreError>)
    ensures r.Success? <==> IpsPresent(ds)
    ensures r.Success? ==> r.value.total
                           == t.total - UnknownPenalty * CountUnidentified(ds) - PortPenalty * CountExcessive(ds)
    ensures r.Success? ==> r.value.issues == t.issues + IssuesOf(ds)
    ensures r.Failure? ==> && r.error.index < |ds|
                           && Flagged(ds[r.error.index]) && ds[r.error.index].ip.None?
                           && forall j :: 0 <= j < r.error.index ==> !Flagged(ds[j]) || ds[j].ip.Some?
    decreases |ds|
  {
    if |ds| == 0 then Success(t)
    else if Flagged(ds[0]) && ds[0].ip.None? then Failure(MissingIp(0))
    else
      var rest := ScoreLoop(ds[1..], Visit(ds[0], t));
      assert forall j :: 1 <= j < |ds| ==> ds[j] == ds[1..][j - 1];
      match rest
      case Success(x) => Success(x)
      case Failure(MissingIp(i)) => Failure(MissingIp(i + 1))
  }

  /** `score_network_security`: the score is the clamped closed form, the
      grade (taken from the unclamped total) agrees with the grade of the
      clamped score, and there is one issue per penalty, in device order. */
  function ScoreNetworkSecurity(ds: seq<Device>): (r: Result<SecurityCertificate, ScoreError>)
    ensures r.Success? <==> IpsPresent(ds)
    ensures r.Success? ==> r.value.score == ExpectedScore(ds)
    ensures r.Success? ==> 0 <= r.value.score <= StartScore
    ensures r.Success? ==> r.value.grade == GradeOf(r.value.score)
    ensures r.Success? ==> r.value.issues == IssuesOf(ds)
    ensures r.Success? ==> |r.value.issues| == CountUnidentified(ds) + CountExcessive(ds)
    ensures r.Success? ==> r.value.certificateId == CertificateId
    ensures r.Failure? ==> && r.error.index < |ds|
                           && Flagged(ds[r.error.index]) && ds[r.error.index].ip.None?
                           && forall j :: 0 <= j < r.error.index ==> !Flagged(ds[j]) || ds[j].ip.Some?
  {
    match ScoreLoop(ds, Tally(StartScore, []))
    case Failure(e) => Failure(e)
    case Success(t) =>
      IssueCount(ds);
      Success(SecurityCertificate(if t.total < 0 then 0 else t.total, GradeOf(t.total), t.issues, CertificateId))
  }

  /** There is exactly one issue per penalty: U + P of them. */
  lemma {:induction false} IssueCount(ds: seq<Device>)
    requires IpsPresent(ds)
    ensures |IssuesOf(ds)| == CountUnidentified(ds) + CountExcessive(ds)
    decreases |ds|
  {
    if |ds| > 0 {
      assert IpsPresent(ds[1..]) by {
        assert forall j :: 0 <= j < |ds| - 1 ==> ds[1..][j] == ds[j + 1];
      }
      IssueCount(ds[1..]);
    }
  }

  /** Both counts, and the issue list, split over a concatenation. */
  lemma {:induction false} CountsAppend(a: seq<Device>, b: seq<Device>)
    ensures CountUnidentified(a + b) == CountUnidentified(a) + CountUnidentified(b)
    ensures CountExcessive(a + b) == CountExcessive(a) + CountExcessive(b)
    ensures IpsPresent(a + b) <==> IpsPresent(a) && IpsPresent(b)
    ensures IpsPresent(a + b) ==> IssuesOf(a + b) == IssuesOf(a) + IssuesOf(b)
    decreases |a|
  {
    if |a| == 0 {
      assert a + b == b;
    } else {
      assert (a + b)[1..] == a[1..] + b;
      assert (a + b)[0] == a[0];
      CountsAppend(a[1..], b);
      assert IpsPresent(a) <==> (!Flagged(a[0]) || a[0].ip.Some?) && IpsPresent(a[1..]) by {
        assert forall j :: 1 <= j < |a| ==> a[j] == a[1..][j - 1];
      }
      assert IpsPresent(a + b) <==> (!Flagged(a[0]) || a[0].ip.Some?) && IpsPresent(a[1..] + b) by {
        assert forall j :: 1 <= j < |a + b| ==> (a + b)[j] == (a[1..] + b)[j - 1];
      }
    }
  }

  /** Adding a device anywhere in the list never raises the score. */
  lemma AddDeviceNeverIncreasesScore(ds: seq<Device>, i: nat, d: Device)
    requires i <= |ds|
    requires IpsPresent(ds[..i] + [d] + ds[i..])
    ensures ScoreNetworkSecurity(ds).Success?
    ensures ScoreNetworkSecurity(ds[..i] + [d] + ds[i..]).Success?
    ensures ScoreNetworkSecurity(ds[..i] + [d] + ds[i..]).value.score
            <= ScoreNetworkSecurity(ds).value.score
  {
    var front, back := ds[..i], ds[i..];
    assert ds == front + back;
    CountsAppend(front, [d]);
    CountsAppend(front + [d], back);
    CountsAppend(front, back);
  }

  /** The score and grade do not depend on the order of two blocks of
      devices; the issues come in block order. */
  lemma ScoreIgnoresBlockOrder(a: seq<Device>, b: seq<Device>)
    requires IpsPresent(a + b)
    ensures IpsPresent(a) && IpsPresent(b)
    ensures ScoreNetworkSecurity(b + a).Success?
    ensures ScoreNetworkSecurity(a + b).value.score == ScoreNetworkSecurity(b + a).value.score
    ensures ScoreNetworkSecurity(a + b).value.grade == ScoreNetworkSecurity(b + a).value.grade
    ensures ScoreNetworkSecurity(a + b).value.issues == IssuesOf(a) + IssuesOf(b)
  {
    CountsAppend(a, b);
    CountsAppend(b, a);
  }

  /** The label `_get_grade` returns, as its `if`/`elif` ladder reads. */
  lemma GradeLabelLadder(score: int)
    ensures GradeOf(score).Label() ==
              if score >= 90 then "A+"
              else if score >= 80 then "A"
              else if score >= 70 then "B"
              else if score >= 60 then "C"
              else "F"
  {
  }

  /** Each step down the ladder needs a lower score: the grade is monotone. */
  lemma GradeMonotone(s1: int, s2: int)
    requires s1 <= s2
    ensures GradeOf(s1).Rank() <= GradeOf(s2).Rank()
  {
    var g1 := GradeOf(s1);
    assert g1.Admits(s2);
  }

  /** The grade at a few sample scores, and the grade taken
      from an unclamped total equals the grade of the clamped one. */
  lemma GradeSamples(total: int)
    ensures GradeOf(85) == A && GradeOf(60) == C && GradeOf(59) == F && GradeOf(90) == APlus
    ensures GradeOf(if total < 0 then 0 else total) == GradeOf(total)
  {
  }

  /** No devices: full marks and nothing to report. */
  lemma EmptyNetwork()
    ensures ScoreNetworkSecurity([]) == Success(SecurityCertificate(100, APlus, [], "some-unique-id"))
  {
  }

  /** One device with both problems reports them type-first. */
  lemma SingleDeviceIssueOrder(d: Device)
    requires Unidentified(d) && ExcessivePorts(d) && d.ip.Some?
    ensures ScoreNetworkSecurity([d]).Success?
    ensures ScoreNetworkSecurity([d]).value.issues
            == ["Unidentified device at " + d.ip.value, "Excessive open ports on " + d.ip.value]
    ensures ScoreNetworkSecurity([d]).value.score == 93
  {
    assert IssuesOf([d]) == DeviceIssues(d) + IssuesOf([d][1..]);
  }

  /** Exactly three ports, or no `ports` key, costs nothing, and then the
      `ip` is never read, so a device without one is harmless. */
  lemma PortBoundary(d: Device)
    requires !Unidentified(d)
    requires d.ports.None? || |d.ports.value| == PortLimit
    ensures ScoreNetworkSecurity([d]) == Success(SecurityCertificate(100, APlus, [], CertificateId))
  {
    assert IssuesOf([d]) == DeviceIssues(d) + IssuesOf([d][1..]);
  }

  /** One unknown device and one printer with four ports: 100 - 5 - 2 = 93,
      which reaches the 90 threshold and so earns "A+". */
  lemma MixedNetworkExample()
    ensures var ds := [
              Device(Some("10.0.0.1"), None, Some("Unknown"), Some([80])),
              Device(Some("10.0.0.2"), None, Some("Printer"), Some([80, 443, 8080, 9100]))];
            ScoreNetworkSecurity(ds)
            == Success(SecurityCertificate(93, APlus,
                 [UnidentifiedIssue("10.0.0.1"), ExcessivePortsIssue("10.0.0.2")], CertificateId))
  {
    var d1 := Device(Some("10.0.0.1"), None, Some("Unknown"), Some([80]));
    var d2 := Device(Some("10.0.0.2"), None, Some("Printer"), Some([80, 443, 8080, 9100]));
    var ds := [d1, d2];
    assert ds[1..] == [d2];
    assert !Unidentified(d2);
    assert IssuesOf(ds) == DeviceIssues(d1) + IssuesOf([d2]);
    assert IssuesOf([d2]) == DeviceIssues(d2) + IssuesOf([d2][1..]);
    assert [d2][1..] == [];
    assert ExcessivePorts(d2) && !ExcessivePorts(d1);
    assert CountUnidentified([d2]) == 0 && CountExcessive([d2]) == 1;
    assert CountUnidentified(ds) == 1 + CountUnidentified([d2]);
    assert CountExcessive(ds) == 0 + CountExcessive([d2]);
    assert ExpectedScore(ds) == 93;
    var r := ScoreNetworkSecurity(ds);
    assert r.Success?;
    assert r.value.score == 93;
    assert DeviceIssues(d1) == [UnidentifiedIssue("10.0.0.1")];
    assert DeviceIssues(d2) == [ExcessivePortsIssue("10.0.0.2")];
    assert r.value.issues == [UnidentifiedIssue("10.0.0.1"), ExcessivePortsIssue("10.0.0.2")];
  }
}
