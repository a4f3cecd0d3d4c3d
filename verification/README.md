# Network security assessment services, modelled in Dafny

This project models the decision logic of the FastAPI backend's four service
modules, the parts of the network assessment engine that are pure logic:

- **Security scorer** (`CertificateScorer`): a device list becomes a score,
  a letter grade, an ordered list of issues and a certificate identifier.
- **Firmware identification** (`AsyncNetworkScanner.identify_firmware` and
  `_parse_headers`): ports 80, 443 and 8080 are probed in order. The first
  response's `Server` header is lower-cased and matched against an ordered
  keyword table, and the first keyword found wins.
- **EVE log queries** (`SuricataClient.get_alerts`, `get_flow_data`): alerts
  at or above a severity, and flows, optionally from one source address,
  read in log order from the Suricata event log.
- **Report helpers** (`AIReportGenerator`): the figures and device lines put
  into the prompt, and the summary taken from the report text.

Python dictionaries whose keys may be missing are records of `Option` fields.
Exceptions that escape a function (`KeyError`, a JSON decode error) are the
`Failure` side of a `Result`. Each module is one file: `wrappers.dfy`
(`Option`, `Result`), `seqs.dfy` (subsequences), `text.dfy` (the Python
string operations used), `devices.dfy` (the shared device record),
`certificate.dfy`, `scanner.dfy`, `suricata.dfy` and `ai_engine.dfy`.
Two helpers model source expressions without a contract of their own:
- `Text.Join` is `sep.join(parts)`. Its partner is `Text.Split`, and
  `Text.SplitJoin` connects the two.
- `AiEngine.DeviceLine` is the f-string of ai_engine.py:48. `AiEngine.DeviceLines`
  and `AiEngine.DeviceSummaryLines` state what is built from it.

The inputs from the outside world are parameters:
- each port's HTTP outcome is a function `probe: int -> Option<Headers>`;
- the log file is `Option<seq<Line>>`, where `None` means the file is missing
  and each line is already decoded or `Malformed`;
- the completion service's reply is a `Result<string, string>`, holding the
  reply text or the message of the exception it raised.

Points of the code's behaviour that are easy to misread:
- A malformed log line makes `get_alerts` and `get_flow_data` fail as a
  whole, because only `FileNotFoundError` is caught (suricata.py:24, 42).
  The line is not skipped.
- The grade is taken from the unclamped total (certificate.py:30). It always
  agrees with the grade of the clamped score.
- 93 points earns "A+", because the top threshold is 90
  (`Certificate.MixedNetworkExample`).
- The certificate identifier is the constant "some-unique-id". It is not a
  fresh token.
- The issue list follows device order, so it depends on that order. Only the
  score and grade do not (`Certificate.ScoreIgnoresBlockOrder`).
- The vulnerability deduction exists in the code only as a comment
  (certificate.py:24-26). The model keeps it a no-op, and the scorer has no
  vulnerability input.

## Model

| member | source | states |
|---|---|---|
| Certificate.ScoreNetworkSecurity | fastapi-backend/app/services/certificate.py:5-33 | Succeeds exactly when every penalised device has an `ip`. The score is max(0, 100 − 5U − 2P) and lies in [0, 100]. The grade equals the grade of the returned (clamped) score. The issues are one per penalty, U + P of them, in device order. The identifier is "some-unique-id". A failure names the first penalised device without an `ip`. |
| Certificate.ScoreLoop | fastapi-backend/app/services/certificate.py:13-22 | The loop, from any running total: the final total drops by 5 per "Unknown" device and 2 per device with more than 3 ports. The issues are appended in device order. It raises at the first flagged device lacking `ip`. |
| Certificate.GradeOf | fastapi-backend/app/services/certificate.py:35-45 | Total: returns the highest grade whose inclusive threshold (90/80/70/60) the score reaches, with F below 60. |
| Certificate.GradeLabelLadder | fastapi-backend/app/services/certificate.py:35-45 | The grade's label is "A+", "A", "B", "C" or "F", following the same `if`/`elif` ladder on the score. |
| Certificate.GradeMonotone | fastapi-backend/app/services/certificate.py:35-45 | A higher score never gets a lower grade. |
| Certificate.GradeSamples | fastapi-backend/app/services/certificate.py:29-45 | 85→A, 60→C, 59→F, 90→A+. The grade of an unclamped total equals the grade of the clamped one. |
| Certificate.IssueCount | fastapi-backend/app/services/certificate.py:13-22 | The number of issues is U + P. |
| Certificate.CountsAppend | fastapi-backend/app/services/certificate.py:13-22 | Both penalty counts add over concatenation. The issue list of a concatenation is the two issue lists in order. |
| Certificate.AddDeviceNeverIncreasesScore | fastapi-backend/app/services/certificate.py:13-29 | Inserting a device anywhere in the list never raises the score. |
| Certificate.ScoreIgnoresBlockOrder | fastapi-backend/app/services/certificate.py:13-30 | Swapping two blocks of devices changes neither score nor grade. The issues follow block order. |
| Certificate.EmptyNetwork | fastapi-backend/app/services/certificate.py:9-33 | No devices gives score 100, grade A+, no issues. |
| Certificate.SingleDeviceIssueOrder | fastapi-backend/app/services/certificate.py:13-22 | A device that is both unknown and over the port limit reports "Unidentified device at ip" before "Excessive open ports on ip" and scores 93. |
| Certificate.PortBoundary | fastapi-backend/app/services/certificate.py:20-22 | A device that is not "Unknown" and has exactly 3 ports, or no `ports` key, costs nothing and needs no `ip`. |
| Certificate.MixedNetworkExample | fastapi-backend/app/services/certificate.py:9-45 | One unknown device and one printer with 4 ports: score 93, grade A+, the two issues in device order. |
| Text.Lower | fastapi-backend/app/services/scanner.py:84 | `.lower()` keeps the length, maps each character through the ASCII lower-case table and leaves no upper-case letter. |
| Text.IndexOf | fastapi-backend/app/services/scanner.py:96 | The leftmost occurrence of a keyword, or none. It underlies the `keyword in server_header` test. |
| Scanner.FirstMatch | fastapi-backend/app/services/scanner.py:95-102 | The first table row whose keyword occurs in the header. No earlier row's keyword occurs. `None` means no row's keyword occurs. |
| Scanner.ParseHeaders | fastapi-backend/app/services/scanner.py:82-109 | The `ip` passes through unchanged. A recognised header gives the first matching row's type and vendor with confidence 0.85. Otherwise the type is "Unknown", the confidence 0.3, and the firmware is the lower-cased header or "Unknown" if it is empty. The type is "Unknown" iff the confidence is 0.3. |
| Scanner.ParseHeadersIgnoresCase | fastapi-backend/app/services/scanner.py:84 | A header and its lower-cased form classify identically. |
| Scanner.PhpReadsAsHp | fastapi-backend/app/services/scanner.py:84-102 | A "PHP" server header is classified as an HP printer, because substring matching is loose. |
| Scanner.FirstRowWins | fastapi-backend/app/services/scanner.py:86-102 | A header containing "canon" is a Canon printer, whatever later keywords it also contains. |
| Scanner.MissingServerHeader | fastapi-backend/app/services/scanner.py:84-109 | No `Server` header gives "Unknown"/"Unknown" at confidence 0.3. That differs from the 0.0 of a device that never answered. |
| Scanner.ProbeLoop | fastapi-backend/app/services/scanner.py:66-80 | The result classifies the headers of the first port that answers. Confidence is 0.0 exactly when no port answers, and then the result is the "Unknown" default. |
| Scanner.IdentifyFirmware | fastapi-backend/app/services/scanner.py:55-80 | Ports are tried in the order 80, 443, 8080. The first that answers decides the result, and no answer gives "Unknown"/"Unknown"/0.0. The type is "Unknown" iff the confidence is not 0.85. |
| Scanner.ProbeShortCircuit | fastapi-backend/app/services/scanner.py:68-76 | Ports after the first one that answers are never consulted. |
| Suricata.ScanAlerts | fastapi-backend/app/services/suricata.py:16-23 | Fails exactly when some line is malformed, reporting the first such line. Otherwise it returns at most one alert per line. |
| Suricata.ScanAlertsMembers | fastapi-backend/app/services/suricata.py:17-22 | An alert object is returned iff some line is an "alert" event carrying it with severity (default 0) at or above the threshold. |
| Suricata.GetAlerts | fastapi-backend/app/services/suricata.py:10-25 | A missing file gives `[]`. A malformed line fails the call. Otherwise exactly the qualifying alert objects are returned, each at or above the threshold. |
| Suricata.ScanFlows | fastapi-backend/app/services/suricata.py:33-41 | Fails exactly when some line is malformed, reporting the first such line. Otherwise it returns at most one flow per line. |
| Suricata.ScanFlowsMembers | fastapi-backend/app/services/suricata.py:34-40 | A flow object is returned iff some line is a "flow" event carrying it that passes the source filter. |
| Suricata.GetFlowData | fastapi-backend/app/services/suricata.py:27-43 | A missing file gives `[]`. A malformed line fails the call. With a truthy `device_ip`, every returned flow has that `src_ip`. |
| Suricata.ScanAlertsAppend | fastapi-backend/app/services/suricata.py:17-23 | A log read in two parts gives the two alert lists in order. The first malformed line, counted across the whole log, decides a failure. |
| Suricata.ScanFlowsAppend | fastapi-backend/app/services/suricata.py:34-41 | A log read in two parts gives the two flow lists in order. The first malformed line, counted across the whole log, decides a failure. |
| Suricata.OtherEventsIgnored | fastapi-backend/app/services/suricata.py:17-40 | An event that is neither "alert" nor "flow" changes neither query's result. |
| Suricata.DefaultLevelNeedsSeverity | fastapi-backend/app/services/suricata.py:10-22 | At the default threshold 1, every alert returned has an explicit `severity` of at least 1. |
| Suricata.AlertWithoutObject | fastapi-backend/app/services/suricata.py:19-22 | An alert event with no `alert` object yields `{}` with severity 0. It is kept iff the threshold is at most 0. |
| Suricata.RaisingThresholdKeepsSubsequence | fastapi-backend/app/services/suricata.py:19-22 | A higher threshold yields an order-preserving subsequence of the alerts, and never more of them. |
| Suricata.AlertsAreSubsequenceOfEvents | fastapi-backend/app/services/suricata.py:17-23 | The alerts returned are an order-preserving subsequence of the log's alert events. |
| Suricata.FlowFilterKeepsSubsequence | fastapi-backend/app/services/suricata.py:36-40 | Filtering by source address yields an order-preserving subsequence of all flows. |
| Suricata.EmptyIpMeansAllFlows | fastapi-backend/app/services/suricata.py:38 | An empty `device_ip` is falsy and filters nothing, just like `None`. |
| Text.Split | fastapi-backend/app/services/ai_engine.py:84 | `str.split` with a non-empty separator. It returns at least one piece, and joining the pieces gives the text back. No piece contains the separator. There is one piece iff the text lacks the separator; otherwise the first cut is at the leftmost occurrence. |
| Text.SplitJoin | fastapi-backend/app/services/ai_engine.py:47-49 | Join a non-empty list of parts with a one-character separator that none of them contains; splitting the result gives the parts back. |
| Text.Strip | fastapi-backend/app/services/ai_engine.py:28 | The result is the text with only whitespace around it, and it neither starts nor ends with whitespace. |
| AiEngine.SummarizeReport | fastapi-backend/app/services/ai_engine.py:80-84 | The summary is a prefix of the text and contains no blank-line break. Without a break it is the whole text. Otherwise text = summary + "\n\n" + rest, at the leftmost break. Empty text gives an empty summary. |
| AiEngine.SummaryEdgeCases | fastapi-backend/app/services/ai_engine.py:84 | The empty report's summary is empty. A report without a break is its own summary. |
| AiEngine.DeviceLines | fastapi-backend/app/services/ai_engine.py:47-49 | One line per device, in input order. It fails at the first device lacking `ip` (reported first) or `mac`. |
| AiEngine.CountSuspicious | fastapi-backend/app/services/ai_engine.py:53 | At most the number of flows. It equals that number iff every flow has a truthy `alert`, and is 0 iff none has. |
| AiEngine.CountSuspiciousAppend | fastapi-backend/app/services/ai_engine.py:53 | The count of the concatenation of two traffic lists is the sum of their counts. |
| AiEngine.CountSuspiciousIsFlaggedFlows | fastapi-backend/app/services/ai_engine.py:53 | The count equals the number of positions whose flow has a truthy `alert`. |
| AiEngine.BuildPrompt | fastapi-backend/app/services/ai_engine.py:37-78 | Succeeds iff every device has `ip` and `mac`. The device count is `len(devices)`, total flows `len(traffic_data)`, and vulnerabilities `len(vulnerabilities)`. Suspicious flows are the number of flows with a truthy `alert`, at most the total. The summary is the device lines joined by "\n". |
| AiEngine.DeviceSummaryLines | fastapi-backend/app/services/ai_engine.py:47-49 | For at least one device, when no field holds a line break, splitting the device summary at "\n" gives exactly one line per device, in order. |
| AiEngine.GenerateNetworkReport | fastapi-backend/app/services/ai_engine.py:9-35 | A device without `ip` or `mac` fails the whole call, because the prompt is built before the `try`. A failed completion becomes an error payload. Otherwise the report text is the stripped reply, and the summary is its first paragraph and a prefix of it. |

## Left out

- `scan_network_async` (scanner.py:12-53) is not modelled. It wraps nmap processes and parsers that are not part of this model. Its inner `callback_func` is never called, so the scan emits no per-device callbacks.
- Real HTTP probing (aiohttp sessions, the 2-second timeout): each port's outcome is the input `probe`. The `ports` argument of `identify_firmware` is unused in the source and ignored here too.
- JSON decoding: lines arrive decoded or `Malformed`. `Malformed` also stands for a line that decodes to a non-object, which makes `log.get` raise in both queries.
- Suricata.Line: one line encoding serves both queries, so an `alert` or `flow` value that is not an object (`null`, a string, a list) cannot be represented faithfully. The source treats these unevenly. A non-object `alert` on an alert event raises in `get_alerts`. A non-object `flow` on a flow event raises in `get_flow_data` only when `device_ip` is truthy; with a falsy `device_ip` it is appended as is, so `{"event_type":"flow","flow":null}` yields `[None]` (suricata.py:37-40). Each query ignores the other's nested value. Such a value has to be encoded as `Malformed`, which fails both queries.
- Suricata.AlertInfo: a `severity` that is not an integer is not representable. In the source a float or boolean severity compares numerically at suricata.py:21, and a null or string severity raises `TypeError`.
- Suricata.GetAlerts, Suricata.GetFlowData: a log file that exists but cannot be read (`PermissionError`, `IsADirectoryError`, a decoding error) raises in the source, since only `FileNotFoundError` is caught (suricata.py:24, 42). `EveLog` only distinguishes a missing file from a readable one.
- Devices.Device: a `ports` key holding something other than a list, an `ip` that is not a string, and a `mac` explicitly set to null are not represented.
- Text.Lower: only ASCII letters are lower-cased. Python's `str.lower` also maps non-ASCII letters.
- Scanner.ParseHeaders: the headers are a plain map looked up with the exact key "Server", as in the dictionary the source builds. Duplicate header lines are not modelled.
- The completion service call and its arguments (ai_engine.py:21-26), and the literal template text of the prompt. `BuildPrompt` keeps only the figures and the device summary it interpolates.
- The route modules, `main.py` and `config.py`: HTTP and WebSocket transport, database writes, event broadcasts and background tasks. The helpers they call (`generate_uuid`, `aggregate_traffic`, `aggregate_by_device_time`, `fetch_cve_data`, `fetch_all_devices`) are not part of this model.
- Floating-point confidence: `Scanner.Confidence` is the three constants 0.0, 0.3 and 0.85, written as hundredths.
