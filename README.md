# Jenkins telemetry: trial gating, per-trial correlators and one reporter cycle

This project models the telemetry engine of Jenkins as its JUnit test
`TelemetryTest` drives it. A *trial* is a telemetry source with an id, a
display name and an inclusive window of calendar dates. Each time the
*reporter* runs, it walks every registered trial. A trial whose window has
not started is skipped and the skip is logged; so is a trial whose window has
ended. Every other trial is submitted as a document
`{type: id, correlator: sha256Hex(correlationId + id)}`, and the response
status line is logged. The correlation id comes from the installation's
*Correlator*, and tests may override it. The test's own pieces are modelled
too: the three test trials, the receiver that records the `correlator` and
`type` of every event and counts the events, and the CSRF ("crumb")
exclusion that lets requests to `/uplink…` bypass the crumb check.

Files:

- `telemetry.dfy`, module `Telemetry`. It holds the engine: dates, trials
  and the gate (`Decide`, with its reference predicate `Active`), the
  `Correlator` class, the hex-encoded digest (`Hex`, `CorrelatorHash`),
  structured log events, and the reporter cycle. The cycle is the method
  `RunCycle`, proved equal to the specification functions `CycleLog` and
  `CycleSubmissions`, and followed by the lemmas about them.
- `telemetry_test.dfy`, module `TelemetryTest`. It holds the test trials,
  the `TelemetryReceiver` class (fields `correlators`, `types`, `counter`),
  the `NoCrumbProcess` filter, and the two test scenarios `TestSubmission`
  and `TestPerTrialCorrelator`. Each scenario runs a cycle and delivers every
  submission to a freshly reset receiver.

Modelling choices:

- Dates are epoch-day numbers. `MIN_DAY` and `MAX_DAY` are the epoch days of
  `LocalDate.MIN` and `LocalDate.MAX`. `today` is a parameter, not the clock.
  `FutureTrial` and `PastTrial` do not exist on the last and the first date
  respectively, because `LocalDate.plus`/`minus` would throw there.
- Both window bounds are inclusive: a trial is eligible when
  `start <= today <= end`. The test never puts today on a boundary, so nothing
  in `TelemetryTest` pins this choice.
- SHA-256 is the function-typed parameter `h: string -> seq<byte>`, and
  nothing about it is assumed. Lemmas that need a 32-byte digest require
  `IsSha256(h)`. Lemmas that need distinct digests require `CollisionFreeOn`
  over the finite set of digest inputs they use. Injectivity over all
  strings is impossible for a fixed-size digest, so it is never assumed.
  The lowercase hex encoding of the digest is modelled concretely and proved
  injective.
- The log is a sequence of structured `LogEvent`s, and `Messages` gives
  the lines the logger captures, one `Message` per event. The three lines
  the submission test looks for are written in the contracts as two string
  literals joined where the trial id ends, e.g.
  `"Skipping telemetry for 'future" + "' as it is configured to start later"`;
  the joined string is the test's expected line character for character.
- `core/src/main/java/jenkins/telemetry/Telemetry.java` is not part of this
  model; the engine is modelled from what `TelemetryTest` asserts. The skip
  lines name the trial by its id, as the success line does. Every test trial
  has id == display name (TelemetryTest.java:98-105, 132-139, 166-173), so
  the test cannot tell the two apart.
- Delivery of a submission is modelled as an in-order, synchronous call of
  `DoEvents` on the receiver (`Deliver`). The response is always `200 OK`.

## Model

| member | source | states |
|---|---|---|
| `Telemetry.Decide` | test/src/test/java/jenkins/telemetry/TelemetryTest.java:66-68 | The gate: a trial is eligible exactly when `start <= today <= end`. It starts later exactly when `today < start`. It ends in the past exactly when it has started and `end < today`. |
| `Telemetry.Correlator.constructor` | test/src/test/java/jenkins/telemetry/TelemetryTest.java:79 | A new correlator holds the generated correlation id. |
| `Telemetry.Correlator.SetCorrelationId` | test/src/test/java/jenkins/telemetry/TelemetryTest.java:80-81 | Setting the id replaces it outright. |
| `Telemetry.Hex` | test/src/test/java/jenkins/telemetry/TelemetryTest.java:89-90 | Hex encoding yields two lowercase hex digits per byte. |
| `Telemetry.HexInjective` | test/src/test/java/jenkins/telemetry/TelemetryTest.java:89-90 | Equal hex strings come from equal byte strings. |
| `Telemetry.CorrelatorHash` | test/src/test/java/jenkins/telemetry/TelemetryTest.java:90 | The correlator `sha256Hex(correlationId + id)` is lowercase hex, two digits per digest byte. |
| `Telemetry.DistinctTrialsDistinctCorrelators` | test/src/test/java/jenkins/telemetry/TelemetryTest.java:88-90 | With one correlation id, two different trial ids get different correlators unless SHA-256 collides on their inputs. |
| `Telemetry.ReseedChangesCorrelator` | test/src/test/java/jenkins/telemetry/TelemetryTest.java:80-81 | Setting a different correlation id changes a trial's correlator unless SHA-256 collides on the two inputs. |
| `Telemetry.Message` | test/src/test/java/jenkins/telemetry/TelemetryTest.java:66-68 | A delivery line begins `Telemetry submission received response '` and a skip line begins `Skipping telemetry for '`, each exactly for its kind of event. |
| `Telemetry.Messages` | test/src/test/java/jenkins/telemetry/TelemetryTest.java:66-68 | The captured log has one line per event, and the text of every event is among its lines. |
| `Telemetry.RunCycle` | test/src/test/java/jenkins/telemetry/TelemetryTest.java:62 | One reporter run over all trials: its log and its submissions are exactly `CycleLog` and `CycleSubmissions` of the registry, today and the correlator's current id. |
| `Telemetry.CycleLogAt` | test/src/test/java/jenkins/telemetry/TelemetryTest.java:66-68 | The cycle logs exactly one event per trial, in registry order. Each event is the skip or success event its gate decision calls for. |
| `Telemetry.SubmittedIff` | test/src/test/java/jenkins/telemetry/TelemetryTest.java:69-71 | A document is submitted if and only if it is the submission of some trial eligible today. |
| `Telemetry.SubmittedCorrelators` | test/src/test/java/jenkins/telemetry/TelemetryTest.java:73 | Every submitted correlator is `sha256Hex(correlationId + type)` and lowercase hex. It is 64 digits long when the digest is 32 bytes. |
| `Telemetry.SkippedNeverSubmitted` | test/src/test/java/jenkins/telemetry/TelemetryTest.java:70-71 | With unique ids, no submission carries the type of a trial that is not eligible. |
| `Telemetry.NotStartedSkipped` | test/src/test/java/jenkins/telemetry/TelemetryTest.java:67 | A trial whose start is after today is logged as "configured to start later" and never submitted. |
| `Telemetry.EndedSkipped` | test/src/test/java/jenkins/telemetry/TelemetryTest.java:68 | A started trial whose end is before today is logged as "configured to end in the past" and never submitted. |
| `Telemetry.ActiveSubmitted` | test/src/test/java/jenkins/telemetry/TelemetryTest.java:66 | An eligible trial is submitted with its correlator and logged as received with `200 OK`. |
| `Telemetry.CycleCorrelatorsDistinct` | test/src/test/java/jenkins/telemetry/TelemetryTest.java:72 | With unique trial ids and no SHA-256 collision among the cycle's inputs, the correlators of one cycle are pairwise distinct. |
| `TelemetryTest.FutureTrial` | test/src/test/java/jenkins/telemetry/TelemetryTest.java:93-124 | Trial `future` starts tomorrow, so its start is after today. |
| `TelemetryTest.PastTrial` | test/src/test/java/jenkins/telemetry/TelemetryTest.java:127-159 | Trial `past` started at `LocalDate.MIN` and ended yesterday. |
| `TelemetryTest.TestDataAlwaysEligible` | test/src/test/java/jenkins/telemetry/TelemetryTest.java:161-193 | Trial `test-data`, with window `MIN..MAX`, is eligible on every date. |
| `TelemetryTest.TelemetryReceiver.constructor` | test/src/test/java/jenkins/telemetry/TelemetryTest.java:208-209 | The receiver starts with no correlators, no types and a zero counter. |
| `TelemetryTest.TelemetryReceiver.Prepare` | test/src/test/java/jenkins/telemetry/TelemetryTest.java:49-53 | The per-test reset empties both sets and zeroes the counter. |
| `TelemetryTest.TelemetryReceiver.DoEvents` | test/src/test/java/jenkins/telemetry/TelemetryTest.java:213-220 | One event adds exactly its correlator and its type to the two sets and adds exactly one to the counter. Nothing else changes. |
| `TelemetryTest.AfterEventsSummary` | test/src/test/java/jenkins/telemetry/TelemetryTest.java:217-219 | A sequence of events adds exactly its correlators and types to the recorded sets and adds its length to the counter. |
| `TelemetryTest.ReceivedFromReset` | test/src/test/java/jenkins/telemetry/TelemetryTest.java:51-53 | After a reset, the receiver holds exactly the events' correlators and types, and their number. |
| `TelemetryTest.DistinctCorrelatorsCount` | test/src/test/java/jenkins/telemetry/TelemetryTest.java:208 | Events with pairwise distinct correlators give a correlator set as large as the number of events. |
| `TelemetryTest.DistinctEventsCounted` | test/src/test/java/jenkins/telemetry/TelemetryTest.java:72 | After a reset, events with pairwise distinct correlators leave `correlators.size() == counter`. |
| `TelemetryTest.CycleReceivedCounts` | test/src/test/java/jenkins/telemetry/TelemetryTest.java:72 | After receiving one cycle's submissions, `correlators.size() == counter`, given unique ids and no SHA-256 collision among the inputs. |
| `TelemetryTest.Deliver` | test/src/test/java/jenkins/telemetry/TelemetryTest.java:213-220 | Delivering submissions in order leaves the receiver in the state `AfterEvents` gives. |
| `TelemetryTest.NoCrumbProcess` | test/src/test/java/jenkins/telemetry/TelemetryTest.java:196-206 | The filter handles a request, and forwards it down the chain, exactly when `pathInfo` is present and starts with `/uplink`. Otherwise it neither handles nor forwards. |
| `TelemetryTest.EventsEndpointExempt` | test/src/test/java/jenkins/telemetry/TelemetryTest.java:55 | The events endpoint `/uplink/events`, built from the receiver's URL name `uplink` (lines 236-238), bypasses the crumb check. |
| `TelemetryTest.OtherPathsNotExempt` | test/src/test/java/jenkins/telemetry/TelemetryTest.java:199-204 | A missing path, a path with `uplink` further in, and `/upload` are not exempt. |
| `TelemetryTest.RunAndReceive` | test/src/test/java/jenkins/telemetry/TelemetryTest.java:62-65 | One run followed by delivery: the log is the cycle's log. The receiver state is the reset state updated by the cycle's submissions. |
| `TelemetryTest.TestDataReceived` | test/src/test/java/jenkins/telemetry/TelemetryTest.java:88-90 | Trial `test-data` is received under its type with correlator `sha256Hex(c + "test-data")`, and its `200 OK` response is logged. |
| `TelemetryTest.DisabledTrialsSkipped` | test/src/test/java/jenkins/telemetry/TelemetryTest.java:67-71 | `future` and `past` are logged with their skip reasons and are never received. |
| `TelemetryTest.ReceivedCorrelatorsHex` | test/src/test/java/jenkins/telemetry/TelemetryTest.java:73 | Every received correlator is a 64-digit lowercase hex string. |
| `TelemetryTest.TestDataLine` | test/src/test/java/jenkins/telemetry/TelemetryTest.java:66 | The delivery event of `test-data` reads `Telemetry submission received response '200 OK' for: test-data`. |
| `TelemetryTest.FutureLine` | test/src/test/java/jenkins/telemetry/TelemetryTest.java:67 | The start-later event of `future` reads `Skipping telemetry for 'future' as it is configured to start later`. |
| `TelemetryTest.PastLine` | test/src/test/java/jenkins/telemetry/TelemetryTest.java:68 | The end-in-the-past event of `past` reads `Skipping telemetry for 'past' as it is configured to end in the past`. |
| `TelemetryTest.TestSubmission` | test/src/test/java/jenkins/telemetry/TelemetryTest.java:58-75 | The whole submission test: the three log events are present, and the captured log holds the three expected lines verbatim; `test-data` is received, `future` and `past` are not; `correlators.size() == counter > 0`; every correlator matches `[0-9a-f]+`. |
| `TelemetryTest.TestPerTrialCorrelator` | test/src/test/java/jenkins/telemetry/TelemetryTest.java:77-91 | After the correlation id is set to the all-zero UUID, `test-data` is received with correlator `sha256Hex(ZERO_UUID + "test-data")`. |

## Left out

- The JUnit and Jenkins test harness (JenkinsRule, LoggerRule, `@TestExtension`, ExtensionList lookups). The registry is a sequence of trials, and the log is a sequence of events.
- HTTP transport, the `ENDPOINT` URL and real response codes. Every delivery answers `200 OK`, so transport failures and their log line are not modelled.
- JSON serialisation and parsing, and `createContent()`. Every test trial returns an empty JSON object, so a submission carries only `type` and `correlator`.
- The SHA-256 algorithm itself, and the UTF-8 encoding of its input. The digest is an arbitrary function-typed parameter.
- `LocalDate.now()`. `today` is a parameter and stays fixed for the whole cycle, whereas the reporter reads the clock per check, so a cycle that crosses midnight is not modelled.
- The random generation of the correlation id. The generated id is a parameter of the `Correlator` constructor.
- The `Thread.sleep` polling loops and asynchronous delivery. Delivery is synchronous and in registry order.
- The `setNoUsageStatistics` opt-out flag. It is a host setting checked outside the reporter.
- TelemetryTest.TelemetryReceiver.DoEvents: `counter` is an unbounded `nat`, so the wrap-around of the Java `int` after 2^31 events is not modelled.
- `getIconFileName` and `getDisplayName` of the receiver return `null`. They carry no behaviour and are not modelled.
