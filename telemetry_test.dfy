/**
 The test's own pieces: the three test trials, the receiver that records
 what it is sent, the CSRF exclusion for the receiver's path, and the two
 test scenarios run against the engine model.
 */
module TelemetryTest {
  import opened Telemetry

  datatype Option<T> = None | Some(value: T)

  // ---------------------------------------------------------------------
  // Test trials
  // ---------------------------------------------------------------------

  /** A trial whose window opens tomorrow (LocalDate.plus throws on the last date). */
  function FutureTrial(today: Day): (t: Trial)
    requires today < MAX_DAY
    ensures t.id == "future" && today < t.start
  {
    Trial("future", "future", today + 1, MAX_DAY)
  }

  /** A trial whose window closed yesterday (LocalDate.minus throws on the first date). */
  function PastTrial(today: Day): (t: Trial)
    requires MIN_DAY < today
    ensures t.id == "past" && t.start <= today && t.end < today
  {
    Trial("past", "past", MIN_DAY, today - 1)
  }

  /** A trial whose window is every date. */
  const TEST_DATA_TRIAL: Trial := Trial("test-data", "test-data", MIN_DAY, MAX_DAY)

  /** The always-open trial is eligible on every date. */
  lemma TestDataAlwaysEligible(today: Day)
    ensures Decide(TEST_DATA_TRIAL, today) == Eligible
  {
  }

  // ---------------------------------------------------------------------
  // The receiver
  // ---------------------------------------------------------------------

  /** What the receiver has recorded. */
  datatype Received = Received(correlators: set<string>, types: set<string>, counter: nat)

  const NOTHING_RECEIVED: Received := Received({}, {}, 0)

  function CorrelatorsOf(subs: seq<Submission>): set<string> {
    set s | s in subs :: s.correlator
  }

  function TypesOf(subs: seq<Submission>): set<string> {
    set s | s in subs :: s.eventType
  }

  /** The recorded state after events `subs`, in order, starting from `r`. */
  function AfterEvents(r: Received, subs: seq<Submission>): Received {
    if subs == [] then r
    else
      var r' := AfterEvents(r, subs[..|subs| - 1]);
      var s := subs[|subs| - 1];
      Received(r'.correlators + {s.correlator}, r'.types + {s.eventType}, r'.counter + 1)
  }

  /** Receiving a sequence of events adds its correlators and types and counts its length. */
  lemma {:induction false} AfterEventsSummary(r: Received, subs: seq<Submission>)
    ensures AfterEvents(r, subs) ==
      Received(r.correlators + CorrelatorsOf(subs), r.types + TypesOf(subs), r.counter + |subs|)
  {
    if subs != [] {
      var init := subs[..|subs| - 1];
      AfterEventsSummary(r, init);
      assert subs == init + [subs[|subs| - 1]];
      assert CorrelatorsOf(subs) == CorrelatorsOf(init) + {subs[|subs| - 1].correlator};
      assert TypesOf(subs) == TypesOf(init) + {subs[|subs| - 1].eventType};
    }
  }

  /** After a reset, the receiver holds exactly the correlators and types of the events, and their number. */
  lemma ReceivedFromReset(subs: seq<Submission>)
    ensures AfterEvents(NOTHING_RECEIVED, subs) == Received(CorrelatorsOf(subs), TypesOf(subs), |subs|)
  {
    AfterEventsSummary(NOTHING_RECEIVED, subs);
    assert {} + CorrelatorsOf(subs) == CorrelatorsOf(subs);
    assert {} + TypesOf(subs) == TypesOf(subs);
  }

  /** Pairwise distinct correlators form a set as large as the sequence. */
  lemma {:induction false} DistinctCorrelatorsCount(subs: seq<Submission>)
    requires DistinctCorrelators(subs)
    ensures |CorrelatorsOf(subs)| == |subs|
  {
    if subs != [] {
      var n := |subs| - 1;
      var init, last := subs[..n], subs[n];
      assert forall k :: 0 <= k < n ==> init[k] == subs[k];
      DistinctCorrelatorsCount(init);
      assert subs == init + [last];
      assert CorrelatorsOf(subs) == CorrelatorsOf(init) + {last.correlator};
      forall s | s in init ensures s.correlator != last.correlator {
        var k :| 0 <= k < n && init[k] == s;
      }
    }
  }

  /** The URL segment the receiver is bound to. */
  const RECEIVER_URL_NAME: string := "uplink"

  /** The test's receiving endpoint; the fields are static in the test class. */
  class TelemetryReceiver {
    var correlators: set<string>
    var types: set<string>
    var counter: nat

    function State(): Received
      reads this
    {
      Received(correlators, types, counter)
    }

    constructor ()
      ensures State() == NOTHING_RECEIVED
    {
      correlators, types, counter := {}, {}, 0;
    }

    /** The per-test reset. */
    method Prepare()
      modifies this
      ensures State() == NOTHING_RECEIVED
    {
      correlators, types, counter := {}, {}, 0;
    }

    /** One received event: its correlator and type are recorded and the counter goes up by one. */
    method DoEvents(body: Submission)
      modifies this
      ensures correlators == old(correlators) + {body.correlator}
      ensures types == old(types) + {body.eventType}
      ensures counter == old(counter) + 1
    {
      correlators := correlators + {body.correlator};
      types := types + {body.eventType};
      counter := counter + 1;
    }
  }

  /** After a reset, events with pairwise distinct correlators leave as many correlators as events. */
  lemma DistinctEventsCounted(subs: seq<Submission>)
    requires DistinctCorrelators(subs)
    ensures |AfterEvents(NOTHING_RECEIVED, subs).correlators| == AfterEvents(NOTHING_RECEIVED, subs).counter
  {
    ReceivedFromReset(subs);
    DistinctCorrelatorsCount(subs);
  }

  /**
   After a reset, receiving the submissions of one cycle leaves as many
   distinct correlators as events, provided the trial ids are unique and the
   digest does not collide on the cycle's inputs.
   */
  lemma CycleReceivedCounts(trials: seq<Trial>, today: Day, c: string, h: Sha256)
    requires DistinctIds(trials)
    requires CollisionFreeOn(h, CorrelatorInputs(c, trials))
    ensures |AfterEvents(NOTHING_RECEIVED, CycleSubmissions(trials, today, c, h)).correlators|
         == AfterEvents(NOTHING_RECEIVED, CycleSubmissions(trials, today, c, h)).counter
  {
    CycleCorrelatorsDistinct(trials, today, c, h);
    DistinctEventsCounted(CycleSubmissions(trials, today, c, h));
  }

  /** Delivers each submission, in order, to the receiver. */
  method Deliver(receiver: TelemetryReceiver, subs: seq<Submission>)
    modifies receiver
    ensures receiver.State() == AfterEvents(old(receiver.State()), subs)
  {
    ghost var start := receiver.State();
    for i := 0 to |subs|
      invariant receiver.State() == AfterEvents(start, subs[..i])
    {
      assert subs[..i + 1][..i] == subs[..i];
      receiver.DoEvents(subs[i]);
    }
    assert subs[..|subs|] == subs;
  }

  // ---------------------------------------------------------------------
  // The CSRF exclusion
  // ---------------------------------------------------------------------

  const UPLINK_PREFIX: string := "/uplink"

  /** What the filter did: whether it handled the request and whether it passed it down the chain. */
  datatype FilterOutcome = FilterOutcome(handled: bool, forwarded: bool)

  /** Requests to the receiver's paths skip the crumb check; all others are left to it. */
  function NoCrumbProcess(pathInfo: Option<string>): (r: FilterOutcome)
    ensures r.handled == r.forwarded
    ensures r.handled <==> pathInfo.Some? && UPLINK_PREFIX <= pathInfo.value
  {
    if pathInfo.Some? && UPLINK_PREFIX <= pathInfo.value then FilterOutcome(true, true)
    else FilterOutcome(false, false)
  }

  /** The events endpoint under the receiver's URL name is exempt from the crumb check. */
  lemma EventsEndpointExempt()
    ensures NoCrumbProcess(Some("/" + RECEIVER_URL_NAME + "/events")).forwarded
  {
    assert UPLINK_PREFIX <= "/" + RECEIVER_URL_NAME + "/events";
  }

  /** A missing path, and a path that merely contains the prefix later on, are not exempt. */
  lemma OtherPathsNotExempt()
    ensures !NoCrumbProcess(None).forwarded
    ensures !NoCrumbProcess(Some("/manage/uplink")).forwarded
    ensures !NoCrumbProcess(Some("/upload")).forwarded
  {
    assert !(UPLINK_PREFIX <= "/manage/uplink") by {
      assert "/manage/uplink"[1] != UPLINK_PREFIX[1];
    }
    assert !(UPLINK_PREFIX <= "/upload") by {
      assert "/upload"[4] != UPLINK_PREFIX[4];
    }
  }

  // ---------------------------------------------------------------------
  // The two test scenarios
  // ---------------------------------------------------------------------

  /** The registry holds the three test trials, possibly among others. */
  predicate HoldsTestTrials(registry: seq<Trial>, today: Day)
    requires MIN_DAY < today < MAX_DAY
  {
    FutureTrial(today) in registry && PastTrial(today) in registry && TEST_DATA_TRIAL in registry
  }

  /**
   One reporter run followed by delivery of every submission to a freshly
   reset receiver; returns the cycle's log and the receiver's final state.
   */
  method RunAndReceive(registry: seq<Trial>, today: Day, correlator: Correlator, h: Sha256)
    returns (log: seq<LogEvent>, received: Received)
    ensures log == CycleLog(registry, today)
    ensures received == AfterEvents(NOTHING_RECEIVED, CycleSubmissions(registry, today, correlator.correlationId, h))
  {
    var receiver := new TelemetryReceiver();
    receiver.Prepare();
    var sent;
    log, sent := RunCycle(registry, today, correlator, h);
    Deliver(receiver, sent);
    received := receiver.State();
  }

  /** The always-open trial is received under its own type with the correlator derived from `c`. */
  lemma TestDataReceived(registry: seq<Trial>, today: Day, c: string, h: Sha256)
    requires TEST_DATA_TRIAL in registry
    ensures "test-data" in AfterEvents(NOTHING_RECEIVED, CycleSubmissions(registry, today, c, h)).types
    ensures CorrelatorHash(h, c, "test-data") in AfterEvents(NOTHING_RECEIVED, CycleSubmissions(registry, today, c, h)).correlators
    ensures ResponseReceived(OK_STATUS, "test-data") in CycleLog(registry, today)
  {
    var subs := CycleSubmissions(registry, today, c, h);
    ReceivedFromReset(subs);
    var k :| 0 <= k < |registry| && registry[k] == TEST_DATA_TRIAL;
    ActiveSubmitted(registry, today, c, h, k);
  }

  /** Neither the future nor the past trial is received, and both are logged as skipped. */
  lemma DisabledTrialsSkipped(registry: seq<Trial>, today: Day, c: string, h: Sha256)
    requires MIN_DAY < today < MAX_DAY
    requires HoldsTestTrials(registry, today) && DistinctIds(registry)
    ensures "future" !in AfterEvents(NOTHING_RECEIVED, CycleSubmissions(registry, today, c, h)).types
    ensures "past" !in AfterEvents(NOTHING_RECEIVED, CycleSubmissions(registry, today, c, h)).types
    ensures StartsLaterSkip("future") in CycleLog(registry, today)
    ensures EndsInPastSkip("past") in CycleLog(registry, today)
  {
    var subs := CycleSubmissions(registry, today, c, h);
    ReceivedFromReset(subs);
    var kFuture :| 0 <= kFuture < |registry| && registry[kFuture] == FutureTrial(today);
    NotStartedSkipped(registry, today, c, h, kFuture);
    var kPast :| 0 <= kPast < |registry| && registry[kPast] == PastTrial(today);
    EndedSkipped(registry, today, c, h, kPast);
  }

  /** Every received correlator is a 64-digit lowercase hex string. */
  lemma ReceivedCorrelatorsHex(registry: seq<Trial>, today: Day, c: string, h: Sha256)
    requires IsSha256(h)
    ensures forall x :: x in AfterEvents(NOTHING_RECEIVED, CycleSubmissions(registry, today, c, h)).correlators ==>
      |x| == 64 && IsLowerHex(x)
  {
    var subs := CycleSubmissions(registry, today, c, h);
    ReceivedFromReset(subs);
    SubmittedCorrelators(registry, today, c, h);
    forall x | x in CorrelatorsOf(subs) ensures |x| == 64 && IsLowerHex(x) {
      var s :| s in subs && x == s.correlator;
    }
  }

  /** The delivery line the submission test looks for, spelled out. */
  lemma TestDataLine()
    ensures Message(ResponseReceived("200 OK", "test-data"))
         == "Telemetry submission received response '200 OK' for: " + "test-data"
  {
    assert "Telemetry submission received response '" + "200 OK" == "Telemetry submission received response '200 OK";
  }

  /** The start-later skip line the submission test looks for, spelled out. */
  lemma FutureLine()
    ensures Message(StartsLaterSkip("future"))
         == "Skipping telemetry for 'future" + "' as it is configured to start later"
  {
    assert "Skipping telemetry for '" + "future" == "Skipping telemetry for 'future";
  }

  /** The end-in-the-past skip line the submission test looks for, spelled out. */
  lemma PastLine()
    ensures Message(EndsInPastSkip("past"))
         == "Skipping telemetry for 'past" + "' as it is configured to end in the past"
  {
    assert "Skipping telemetry for '" + "past" == "Skipping telemetry for 'past";
  }

  /**
   The submission test: the always-open trial is delivered, the future and
   past trials are skipped with their reasons, and after the run there are
   as many distinct correlators, each lowercase hex, as received events.
   */
  method TestSubmission(registry: seq<Trial>, today: Day, generatedId: string, h: Sha256)
    returns (log: seq<LogEvent>, received: Received)
    requires MIN_DAY < today < MAX_DAY
    requires HoldsTestTrials(registry, today) && DistinctIds(registry)
    requires IsSha256(h) && CollisionFreeOn(h, CorrelatorInputs(generatedId, registry))
    ensures ResponseReceived("200 OK", "test-data") in log
    ensures StartsLaterSkip("future") in log
    ensures EndsInPastSkip("past") in log
    ensures "Telemetry submission received response '200 OK' for: " + "test-data" in Messages(log)
    ensures "Skipping telemetry for 'future" + "' as it is configured to start later" in Messages(log)
    ensures "Skipping telemetry for 'past" + "' as it is configured to end in the past" in Messages(log)
    ensures "test-data" in received.types
    ensures "future" !in received.types && "past" !in received.types
    ensures |received.correlators| == received.counter
    ensures received.counter > 0
    ensures forall x :: x in received.correlators ==> x != [] && IsLowerHex(x)
  {
    var correlator := new Correlator(generatedId);
    log, received := RunAndReceive(registry, today, correlator, h);
    TestDataReceived(registry, today, generatedId, h);
    DisabledTrialsSkipped(registry, today, generatedId, h);
    CycleReceivedCounts(registry, today, generatedId, h);
    ReceivedCorrelatorsHex(registry, today, generatedId, h);
    TestDataLine();
    FutureLine();
    PastLine();
  }

  /** The correlation id the per-trial test sets: the all-zero UUID. */
  const ZERO_UUID: string := "00000000-0000-0000-0000-000000000000"

  /**
   The per-trial correlator test: after the correlation id is set to the
   all-zero UUID, the always-open trial is delivered with the digest of that
   id followed by "test-data".
   */
  method TestPerTrialCorrelator(registry: seq<Trial>, today: Day, generatedId: string, h: Sha256)
    returns (received: Received)
    requires TEST_DATA_TRIAL in registry
    ensures "test-data" in received.types
    ensures Hex(h(ZERO_UUID + "test-data")) in received.correlators
  {
    var correlator := new Correlator(generatedId);
    correlator.SetCorrelationId(ZERO_UUID);
    var log;
    log, received := RunAndReceive(registry, today, correlator, h);
    TestDataReceived(registry, today, ZERO_UUID, h);
  }
}
