/**
 The telemetry engine as its test drives it: trials with an active date
 window, the gate that decides whether a trial is eligible today, the
 per-trial correlator derived from the installation's correlation id, and
 one reporter cycle that logs one line per trial and builds one submission
 per eligible trial.
 */
module Telemetry {

  // ---------------------------------------------------------------------
  // Dates
  // ---------------------------------------------------------------------

  /** Epoch-day numbers of java.time.LocalDate.MIN and LocalDate.MAX. */
  const MIN_DAY: int := -365243219162
  const MAX_DAY: int := 365241780471

  /** A calendar date, as its epoch-day number. */
  type Day = d: int | MIN_DAY <= d <= MAX_DAY witness 0

  // ---------------------------------------------------------------------
  // Trials and the gate
  // ---------------------------------------------------------------------

  /** A telemetry trial: its id, display name and inclusive active window. */
  datatype Trial = Trial(id: string, displayName: string, start: Day, end: Day)

  /** Reference definition of eligibility: today lies inside the window. */
  predicate Active(t: Trial, today: Day) {
    t.start <= today <= t.end
  }

  /** What the reporter decides for one trial. */
  datatype Decision = StartsLater | EndsInPast | Eligible

  /**
   The reporter's two checks, in its order: a window that starts after today
   is skipped first, then a window that ends before today.
   */
  function Decide(t: Trial, today: Day): (d: Decision)
    ensures d == Eligible <==> Active(t, today)
    ensures d == StartsLater <==> today < t.start
    ensures d == EndsInPast <==> t.start <= today && t.end < today
  {
    if t.start > today then StartsLater
    else if t.end < today then EndsInPast
    else Eligible
  }

  // ---------------------------------------------------------------------
  // Correlator
  // ---------------------------------------------------------------------

  newtype byte = b: int | 0 <= b < 256

  /**
   The SHA-256 digest of a string's bytes. The digest itself is not
   modelled: any function stands for it, and lemmas that need the digest's
   length say so with IsSha256.
   */
  type Sha256 = string -> seq<byte>

  /** Every digest is 32 bytes long. */
  ghost predicate IsSha256(h: Sha256) {
    forall s :: |h(s)| == 32
  }

  /** A digest has no collision among the given inputs. */
  ghost predicate CollisionFreeOn(h: Sha256, inputs: set<string>) {
    forall a, b :: a in inputs && b in inputs && h(a) == h(b) ==> a == b
  }

  predicate IsLowerHexDigit(ch: char) {
    '0' <= ch <= '9' || 'a' <= ch <= 'f'
  }

  predicate IsLowerHex(s: string) {
    forall i :: 0 <= i < |s| ==> IsLowerHexDigit(s[i])
  }

  /** The lowercase hexadecimal digit of a nibble. */
  function HexDigit(n: int): (ch: char)
    requires 0 <= n < 16
    ensures IsLowerHexDigit(ch)
  {
    if n < 10 then (48 + n) as char else (87 + n) as char
  }

  lemma HexDigitInjective(m: int, n: int)
    requires 0 <= m < 16 && 0 <= n < 16
    requires HexDigit(m) == HexDigit(n)
    ensures m == n
  {
  }

  /** Lowercase hexadecimal encoding, two digits per byte, high nibble first. */
  function Hex(bytes: seq<byte>): (r: string)
    ensures |r| == 2 * |bytes|
    ensures IsLowerHex(r)
  {
    if bytes == [] then []
    else [HexDigit(bytes[0] as int / 16), HexDigit(bytes[0] as int % 16)] + Hex(bytes[1..])
  }

  /** Different byte strings have different encodings. */
  lemma {:induction false} HexInjective(a: seq<byte>, b: seq<byte>)
    requires Hex(a) == Hex(b)
    ensures a == b
  {
    if a != [] {
      assert |b| == |a|;
      var x, y := a[0] as int, b[0] as int;
      assert Hex(a)[0] == Hex(b)[0] && Hex(a)[1] == Hex(b)[1];
      HexDigitInjective(x / 16, y / 16);
      HexDigitInjective(x % 16, y % 16);
      assert x == 16 * (x / 16) + x % 16 && y == 16 * (y / 16) + y % 16;
      assert Hex(a)[2..] == Hex(a[1..]) && Hex(b)[2..] == Hex(b[1..]);
      HexInjective(a[1..], b[1..]);
      assert a == [a[0]] + a[1..] && b == [b[0]] + b[1..];
    }
  }

  /** Holder of the installation's correlation id. */
  class Correlator {
    var correlationId: string

    /** `generated` stands for the random token created at start-up. */
    constructor (generated: string)
      ensures correlationId == generated
    {
      correlationId := generated;
    }

    /** Overrides the correlation id (used by tests for determinism). */
    method SetCorrelationId(id: string)
      modifies this
      ensures correlationId == id
    {
      correlationId := id;
    }
  }

  /** The correlator sent for a trial: the hex digest of correlation id followed by trial id. */
  function CorrelatorHash(h: Sha256, correlationId: string, trialId: string): (r: string)
    ensures IsLowerHex(r)
    ensures |r| == 2 * |h(correlationId + trialId)|
  {
    Hex(h(correlationId + trialId))
  }

  lemma PrefixCancel(c: string, a: string, b: string)
    requires c + a == c + b
    ensures a == b
  {
    assert a == (c + a)[|c|..];
    assert b == (c + b)[|c|..];
  }

  lemma SuffixCancel(c1: string, c2: string, a: string)
    requires c1 + a == c2 + a
    ensures c1 == c2
  {
    assert c1 == (c1 + a)[..|c1|];
    assert c2 == (c2 + a)[..|c2|];
  }

  /**
   Two trials with different ids get different correlators from the same
   installation, unless the digest collides on their inputs.
   */
  lemma DistinctTrialsDistinctCorrelators(h: Sha256, c: string, a: string, b: string)
    requires a != b
    requires CollisionFreeOn(h, {c + a, c + b})
    ensures CorrelatorHash(h, c, a) != CorrelatorHash(h, c, b)
  {
    if CorrelatorHash(h, c, a) == CorrelatorHash(h, c, b) {
      HexInjective(h(c + a), h(c + b));
      PrefixCancel(c, a, b);
    }
  }

  /**
   Resetting the correlation id to a different value changes the correlator
   of a trial, unless the digest collides on the two inputs.
   */
  lemma ReseedChangesCorrelator(h: Sha256, c1: string, c2: string, id: string)
    requires c1 != c2
    requires CollisionFreeOn(h, {c1 + id, c2 + id})
    ensures CorrelatorHash(h, c1, id) != CorrelatorHash(h, c2, id)
  {
    if CorrelatorHash(h, c1, id) == CorrelatorHash(h, c2, id) {
      HexInjective(h(c1 + id), h(c2 + id));
      SuffixCancel(c1, c2, id);
    }
  }

  // ---------------------------------------------------------------------
  // Submissions and log lines
  // ---------------------------------------------------------------------

  /** The submitted document: JSON keys "type" and "correlator". */
  datatype Submission = Submission(eventType: string, correlator: string)

  function SubmissionFor(t: Trial, correlationId: string, h: Sha256): Submission {
    Submission(t.id, CorrelatorHash(h, correlationId, t.id))
  }

  /** The status line of every delivery. */
  const OK_STATUS: string := "200 OK"

  /** One structured log record of the reporter. */
  datatype LogEvent =
    | StartsLaterSkip(trialId: string)
    | EndsInPastSkip(trialId: string)
    | ResponseReceived(status: string, trialId: string)

  const SKIP_LEAD: string := "Skipping telemetry for '"
  const RESPONSE_LEAD: string := "Telemetry submission received response '"

  /**
   The text the reporter logs for an event. A reader of the log can tell a
   skip from a delivery by how the line begins.
   */
  function Message(e: LogEvent): (text: string)
    ensures e.ResponseReceived? <==> RESPONSE_LEAD <= text
    ensures !e.ResponseReceived? <==> SKIP_LEAD <= text
  {
    match e
    case StartsLaterSkip(id) =>
      LeadsLine("Skipping telemetry for '", id, "' as it is configured to start later");
      "Skipping telemetry for '" + id + "' as it is configured to start later"
    case EndsInPastSkip(id) =>
      LeadsLine("Skipping telemetry for '", id, "' as it is configured to end in the past");
      "Skipping telemetry for '" + id + "' as it is configured to end in the past"
    case ResponseReceived(status, id) =>
      LeadsLine("Telemetry submission received response '", status, "' for: " + id);
      "Telemetry submission received response '" + status + "' for: " + id
  }

  /** A line opens with its lead. */
  lemma LeadsLine(lead: string, a: string, b: string)
    ensures lead <= lead + a + b
    ensures |lead| > 0 ==> (lead + a + b)[0] == lead[0]
  {
    assert (lead + a + b)[..|lead|] == lead;
  }

  /** The lines of a log, in order. */
  function Messages(log: seq<LogEvent>): (lines: seq<string>)
    ensures |lines| == |log|
    ensures forall e :: e in log ==> Message(e) in lines
  {
    if log == [] then [] else Messages(log[..|log| - 1]) + [Message(log[|log| - 1])]
  }

  /** The log event the reporter records for one trial. */
  function EventFor(t: Trial, today: Day): LogEvent {
    match Decide(t, today)
    case StartsLater => StartsLaterSkip(t.id)
    case EndsInPast => EndsInPastSkip(t.id)
    case Eligible => ResponseReceived(OK_STATUS, t.id)
  }

  // ---------------------------------------------------------------------
  // One reporter cycle
  // ---------------------------------------------------------------------

  /** The log of a cycle over `trials`, in registry order. */
  function CycleLog(trials: seq<Trial>, today: Day): seq<LogEvent> {
    if trials == [] then []
    else CycleLog(trials[..|trials| - 1], today) + [EventFor(trials[|trials| - 1], today)]
  }

  /** The submissions of a cycle over `trials`, in registry order. */
  function CycleSubmissions(trials: seq<Trial>, today: Day, correlationId: string, h: Sha256): seq<Submission> {
    if trials == [] then []
    else
      var last := trials[|trials| - 1];
      CycleSubmissions(trials[..|trials| - 1], today, correlationId, h)
        + (if Active(last, today) then [SubmissionFor(last, correlationId, h)] else [])
  }

  /**
   One run of the reporter: every registered trial is gated against `today`;
   a skipped trial gets a skip line, an eligible one is submitted with its
   correlator and gets a success line. No trial stops the others.
   */
  method RunCycle(trials: seq<Trial>, today: Day, correlator: Correlator, h: Sha256)
    returns (log: seq<LogEvent>, sent: seq<Submission>)
    ensures log == CycleLog(trials, today)
    ensures sent == CycleSubmissions(trials, today, correlator.correlationId, h)
  {
    log, sent := [], [];
    for i := 0 to |trials|
      invariant log == CycleLog(trials[..i], today)
      invariant sent == CycleSubmissions(trials[..i], today, correlator.correlationId, h)
    {
      var t := trials[i];
      assert trials[..i + 1][..i] == trials[..i];
      if t.start > today {
        log := log + [StartsLaterSkip(t.id)];
      } else if t.end < today {
        log := log + [EndsInPastSkip(t.id)];
      } else {
        var hash := CorrelatorHash(h, correlator.correlationId, t.id);
        sent := sent + [Submission(t.id, hash)];
        log := log + [ResponseReceived(OK_STATUS, t.id)];
      }
    }
    assert trials[..|trials|] == trials;
  }

  // ---------------------------------------------------------------------
  // Properties of a cycle
  // ---------------------------------------------------------------------

  predicate DistinctIds(trials: seq<Trial>) {
    forall i, j :: 0 <= i < j < |trials| ==> trials[i].id != trials[j].id
  }

  /** The digest inputs of a cycle: correlation id followed by each trial id. */
  function CorrelatorInputs(correlationId: string, trials: seq<Trial>): set<string> {
    set t | t in trials :: correlationId + t.id
  }

  predicate DistinctCorrelators(subs: seq<Submission>) {
    forall i, j :: 0 <= i < j < |subs| ==> subs[i].correlator != subs[j].correlator
  }

  /** The cycle writes exactly one log line per trial, in registry order. */
  lemma {:induction false} CycleLogAt(trials: seq<Trial>, today: Day)
    ensures |CycleLog(trials, today)| == |trials|
    ensures forall k :: 0 <= k < |trials| ==> CycleLog(trials, today)[k] == EventFor(trials[k], today)
  {
    if trials != [] {
      var n := |trials| - 1;
      var init := trials[..n];
      CycleLogAt(init, today);
      var log := CycleLog(trials, today);
      assert log == CycleLog(init, today) + [EventFor(trials[n], today)];
      forall k | 0 <= k < |trials| ensures log[k] == EventFor(trials[k], today) {
        if k < n {
          assert init[k] == trials[k];
        }
      }
    }
  }

  /** A submission is sent exactly when it is the submission of an eligible trial. */
  lemma {:induction false} SubmittedIff(trials: seq<Trial>, today: Day, c: string, h: Sha256, s: Submission)
    ensures s in CycleSubmissions(trials, today, c, h) <==>
            exists k :: 0 <= k < |trials| && Active(trials[k], today) && s == SubmissionFor(trials[k], c, h)
  {
    if trials != [] {
      var init := trials[..|trials| - 1];
      SubmittedIff(init, today, c, h, s);
      assert forall k :: 0 <= k < |init| ==> init[k] == trials[k];
      if s in CycleSubmissions(trials, today, c, h) && s !in CycleSubmissions(init, today, c, h) {
        assert Active(trials[|trials| - 1], today) && s == SubmissionFor(trials[|trials| - 1], c, h);
      }
    }
  }

  /**
   Every correlator sent is the hex digest of the correlation id and the
   trial id it is sent for: lowercase hex, 64 digits long for SHA-256.
   */
  lemma SubmittedCorrelators(trials: seq<Trial>, today: Day, c: string, h: Sha256)
    ensures forall s :: s in CycleSubmissions(trials, today, c, h) ==>
      && s.correlator == CorrelatorHash(h, c, s.eventType)
      && IsLowerHex(s.correlator)
      && (IsSha256(h) ==> |s.correlator| == 64)
  {
    forall s | s in CycleSubmissions(trials, today, c, h)
      ensures s.correlator == CorrelatorHash(h, c, s.eventType)
    {
      SubmittedIff(trials, today, c, h, s);
    }
  }

  /** A trial that is not eligible today is never submitted (ids are unique). */
  lemma SkippedNeverSubmitted(trials: seq<Trial>, today: Day, c: string, h: Sha256, k: nat)
    requires DistinctIds(trials)
    requires k < |trials| && !Active(trials[k], today)
    ensures forall s :: s in CycleSubmissions(trials, today, c, h) ==> s.eventType != trials[k].id
  {
    forall s | s in CycleSubmissions(trials, today, c, h)
      ensures s.eventType != trials[k].id
    {
      SubmittedIff(trials, today, c, h, s);
    }
  }

  /** A trial whose window starts after today is logged as starting later and never submitted. */
  lemma NotStartedSkipped(trials: seq<Trial>, today: Day, c: string, h: Sha256, k: nat)
    requires DistinctIds(trials)
    requires k < |trials| && today < trials[k].start
    ensures StartsLaterSkip(trials[k].id) in CycleLog(trials, today)
    ensures forall s :: s in CycleSubmissions(trials, today, c, h) ==> s.eventType != trials[k].id
  {
    CycleLogAt(trials, today);
    assert CycleLog(trials, today)[k] == StartsLaterSkip(trials[k].id);
    SkippedNeverSubmitted(trials, today, c, h, k);
  }

  /**
   A trial that has started but whose window ends before today is logged as
   ending in the past and never submitted.
   */
  lemma EndedSkipped(trials: seq<Trial>, today: Day, c: string, h: Sha256, k: nat)
    requires DistinctIds(trials)
    requires k < |trials| && trials[k].start <= today && trials[k].end < today
    ensures EndsInPastSkip(trials[k].id) in CycleLog(trials, today)
    ensures forall s :: s in CycleSubmissions(trials, today, c, h) ==> s.eventType != trials[k].id
  {
    CycleLogAt(trials, today);
    assert CycleLog(trials, today)[k] == EndsInPastSkip(trials[k].id);
    SkippedNeverSubmitted(trials, today, c, h, k);
  }

  /** An eligible trial is submitted with its correlator and logged as delivered. */
  lemma ActiveSubmitted(trials: seq<Trial>, today: Day, c: string, h: Sha256, k: nat)
    requires k < |trials| && Active(trials[k], today)
    ensures SubmissionFor(trials[k], c, h) in CycleSubmissions(trials, today, c, h)
    ensures ResponseReceived(OK_STATUS, trials[k].id) in CycleLog(trials, today)
  {
    SubmittedIff(trials, today, c, h, SubmissionFor(trials[k], c, h));
    CycleLogAt(trials, today);
    assert CycleLog(trials, today)[k] == ResponseReceived(OK_STATUS, trials[k].id);
  }

  lemma CollisionFreeSubset(h: Sha256, small: set<string>, large: set<string>)
    requires small <= large && CollisionFreeOn(h, large)
    ensures CollisionFreeOn(h, small)
  {
  }

  /**
   A trial whose id differs from every id of `init` gets a correlator that no
   submission of a cycle over `init` carries.
   */
  lemma FreshCorrelator(init: seq<Trial>, today: Day, c: string, h: Sha256, last: Trial)
    requires forall k :: 0 <= k < |init| ==> init[k].id != last.id
    requires CollisionFreeOn(h, CorrelatorInputs(c, init + [last]))
    ensures forall s :: s in CycleSubmissions(init, today, c, h) ==> s.correlator != CorrelatorHash(h, c, last.id)
  {
    forall s | s in CycleSubmissions(init, today, c, h)
      ensures s.correlator != CorrelatorHash(h, c, last.id)
    {
      SubmittedIff(init, today, c, h, s);
      var k :| 0 <= k < |init| && Active(init[k], today) && s == SubmissionFor(init[k], c, h);
      var all := CorrelatorInputs(c, init + [last]);
      assert init[k] in init + [last] && last in init + [last];
      assert c + init[k].id in all && c + last.id in all;
      if s.correlator == CorrelatorHash(h, c, last.id) {
        HexInjective(h(c + init[k].id), h(c + last.id));
        PrefixCancel(c, init[k].id, last.id);
      }
    }
  }

  /**
   With unique trial ids and no digest collision among the cycle's inputs,
   the correlators of one cycle are pairwise distinct.
   */
  lemma {:induction false} CycleCorrelatorsDistinct(trials: seq<Trial>, today: Day, c: string, h: Sha256)
    requires DistinctIds(trials)
    requires CollisionFreeOn(h, CorrelatorInputs(c, trials))
    ensures DistinctCorrelators(CycleSubmissions(trials, today, c, h))
  {
    if trials != [] {
      var n := |trials| - 1;
      var init, last := trials[..n], trials[n];
      assert trials == init + [last];
      assert CorrelatorInputs(c, init) <= CorrelatorInputs(c, trials) by {
        forall x | x in CorrelatorInputs(c, init) ensures x in CorrelatorInputs(c, trials) {
          var t :| t in init && x == c + t.id;
          assert t in trials;
        }
      }
      CollisionFreeSubset(h, CorrelatorInputs(c, init), CorrelatorInputs(c, trials));
      assert DistinctIds(init) by {
        assert forall k :: 0 <= k < n ==> init[k] == trials[k];
      }
      CycleCorrelatorsDistinct(init, today, c, h);
      assert forall k :: 0 <= k < n ==> init[k].id != last.id by {
        forall k | 0 <= k < n ensures init[k].id != last.id {
          assert init[k] == trials[k];
        }
      }
      FreshCorrelator(init, today, c, h, last);
      var prev := CycleSubmissions(init, today, c, h);
      if Active(last, today) {
        var s := SubmissionFor(last, c, h);
        assert CycleSubmissions(trials, today, c, h) == prev + [s];
        forall j | 0 <= j < |prev| ensures prev[j].correlator != s.correlator {
          assert prev[j] in prev;
        }
      } else {
        assert CycleSubmissions(trials, today, c, h) == prev;
      }
    }
  }
}
