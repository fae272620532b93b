/** Vocabulary shared by the controller (src/backend/logic.py) and its
    older dict-based variant (src/utils/gui_utils.py): how scans are
    classified, what a task run leaves behind (status lines, PLC signals,
    remote calls), and the bounded retry policy of the component upload. */
module Scanning {
  import opened Text

  datatype Option<T> = None | Some(value: T)

  /** Python truthiness of an optional string: None and "" are false. */
  predicate Truthy(o: Option<string>) {
    o.Some? && o.value != ""
  }

  /** How an f-string renders an optional unit serial number. */
  function Show(o: Option<string>): string {
    match o
    case None => "None"
    case Some(v) => v
  }

  /** Unit serial numbers (USNs) carry this prefix; every other scan is a
      component. */
  const UnitPrefix: string := "WTR"

  predicate IsUnitScan(scan: string) {
    StartsWith(scan, UnitPrefix)
  }

  /** Marker of the one upload error that is retried. */
  const UniqueConstraint: string := "unique constraint"

  /** The colour a status line is shown in: none, green, orange, red.
      Info and Success go to the response pane, Warning and Error to the
      error pane. */
  datatype Severity = Info | Success | Warning | Error

  /** A call into the remote system of record, with the unit it names
      (the unit may be None when the controller's state says so). */
  datatype Call =
    | CheckRouteCall(serial: string)
    | UploadCall(unit: Option<string>, component: string)
    | ValidateHddCall(unit: Option<string>)
    | CompleteCall(unit: Option<string>)

  /** What one task leaves behind, in order: a status line for the
      operator, a pass/fail signal to the PLC, or a remote call. */
  datatype Event =
    | Status(severity: Severity, text: string)
    | Signal(ok: bool)
    | Remote(call: Call)

  datatype EventClass = FailSignal | AnyCall | Upload | Completion

  predicate InClass(e: Event, c: EventClass) {
    match c
    case FailSignal => e == Signal(false)
    case AnyCall => e.Remote?
    case Upload => e.Remote? && e.call.UploadCall?
    case Completion => e.Remote? && e.call.CompleteCall?
  }

  /** Number of events of class c in a log. */
  function Count(log: seq<Event>, c: EventClass): nat
    decreases |log|
  {
    if log == [] then 0
    else Count(log[..|log| - 1], c) + (if InClass(log[|log| - 1], c) then 1 else 0)
  }

  lemma {:induction false} CountAppend(a: seq<Event>, b: seq<Event>, c: EventClass)
    ensures Count(a + b, c) == Count(a, c) + Count(b, c)
    decreases |b|
  {
    if b != [] {
      var b' := b[..|b| - 1];
      assert (a + b)[..|a + b| - 1] == a + b';
      CountAppend(a, b', c);
    } else {
      assert a + b == a;
    }
  }

  lemma CountSingle(e: Event, c: EventClass)
    ensures Count([e], c) == if InClass(e, c) then 1 else 0
  {
    assert [e][..0] == [];
  }

  /** Status texts both variants of the workflow show. */
  const SameUnitText: string := "The current USN is the same as the scanned before."
  const NoUnitText: string := "Please scan a valid L10."
  const SecondUnitText: string := "Please scan a valid Serial or Validator"

  function CheckRouteFailedText(serial: string, reply: string): string {
    "Check Route Failed for " + serial + ": " + reply
  }

  function UnitShownText(serial: string): string {
    "USN: " + serial
  }

  function CompleteFailedText(usn: Option<string>, reply: string): string {
    "Complete Failed for " + Show(usn) + ": " + reply
  }

  function CompleteResponseText(usn: Option<string>, reply: string): string {
    "Complete Response for " + Show(usn) + ": " + reply
  }

  /** A reply that leads to another upload attempt. */
  predicate Retryable(reply: string) {
    reply != "OK" && Contains(reply, UniqueConstraint)
  }

  /** A reply that ends the loop as a failure at once. */
  predicate Terminal(reply: string) {
    reply != "OK" && !Contains(reply, UniqueConstraint)
  }

  /** The outcome of the upload loop: how many attempts were made, whether
      one returned "OK", and the reply of the last attempt. */
  datatype RetryRun = RetryRun(attempts: nat, succeeded: bool, last: string)

  /** The rest of the retry loop from attempt i (counted from 0) on: the
      attempt stops the loop if its reply is not retryable or it is the
      last one allowed, otherwise the next attempt follows. */
  function RetryFrom(replies: seq<string>, maxRetries: nat, i: nat): (run: RetryRun)
    requires i < maxRetries <= |replies|
    ensures i + 1 <= run.attempts <= maxRetries
    ensures forall k :: i <= k < run.attempts - 1 ==> Retryable(replies[k])
    ensures run.last == replies[run.attempts - 1]
    ensures run.attempts < maxRetries ==> !Retryable(run.last)
    ensures run.succeeded <==> run.last == "OK"
    decreases maxRetries - i
  {
    if i == maxRetries - 1 || !Retryable(replies[i]) then RetryRun(i + 1, replies[i] == "OK", replies[i])
    else RetryFrom(replies, maxRetries, i + 1)
  }

  /** The retry policy over the replies the upload call would give, one per
      attempt: stop at the first reply that is not a "unique constraint"
      error, or after maxRetries attempts. */
  function RetryPolicy(replies: seq<string>, maxRetries: nat): (run: RetryRun)
    requires 1 <= maxRetries <= |replies|
    ensures 1 <= run.attempts <= maxRetries
    ensures forall i :: 0 <= i < run.attempts - 1 ==> Retryable(replies[i])
    ensures run.last == replies[run.attempts - 1]
    ensures run.attempts < maxRetries ==> !Retryable(run.last)
    ensures run.succeeded <==> run.last == "OK"
  {
    RetryFrom(replies, maxRetries, 0)
  }

  /** The run is determined by the replies: it stops at the first reply
      that is not retryable, or after maxRetries attempts if there is none. */
  lemma RetryPolicyStopsAt(replies: seq<string>, maxRetries: nat, k: nat)
    requires 1 <= k <= maxRetries <= |replies|
    requires forall i :: 0 <= i < k - 1 ==> Retryable(replies[i])
    requires k < maxRetries ==> !Retryable(replies[k - 1])
    ensures RetryPolicy(replies, maxRetries) == RetryRun(k, replies[k - 1] == "OK", replies[k - 1])
  {
  }

  function UploadFailedText(serial: string, reply: string): string {
    "Upload Failed for " + serial + ": " + reply
  }

  function UploadResponseText(serial: string, reply: string): string {
    "Upload Response for " + serial + ": " + reply
  }

  function RetryingText(serial: string, attempt: nat): string {
    "Retrying for " + serial + " due to unique constraint error. Attempt " + NatToString(attempt + 1)
  }

  function FinalFailureText(serial: string, maxRetries: nat, last: string): string {
    "Upload Failed after " + NatToString(maxRetries) + " retries for " + serial + ": " + last
  }

  /** What attempt number `attempt` (counted from 0) leaves behind. The
      legacy variant never signals the PLC (withSignals false). */
  function AttemptEvents(usn: Option<string>, serial: string, reply: string, attempt: nat,
                         withSignals: bool): seq<Event>
  {
    [Remote(UploadCall(usn, serial))] +
    if reply == "OK" then
      [Status(Success, UploadResponseText(serial, reply))]
    else if Contains(reply, UniqueConstraint) then
      [Status(Error, UploadFailedText(serial, reply)), Status(Warning, RetryingText(serial, attempt))]
    else
      [Status(Error, UploadFailedText(serial, reply))] + if withSignals then [Signal(false)] else []
  }

  lemma AttemptEventsCounts(usn: Option<string>, serial: string, reply: string, attempt: nat,
                            withSignals: bool)
    ensures var log := AttemptEvents(usn, serial, reply, attempt, withSignals);
      && Count(log, Upload) == 1 && Count(log, AnyCall) == 1 && Count(log, Completion) == 0
      && Count(log, FailSignal) == if withSignals && Terminal(reply) then 1 else 0
  {
    var log := AttemptEvents(usn, serial, reply, attempt, withSignals);
    var rest := log[1..];
    assert log == [log[0]] + rest;
    forall c: EventClass
      ensures Count(log, c) == Count([log[0]], c) + Count(rest, c)
    {
      CountAppend([log[0]], rest, c);
    }
    CountSingle(log[0], Upload);
    CountSingle(log[0], AnyCall);
    CountSingle(log[0], Completion);
    CountSingle(log[0], FailSignal);
    if |rest| == 2 {
      assert rest == [rest[0]] + [rest[1]];
      forall c: EventClass
        ensures Count(rest, c) == Count([rest[0]], c) + Count([rest[1]], c)
      {
        CountAppend([rest[0]], [rest[1]], c);
      }
      CountSingle(rest[0], Upload);
      CountSingle(rest[0], AnyCall);
      CountSingle(rest[0], Completion);
      CountSingle(rest[0], FailSignal);
      CountSingle(rest[1], Upload);
      CountSingle(rest[1], AnyCall);
      CountSingle(rest[1], Completion);
      CountSingle(rest[1], FailSignal);
    } else {
      assert |rest| == 1;
      CountSingle(rest[0], Upload);
      CountSingle(rest[0], AnyCall);
      CountSingle(rest[0], Completion);
      CountSingle(rest[0], FailSignal);
    }
  }

  /** What the loop leaves behind after the attempts whose replies are rs. */
  function AttemptsLog(usn: Option<string>, serial: string, rs: seq<string>,
                       withSignals: bool): (log: seq<Event>)
    ensures Count(log, Upload) == |rs| && Count(log, AnyCall) == |rs|
    ensures Count(log, Completion) == 0
    decreases |rs|
  {
    if rs == [] then []
    else
      var earlier := AttemptsLog(usn, serial, rs[..|rs| - 1], withSignals);
      var current := AttemptEvents(usn, serial, rs[|rs| - 1], |rs| - 1, withSignals);
      CountAppend(earlier, current, Upload);
      CountAppend(earlier, current, AnyCall);
      CountAppend(earlier, current, Completion);
      AttemptEventsCounts(usn, serial, rs[|rs| - 1], |rs| - 1, withSignals);
      earlier + current
  }

  /** One more attempt adds its own events at the end of the log, after
      whatever the log held before the loop. */
  lemma AttemptsLogExtend(before: seq<Event>, usn: Option<string>, serial: string,
                          replies: seq<string>, i: nat, withSignals: bool)
    requires i < |replies|
    ensures before + AttemptsLog(usn, serial, replies[..i + 1], withSignals)
            == before + AttemptsLog(usn, serial, replies[..i], withSignals)
               + AttemptEvents(usn, serial, replies[i], i, withSignals)
  {
    assert replies[..i + 1][..i] == replies[..i];
  }

  /** Only a terminal reply signals failure inside the loop, and the loop
      ends at the first one. */
  lemma {:induction false} AttemptsLogFailSignals(usn: Option<string>, serial: string,
                                                  rs: seq<string>, withSignals: bool)
    requires rs != []
    requires forall i :: 0 <= i < |rs| - 1 ==> Retryable(rs[i])
    ensures Count(AttemptsLog(usn, serial, rs, withSignals), FailSignal)
            == if withSignals && Terminal(rs[|rs| - 1]) then 1 else 0
    decreases |rs|
  {
    var earlier := rs[..|rs| - 1];
    var current := AttemptEvents(usn, serial, rs[|rs| - 1], |rs| - 1, withSignals);
    CountAppend(AttemptsLog(usn, serial, earlier, withSignals), current, FailSignal);
    AttemptEventsCounts(usn, serial, rs[|rs| - 1], |rs| - 1, withSignals);
    if earlier != [] {
      AttemptsLogFailSignals(usn, serial, earlier, withSignals);
      assert Retryable(earlier[|earlier| - 1]);
    }
  }

  /** The events of the final "after N retries" report. */
  function FinalFailure(serial: string, maxRetries: nat, last: string, withSignals: bool): seq<Event> {
    [Status(Error, FinalFailureText(serial, maxRetries, last))] + if withSignals then [Signal(false)] else []
  }

  lemma FinalFailureCounts(serial: string, maxRetries: nat, last: string, withSignals: bool)
    ensures var log := FinalFailure(serial, maxRetries, last, withSignals);
      && Count(log, Upload) == 0 && Count(log, AnyCall) == 0 && Count(log, Completion) == 0
      && Count(log, FailSignal) == if withSignals then 1 else 0
  {
    var log := FinalFailure(serial, maxRetries, last, withSignals);
    var status := [log[0]];
    CountSingle(log[0], Upload);
    CountSingle(log[0], AnyCall);
    CountSingle(log[0], Completion);
    CountSingle(log[0], FailSignal);
    if withSignals {
      assert log == status + [Signal(false)];
      forall c: EventClass
        ensures Count(log, c) == Count(status, c) + Count([Signal(false)], c)
      {
        CountAppend(status, [Signal(false)], c);
      }
      CountSingle(Signal(false), Upload);
      CountSingle(Signal(false), AnyCall);
      CountSingle(Signal(false), Completion);
      CountSingle(Signal(false), FailSignal);
    } else {
      assert log == status;
    }
  }

  /** The replies the policy used, all retryable but the last. */
  lemma RetriedBeforeLast(replies: seq<string>, maxRetries: nat)
    requires 1 <= maxRetries <= |replies|
    ensures var rs := replies[..RetryPolicy(replies, maxRetries).attempts];
      rs != [] && forall i :: 0 <= i < |rs| - 1 ==> Retryable(rs[i])
  {
    var rs := replies[..RetryPolicy(replies, maxRetries).attempts];
    forall i | 0 <= i < |rs| - 1
      ensures Retryable(rs[i])
    {
      assert rs[i] == replies[i];
    }
  }

  /** Everything the upload loop and the report after it leave behind.
      The report is due when no attempt succeeded and the last attempt
      used was the final one, whatever its reply was. */
  function UploadLog(usn: Option<string>, serial: string, replies: seq<string>, maxRetries: nat,
                     withSignals: bool): (log: seq<Event>)
    requires 1 <= maxRetries <= |replies|
    ensures var run := RetryPolicy(replies, maxRetries);
      && Count(log, Upload) == run.attempts
      && Count(log, AnyCall) == run.attempts
      && Count(log, Completion) == 0
      && Count(log, FailSignal)
         == if !withSignals || run.succeeded then 0
            else if run.attempts == maxRetries && Terminal(run.last) then 2
            else 1
  {
    var run := RetryPolicy(replies, maxRetries);
    var attempts := AttemptsLog(usn, serial, replies[..run.attempts], withSignals);
    var report := if !run.succeeded && run.attempts == maxRetries
                  then FinalFailure(serial, maxRetries, run.last, withSignals) else [];
    RetriedBeforeLast(replies, maxRetries);
    AttemptsLogFailSignals(usn, serial, replies[..run.attempts], withSignals);
    CountAppend(attempts, report, Upload);
    CountAppend(attempts, report, AnyCall);
    CountAppend(attempts, report, Completion);
    CountAppend(attempts, report, FailSignal);
    FinalFailureCounts(serial, maxRetries, run.last, withSignals);
    attempts + report
  }

  /** When every attempt meets a "unique constraint" error the loop uses
      all maxRetries attempts, fails, and ends with the "after N retries"
      report quoting the last reply. */
  lemma ExhaustedRetriesReported(usn: Option<string>, serial: string, replies: seq<string>,
                                 maxRetries: nat, withSignals: bool)
    requires 1 <= maxRetries <= |replies|
    requires forall i :: 0 <= i < maxRetries ==> Retryable(replies[i])
    ensures var run := RetryPolicy(replies, maxRetries);
      && run.attempts == maxRetries && !run.succeeded
      && UploadLog(usn, serial, replies, maxRetries, withSignals)
         == AttemptsLog(usn, serial, replies[..maxRetries], withSignals)
            + FinalFailure(serial, maxRetries, replies[maxRetries - 1], withSignals)
  {
    RetryPolicyStopsAt(replies, maxRetries, maxRetries);
  }
}
