/** Properties of the controller in src/backend/logic.py that relate
    several calls, or one call to the outcomes its test suite pins down. */
module BackendLaws {
  import opened Text
  import opened Scanning
  import opened BackendSpec

  /** A terminal reply on the last allowed attempt produces both the
      per-attempt failure and the "after N retries" report, so the PLC gets
      two fail signals; the session does not change. */
  lemma TerminalOnLastAttemptSignalsTwice(s: Session, serial: string, replies: seq<string>,
                                          maxRetries: nat, validateReply: string,
                                          completeReply: string)
    requires 1 <= maxRetries <= |replies|
    requires s.counter < s.quantity
    requires forall i :: 0 <= i < maxRetries - 1 ==> Retryable(replies[i])
    requires Terminal(replies[maxRetries - 1])
    ensures GoalLookupSafe(s, replies, maxRetries)
    ensures var r := ProcessSerial(s, serial, replies, maxRetries, validateReply, completeReply);
      && r.session == s
      && Count(r.events, Upload) == maxRetries
      && Count(r.events, FailSignal) == 2
  {
    RetryPolicyStopsAt(replies, maxRetries, maxRetries);
    var upload := UploadLog(s.current, serial, replies, maxRetries, true);
    CountAppend(upload, [], FailSignal);
    assert upload + [] == upload;
  }

  /** A terminal reply before the last attempt ends the loop at once with
      exactly one fail signal and no "after N retries" report. */
  lemma EarlyTerminalSignalsOnce(s: Session, serial: string, replies: seq<string>,
                                 maxRetries: nat, k: nat, validateReply: string,
                                 completeReply: string)
    requires k + 1 < maxRetries <= |replies|
    requires s.counter < s.quantity
    requires forall i :: 0 <= i < k ==> Retryable(replies[i])
    requires Terminal(replies[k])
    ensures GoalLookupSafe(s, replies, maxRetries)
    ensures var r := ProcessSerial(s, serial, replies, maxRetries, validateReply, completeReply);
      && r.session == s
      && Count(r.events, Upload) == k + 1
      && Count(r.events, FailSignal) == 1
  {
    RetryPolicyStopsAt(replies, maxRetries, k + 1);
    var upload := UploadLog(s.current, serial, replies, maxRetries, true);
    assert upload + [] == upload;
  }

  /** Every attempt meets "unique constraint": maxRetries upload calls, the
      counter is unchanged, and the task ends with the "after N retries"
      report quoting the last reply, and one fail signal. */
  lemma ExhaustedRetries(s: Session, serial: string, replies: seq<string>, maxRetries: nat,
                         validateReply: string, completeReply: string)
    requires 1 <= maxRetries <= |replies|
    requires s.counter < s.quantity
    requires forall i :: 0 <= i < maxRetries ==> Retryable(replies[i])
    ensures GoalLookupSafe(s, replies, maxRetries)
    ensures var r := ProcessSerial(s, serial, replies, maxRetries, validateReply, completeReply);
      && r.session == s
      && Count(r.events, Upload) == maxRetries
      && Count(r.events, FailSignal) == 1
      && |r.events| >= 2
      && r.events[|r.events| - 2..] == Rejection(FinalFailureText(serial, maxRetries, replies[maxRetries - 1]))
  {
    ExhaustedRetriesReported(s.current, serial, replies, maxRetries, true);
    var upload := UploadLog(s.current, serial, replies, maxRetries, true);
    assert upload + [] == upload;
  }

  /** The retry warning the test suite expects, for any component serial. */
  lemma FirstRetryText(serial: string)
    ensures RetryingText(serial, 0)
            == "Retrying for " + serial + " due to unique constraint error. Attempt 1"
  {
    assert DigitChar(1) == '1';
  }

  /** The final report the test suite expects with MAX_RETRIES = 3. */
  lemma ThirdRetryFailureText(serial: string)
    ensures FinalFailureText(serial, 3, UniqueConstraint)
            == "Upload Failed after 3 retries for " + serial + ": unique constraint"
  {
    assert DigitChar(3) == '3';
  }

  /** The loop's log for a "unique constraint" reply followed by "OK". */
  lemma RetryThenAcceptedLog(usn: Option<string>, serial: string)
    ensures AttemptsLog(usn, serial, [UniqueConstraint, "OK"], true) == [
              Remote(UploadCall(usn, serial)),
              Status(Error, UploadFailedText(serial, UniqueConstraint)),
              Status(Warning, RetryingText(serial, 0)),
              Remote(UploadCall(usn, serial)),
              Status(Success, UploadResponseText(serial, "OK"))]
  {
    assert [UniqueConstraint, "OK"][..1] == [UniqueConstraint];
    assert [UniqueConstraint][..0] == [];
    assert Contains(UniqueConstraint, UniqueConstraint);
    var first := AttemptEvents(usn, serial, UniqueConstraint, 0, true);
    var second := AttemptEvents(usn, serial, "OK", 1, true);
    assert AttemptsLog(usn, serial, [UniqueConstraint], true) == first;
    assert AttemptsLog(usn, serial, [UniqueConstraint, "OK"], true) == first + second;
  }

  /** The retry case of the test suite: a "unique constraint" reply, then
      "OK". Two upload calls, the retry is reported as attempt 1, and the
      component is counted once. */
  lemma RetryThenAccepted(s: Session, serial: string, replies: seq<string>, maxRetries: nat,
                          validateReply: string, completeReply: string)
    requires 2 <= maxRetries <= |replies|
    requires replies[0] == UniqueConstraint && replies[1] == "OK"
    requires s.counter + 1 < s.quantity
    ensures GoalLookupSafe(s, replies, maxRetries)
    ensures var r := ProcessSerial(s, serial, replies, maxRetries, validateReply, completeReply);
      && r.session == s.(counter := s.counter + 1)
      && r.events == [
           Remote(UploadCall(s.current, serial)),
           Status(Error, UploadFailedText(serial, UniqueConstraint)),
           Status(Warning, "Retrying for " + serial + " due to unique constraint error. Attempt 1"),
           Remote(UploadCall(s.current, serial)),
           Status(Success, UploadResponseText(serial, "OK"))]
  {
    assert Contains(replies[0], UniqueConstraint);
    RetryPolicyStopsAt(replies, maxRetries, 2);
    assert replies[..2] == [UniqueConstraint, "OK"];
    RetryThenAcceptedLog(s.current, serial);
    FirstRetryText(serial);
    var upload := UploadLog(s.current, serial, replies, maxRetries, true);
    assert upload + [] == upload;
  }

  /** The exhausted case of the test suite with MAX_RETRIES = 3: the report
      reads "Upload Failed after 3 retries for <serial>: unique constraint". */
  lemma ThreeUniqueConstraintReplies(s: Session, serial: string, replies: seq<string>,
                                     validateReply: string, completeReply: string)
    requires replies == [UniqueConstraint, UniqueConstraint, UniqueConstraint]
    requires s.counter < s.quantity
    ensures GoalLookupSafe(s, replies, 3)
    ensures var r := ProcessSerial(s, serial, replies, 3, validateReply, completeReply);
      && r.session == s
      && |r.events| >= 2
      && r.events[|r.events| - 2..]
         == [Status(Error, "Upload Failed after 3 retries for " + serial + ": unique constraint"),
             Signal(false)]
  {
    assert Retryable(replies[0]) by {
      assert Contains(UniqueConstraint, UniqueConstraint);
    }
    ExhaustedRetries(s, serial, replies, 3, validateReply, completeReply);
    ThirdRetryFailureText(serial);
  }

  /** Replies that accept the upload at the first attempt. */
  function AllOk(n: nat): (replies: seq<string>)
    ensures |replies| == n
    ensures forall i :: 0 <= i < n ==> replies[i] == "OK"
  {
    seq(n, _ => "OK")
  }

  /** The session after one process_serial per component, each upload
      accepted at once, with the same validation and completion replies. */
  function RunComponents(s: Session, components: seq<string>, maxRetries: nat,
                         validateReply: string, completeReply: string): Session
    requires maxRetries >= 1 && s.robot in Goals
    decreases |components|
  {
    if components == [] then s
    else
      var r := ProcessSerial(s, components[0], AllOk(maxRetries), maxRetries, validateReply, completeReply);
      RunComponents(r.session, components[1..], maxRetries, validateReply, completeReply)
  }

  /** Completion law: after exactly as many accepted components as the
      quantity still needs, the unit is either finished (the counter
      restarts and the unit becomes the old one) or, if validation or
      completion fails, stays active with the counter at the quantity. */
  lemma {:induction false} CompletionLaw(s: Session, components: seq<string>, maxRetries: nat,
                                         validateReply: string, completeReply: string)
    requires maxRetries >= 1 && s.robot in Goals
    requires s.counter < s.quantity && |components| == s.quantity - s.counter
    ensures var full := s.(counter := s.quantity);
      RunComponents(s, components, maxRetries, validateReply, completeReply)
      == if Restarts(full, validateReply, completeReply) then Reset(full) else full
    decreases |components|
  {
    RetryPolicyStopsAt(AllOk(maxRetries), maxRetries, 1);
    var next := s.(counter := s.counter + 1);
    var r := ProcessSerial(s, components[0], AllOk(maxRetries), maxRetries, validateReply, completeReply);
    assert AfterUpload(s, AllOk(maxRetries), maxRetries) == next;
    if |components| > 1 {
      assert r.session == next;
      CompletionLaw(next, components[1..], maxRetries, validateReply, completeReply);
    }
  }

  /** Robot 1, quantity 24: the unit "WTR1" is queued, its route check
      passes, and 24 accepted components followed by validate_hdd "24"
      finish it without a completion call. */
  lemma FirstRobotScenario(components: seq<string>, maxRetries: nat, completeReply: string)
    requires maxRetries >= 1 && |components| == 24
    ensures Submit(Initial(1, 24), "WTR1").enqueued == [CheckRouteTask("WTR1")]
    ensures var active := CheckRoute(Initial(1, 24), "WTR1", "OK").session;
      && active == Session(Some("WTR1"), None, 0, 24, 1)
      && RunComponents(active, components, maxRetries, "24", completeReply)
         == Session(None, Some("WTR1"), 0, 24, 1)
  {
    assert IsUnitScan("WTR1");
    var active := CheckRoute(Initial(1, 24), "WTR1", "OK").session;
    CompletionLaw(active, components, maxRetries, "24", completeReply);
    assert !Contains("24", "NG") by {
      assert "24"[1..] == "4" && !Contains("4", "NG");
      assert "24"[..2][0] != 'N';
    }
  }

  /** Robot 3, quantity 72: validation matches but send_complete answers
      "ERROR", so the unit stays active with the counter at 72. */
  lemma FinalRobotCompleteFails(components: seq<string>, maxRetries: nat)
    requires maxRetries >= 1 && |components| == 72
    ensures var active := Session(Some("WTR1"), None, 0, 72, 3);
      RunComponents(active, components, maxRetries, "72", "ERROR") == active.(counter := 72)
  {
    var active := Session(Some("WTR1"), None, 0, 72, 3);
    CompletionLaw(active, components, maxRetries, "72", "ERROR");
  }

  /** A failed send_complete reports the failure but sends no fail signal,
      and the unit stays active. */
  lemma FailedCompleteSendsNoSignal(s: Session, completeReply: string)
    requires s.robot == FinalRobot && s.counter >= s.quantity
    requires completeReply != "OK"
    ensures var r := CheckRestart(s, "72", completeReply);
      && r.session == s
      && Count(r.events, Completion) == 1
      && Count(r.events, FailSignal) == 0
      && r.events[|r.events| - 1]
         == Status(Error, "Complete Failed for " + Show(s.current) + ": " + completeReply)
  {
    assert !Contains("72", "NG") by {
      assert "72"[1..] == "2" && !Contains("2", "NG");
      assert "72"[..2][0] != 'N';
    }
  }

  /** The same rejection `n` times over. */
  function Rejections(text: string, n: nat): seq<Event> {
    if n == 0 then [] else Rejection(text) + Rejections(text, n - 1)
  }

  /** The tasks the scans ask for, in scan order: a unit scan other than
      the old unit asks for a route check, a component scan while a unit is
      active asks for an upload, and any other scan asks for nothing. */
  function Requested(s: Session, scans: seq<string>): seq<Task>
    decreases |scans|
  {
    if scans == [] then []
    else
      var scan := scans[0];
      var wanted := if IsUnitScan(scan) then
                      if s.previous == Some(scan) then [] else [CheckRouteTask(scan)]
                    else if scan != "" && Truthy(s.current) then [ProcessSerialTask(scan)]
                    else [];
      wanted + Requested(s, scans[1..])
  }

  /** The number of non-empty scans. */
  function NonEmpty(scans: seq<string>): nat
    decreases |scans|
  {
    if scans == [] then 0 else (if scans[0] == "" then 0 else 1) + NonEmpty(scans[1..])
  }

  /** handle_serials_submit for each scan in turn, each seeing the session
      the previous one left. Submitting never changes the session, the
      tasks join the queue in scan order, exactly the ones the scans ask
      for, and every non-empty scan is either queued or answered with one
      fail signal. */
  function SubmitAll(s: Session, scans: seq<string>): (r: Outcome)
    ensures r.session == s
    ensures r.enqueued == Requested(s, scans)
    ensures Count(r.events, FailSignal) + |r.enqueued| == NonEmpty(scans)
    ensures Count(r.events, AnyCall) == 0
    decreases |scans|
  {
    if scans == [] then Outcome(s, [], [])
    else
      var first := Submit(s, scans[0]);
      var rest := SubmitAll(first.session, scans[1..]);
      CountAppend(first.events, rest.events, FailSignal);
      CountAppend(first.events, rest.events, AnyCall);
      Outcome(rest.session, first.enqueued + rest.enqueued, first.events + rest.events)
  }

  /** Component scans while no unit is active are rejected one by one,
      identically, and nothing is queued. */
  lemma {:induction false} IdleComponentScansRejected(s: Session, scans: seq<string>)
    requires !Truthy(s.current)
    requires forall i :: 0 <= i < |scans| ==> scans[i] != "" && !IsUnitScan(scans[i])
    ensures SubmitAll(s, scans).enqueued == []
    ensures SubmitAll(s, scans).events == Rejections(NoUnitText, |scans|)
    decreases |scans|
  {
    if scans != [] {
      IdleComponentScansRejected(s, scans[1..]);
    }
  }

  /** Everything that can happen to the session: a scan submitted, or a
      queued task run by a worker with the replies its remote calls get. */
  datatype Step =
    | Scan(raw: string)
    | RouteCheck(serial: string, reply: string)
    | Component(serial: string, replies: seq<string>, validateReply: string, completeReply: string)

  predicate Replies(step: Step, maxRetries: nat) {
    step.Component? ==> |step.replies| >= maxRetries
  }

  function Apply(s: Session, step: Step, maxRetries: nat): (t: Session)
    requires maxRetries >= 1 && s.robot in Goals && Replies(step, maxRetries)
    ensures SameConfig(s, t)
    ensures Bounded(s) ==> Bounded(t)
    ensures s.current.Some? && t.current.None? ==> t == Reset(s)
  {
    match step
    case Scan(raw) => Submit(s, raw).session
    case RouteCheck(serial, reply) => CheckRoute(s, serial, reply).session
    case Component(serial, replies, v, c) => ProcessSerial(s, serial, replies, maxRetries, v, c).session
  }

  function Run(s: Session, steps: seq<Step>, maxRetries: nat): Session
    requires maxRetries >= 1 && s.robot in Goals
    requires forall i :: 0 <= i < |steps| ==> Replies(steps[i], maxRetries)
    decreases |steps|
  {
    if steps == [] then s else Run(Apply(s, steps[0], maxRetries), steps[1..], maxRetries)
  }

  /** Whatever is scanned and however the remote calls answer, starting
      from the initial state the counter never exceeds the quantity. */
  lemma {:induction false} RunKeepsCounterBounded(s: Session, steps: seq<Step>, maxRetries: nat)
    requires maxRetries >= 1 && s.robot in Goals && Bounded(s)
    requires forall i :: 0 <= i < |steps| ==> Replies(steps[i], maxRetries)
    ensures Bounded(Run(s, steps, maxRetries))
    ensures SameConfig(s, Run(s, steps, maxRetries))
    decreases |steps|
  {
    if steps != [] {
      RunKeepsCounterBounded(Apply(s, steps[0], maxRetries), steps[1..], maxRetries);
    }
  }

  lemma InitialIsBounded(robot: int, quantity: int)
    ensures Bounded(Initial(robot, quantity))
  {
  }

  /** The application of the controller's test suite: no current unit,
      "WTROLD123" completed last, quantity 24, robot 1. */
  function Fixture(): Session {
    Session(None, Some("WTROLD123"), 0, 24, 1)
  }

  /** Scanning the unit completed last is refused at once. */
  lemma SameUnitScanRefused()
    ensures Submit(Fixture(), "WTROLD123")
            == Outcome(Fixture(), [],
                       [Status(Error, "The current USN is the same as the scanned before."), Signal(false)])
  {
    assert IsUnitScan("WTROLD123") by {
      assert "WTROLD123"[..3] == UnitPrefix;
    }
  }

  /** A component scan with no active unit is refused at once. */
  lemma InvalidScanRefused()
    ensures Submit(Fixture(), "INVALID")
            == Outcome(Fixture(), [], [Status(Error, "Please scan a valid L10."), Signal(false)])
  {
    assert !IsUnitScan("INVALID") by {
      assert "INVALID"[..3][0] != UnitPrefix[0];
    }
  }

  /** A new unit scan is queued for its route check, silently. */
  lemma UnitScanQueued()
    ensures Submit(Fixture(), "WTR1234567")
            == Outcome(Fixture(), [CheckRouteTask("WTR1234567")], [])
  {
    assert IsUnitScan("WTR1234567") by {
      assert "WTR1234567"[..3] == UnitPrefix;
    }
  }

  /** A component scan while a unit is active is queued for upload, silently. */
  lemma ComponentScanQueued()
    ensures var s := Fixture().(current := Some("WTR123DDE21"));
      Submit(s, "USN123") == Outcome(s, [ProcessSerialTask("USN123")], [])
  {
    assert !IsUnitScan("USN123") by {
      assert "USN123"[..3][0] != UnitPrefix[0];
    }
  }

  /** A component scan at the quantity limit is refused without an upload. */
  lemma QuantityLimitRefused(replies: seq<string>, maxRetries: nat)
    requires 1 <= maxRetries <= |replies|
    ensures var s := Fixture().(counter := 24);
      && GoalLookupSafe(s, replies, maxRetries)
      && ProcessSerial(s, "SERIAL123", replies, maxRetries, "24", "OK")
         == Outcome(s, [], [Status(Error, "Quantity limit reached."), Signal(false)])
  {
  }

  /** An upload accepted at the first attempt is counted and reported. */
  lemma FirstAttemptAccepted(replies: seq<string>, maxRetries: nat)
    requires 1 <= maxRetries <= |replies| && replies[0] == "OK"
    ensures GoalLookupSafe(Fixture(), replies, maxRetries)
    ensures ProcessSerial(Fixture(), "SERIAL123", replies, maxRetries, "24", "OK")
            == Outcome(Fixture().(counter := 1), [],
                       [Remote(UploadCall(None, "SERIAL123")),
                        Status(Success, "Upload Response for SERIAL123: OK")])
  {
    RetryPolicyStopsAt(replies, maxRetries, 1);
    assert replies[..1] == ["OK"] && ["OK"][..0] == [];
    assert UploadResponseText("SERIAL123", "OK") == "Upload Response for SERIAL123: OK";
  }

  /** An upload error other than "unique constraint" at the first of
      several attempts is reported once, with one fail signal. */
  lemma FirstAttemptError(replies: seq<string>, maxRetries: nat)
    requires 2 <= maxRetries <= |replies| && replies[0] == "ERROR"
    ensures GoalLookupSafe(Fixture(), replies, maxRetries)
    ensures ProcessSerial(Fixture(), "SERIAL123", replies, maxRetries, "24", "OK")
            == Outcome(Fixture(), [],
                       [Remote(UploadCall(None, "SERIAL123")),
                        Status(Error, "Upload Failed for SERIAL123: ERROR"),
                        Signal(false)])
  {
    assert !Contains("ERROR", UniqueConstraint);
    RetryPolicyStopsAt(replies, maxRetries, 1);
    assert replies[..1] == ["ERROR"] && ["ERROR"][..0] == [];
    assert UploadFailedText("SERIAL123", "ERROR") == "Upload Failed for SERIAL123: ERROR";
  }

  /** A passed route check makes the unit current and shows it. */
  lemma RouteCheckShowsUnit()
    ensures CheckRoute(Fixture(), "WTR1234567", "OK")
            == Outcome(Fixture().(current := Some("WTR1234567")), [],
                       [Remote(CheckRouteCall("WTR1234567")), Status(Info, "USN: WTR1234567")])
  {
    assert UnitShownText("WTR1234567") == "USN: WTR1234567";
  }

  /** A failed route check is reported with its reply. */
  lemma RouteCheckFailureReported()
    ensures CheckRoute(Fixture(), "WTR1234567", "ROUTE ERROR")
            == Outcome(Fixture(), [],
                       [Remote(CheckRouteCall("WTR1234567")),
                        Status(Error, "Check Route Failed for WTR1234567: ROUTE ERROR"),
                        Signal(false)])
  {
    assert CheckRouteFailedText("WTR1234567", "ROUTE ERROR")
           == "Check Route Failed for WTR1234567: ROUTE ERROR";
  }

  /** A second unit while one is active is refused after the route check. */
  lemma SecondUnitRefused()
    ensures var s := Fixture().(current := Some("WTR2345678"));
      CheckRoute(s, "WTR1V234567", "OK")
      == Outcome(s, [],
                 [Remote(CheckRouteCall("WTR1V234567")),
                  Status(Error, "Please scan a valid Serial or Validator"),
                  Signal(false)])
  {
  }

  /** The unit of the check_restart tests, at its quantity of 24. */
  function FullUnit(): Session {
    Session(Some("WTRCURRENT123"), Some("WTROLD123"), 24, 24, 1)
  }

  /** validate_hdd answering "NG" is reported as a data error. */
  lemma NotGoodReported(completeReply: string)
    ensures CheckRestart(FullUnit(), "NG", completeReply)
            == Outcome(FullUnit(), [],
                       [Remote(ValidateHddCall(Some("WTRCURRENT123"))),
                        Status(Error, "Error: HDD Quantity and Validators Quantity don't match for WTRCURRENT123"),
                        Signal(false)])
  {
    assert Contains("NG", "NG");
    assert NotGoodText(Some("WTRCURRENT123"))
           == "Error: HDD Quantity and Validators Quantity don't match for WTRCURRENT123";
  }

  /** validate_hdd answering another number than the goal is reported
      with both numbers. */
  lemma MismatchReported(completeReply: string)
    ensures CheckRestart(FullUnit(), "48", completeReply)
            == Outcome(FullUnit(), [],
                       [Remote(ValidateHddCall(Some("WTRCURRENT123"))),
                        Status(Error, "HDD Quantity Mismatch for WTRCURRENT123: Expected 24, Got 48"),
                        Signal(false)])
  {
    assert !Contains("48", "NG") by {
      assert "48"[1..] == "8" && !Contains("8", "NG");
      assert "48"[..2][0] != 'N';
    }
    assert MismatchText(Some("WTRCURRENT123"), "24", "48")
           == "HDD Quantity Mismatch for WTRCURRENT123: Expected 24, Got 48" by {
      var x := MismatchText(Some("WTRCURRENT123"), "24", "48");
      var y := "HDD Quantity Mismatch for WTRCURRENT123: Expected 24, Got 48";
      assert |x| == |y|;
      forall i | 0 <= i < |x| ensures x[i] == y[i] {}
    }
  }

  /** At robot 3 a confirmed unit is completed, reported and reset. */
  lemma CompletionReported()
    ensures var s := FullUnit().(counter := 72, quantity := 72, robot := 3);
      CheckRestart(s, "72", "OK")
      == Outcome(Session(None, Some("WTRCURRENT123"), 0, 72, 3), [],
                 [Remote(ValidateHddCall(Some("WTRCURRENT123"))),
                  Remote(CompleteCall(Some("WTRCURRENT123"))),
                  Status(Success, "Complete Response for WTRCURRENT123: OK")])
  {
    assert !Contains("72", "NG") by {
      assert "72"[1..] == "2" && !Contains("2", "NG");
      assert "72"[..2][0] != 'N';
    }
    assert CompleteResponseText(Some("WTRCURRENT123"), "OK") == "Complete Response for WTRCURRENT123: OK";
  }
}
