/** Properties of the dict-based variant in src/utils/gui_utils.py, and
    where its rules lead to different outcomes than the controller's. */
module LegacyLaws {
  import opened Text
  import opened Scanning
  import opened LegacySpec

  /** The counter is either 0 or still below the quantity. */
  predicate Below(d: Data) {
    d.counter == 0 || d.counter < d.quantity
  }

  /** Away from the final robot, check_restart resets the unit as soon as
      the counter reaches the quantity, so process_serial keeps the counter
      below the quantity (or at 0). */
  lemma BelowKeptAwayFromFinalRobot(d: Data, usn: string, serial: string, robot: string,
                                    replies: seq<string>, completeReply: string)
    requires MaxRetries <= |replies| && robot != FinalRobot && Below(d)
    ensures Below(ProcessSerial(d, usn, serial, robot, replies, completeReply).data)
  {
    var mid := AfterUpload(d, replies);
    assert mid.counter <= d.counter + 1;
  }

  /** At the final robot a failed send_complete leaves the counter at or
      past the quantity, and with no quantity guard the next accepted
      component takes it past the quantity. */
  lemma CounterPassesQuantityAtFinalRobot(d: Data, usn: string, serial: string,
                                          replies: seq<string>, completeReply: string)
    requires MaxRetries <= |replies| && replies[0] == "OK"
    requires d.counter >= d.quantity && completeReply != "OK"
    ensures var r := ProcessSerial(d, usn, serial, FinalRobot, replies, completeReply);
      r.data.counter == d.counter + 1 && r.data.counter > r.data.quantity
  {
    RetryPolicyStopsAt(replies, MaxRetries, 1);
  }

  /** Upload replies that use both attempts without an "OK": the first is
      a "unique constraint" error and the second is anything but "OK". */
  predicate BothAttemptsFail(replies: seq<string>) {
    |replies| >= MaxRetries && Retryable(replies[0]) && replies[1] != "OK"
  }

  /** When both attempts fail the component is not counted, and the log
      ends the loop with the "after 2 retries" report quoting the second
      reply, whether that reply was retryable or not; no signal is sent. */
  lemma {:induction false} BothAttemptsFailReported(d: Data, usn: string, serial: string,
                                                    robot: string, replies: seq<string>,
                                                    completeReply: string)
    requires BothAttemptsFail(replies) && d.counter < d.quantity
    ensures var r := ProcessSerial(d, usn, serial, robot, replies, completeReply);
      && r.data == d
      && r.events == AttemptsLog(Some(usn), serial, replies[..2], false)
                     + [Status(Error, "Upload Failed after 2 retries for " + serial + ": " + replies[1])]
  {
    RetryPolicyStopsAt(replies, MaxRetries, 2);
    assert NatToString(2) == "2" by {
      assert DigitChar(2) == '2';
    }
    var text := FinalFailureText(serial, MaxRetries, replies[1]);
    assert text == "Upload Failed after 2 retries for " + serial + ": " + replies[1];
    var upload := UploadLog(Some(usn), serial, replies, MaxRetries, false);
    assert upload == AttemptsLog(Some(usn), serial, replies[..2], false) + [Status(Error, text)];
    assert CheckRestart(d, usn, robot, completeReply).events == [];
    assert upload + [] == upload;
  }

  /** A component task uploads to the unit bound when it was queued, even
      if the current unit has changed since; the controller instead reads
      the current unit when the task runs. */
  lemma {:induction false} UploadUsesBoundUnit(d: Data, usn: string, serial: string, robot: string,
                                               replies: seq<string>, completeReply: string)
    requires MaxRetries <= |replies|
    ensures var r := ProcessSerial(d, usn, serial, robot, replies, completeReply);
      |r.events| >= 1 && r.events[0] == Remote(UploadCall(Some(usn), serial))
  {
    var run := RetryPolicy(replies, MaxRetries);
    var rs := replies[..run.attempts];
    AttemptsLogStartsWithUpload(Some(usn), serial, rs, false);
  }

  /** The first attempt's upload call opens the loop's log. */
  lemma {:induction false} AttemptsLogStartsWithUpload(usn: Option<string>, serial: string,
                                                       rs: seq<string>, withSignals: bool)
    requires rs != []
    ensures var log := AttemptsLog(usn, serial, rs, withSignals);
      |log| >= 1 && log[0] == Remote(UploadCall(usn, serial))
    decreases |rs|
  {
    if |rs| > 1 {
      AttemptsLogStartsWithUpload(usn, serial, rs[..|rs| - 1], withSignals);
    } else {
      assert rs[..0] == [];
    }
  }

  /** Submitting the current unit again queues a second route check; that
      check then fails with "Please scan a valid Serial or Validator"
      however the route check answers, and the unit stays as it was. */
  lemma RepeatedUnitRecheckedAndRefused(d: Data, scan: string, reply: string)
    requires IsUnitScan(scan) && d.current == Some(scan)
    ensures Submit(d, scan).enqueued == [CheckRouteTask(scan)]
    ensures var r := CheckRoute(d, scan, reply);
      && r.data == d
      && r.events[1] == (if reply == "OK" then Status(Error, SecondUnitText)
                         else Status(Error, CheckRouteFailedText(scan, reply)))
  {
    assert scan != "" by {
      assert |UnitPrefix| <= |scan|;
    }
  }
}
