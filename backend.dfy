/** `PLCAutoScanningLogic` (src/backend/logic.py) as objects: the
    application whose fields the tasks update in place, the FIFO task
    queue, and the controller whose methods are the task handlers. Each
    method is proved to leave the application in the state, and the log
    in the contents, that the matching function of BackendSpec describes. */
module Backend {
  import opened Text
  import opened Scanning
  import opened BackendSpec
  import opened Tasks

  /** The application object, reduced to the fields the controller reads
      and writes, plus the trail of status lines, PLC signals and remote
      calls it has produced so far. */
  class App {
    var currentUsn: Option<string>
    var oldUsn: Option<string>
    var counter: nat
    var quantity: int
    var robotNumber: int
    var log: seq<Event>

    /** The application once robot number and quantity are entered. */
    constructor(robotNumber: int, quantity: int)
      ensures State() == Initial(robotNumber, quantity) && log == []
    {
      this.currentUsn := None;
      this.oldUsn := None;
      this.counter := 0;
      this.quantity := quantity;
      this.robotNumber := robotNumber;
      this.log := [];
    }

    function State(): Session
      reads this
    {
      Session(currentUsn, oldUsn, counter, quantity, robotNumber)
    }

    /** update_listbox, or send_signal, or a call to the remote system. */
    method Emit(e: Event)
      modifies this`log
      ensures log == old(log) + [e]
    {
      log := log + [e];
    }
  }

  class ScanningLogic {
    const app: App
    const queue: TaskQueue<Task>
    /** MAX_RETRIES, the number of upload attempts per component. */
    const maxRetries: nat

    constructor(app: App, queue: TaskQueue<Task>, maxRetries: nat)
      ensures this.app == app && this.queue == queue && this.maxRetries == maxRetries
    {
      this.app := app;
      this.queue := queue;
      this.maxRetries := maxRetries;
    }

    /** An error line and a fail signal, the controller's usual rejection. */
    method Reject(text: string)
      modifies app`log
      ensures app.log == old(app.log) + Rejection(text)
    {
      app.Emit(Status(Error, text));
      app.Emit(Signal(false));
    }

    /** handle_serials_submit: queue a route check for a unit, or the
        upload for a component, or reject the scan at once. */
    method HandleSerialsSubmit(scan: string)
      modifies app`log, queue
      ensures var r := Submit(old(app.State()), scan);
        && app.State() == r.session
        && app.log == old(app.log) + r.events
        && queue.items == old(queue.items) + r.enqueued
    {
      if scan != "" {
        if StartsWith(scan, UnitPrefix) {
          if Some(scan) == app.oldUsn {
            Reject(SameUnitText);
            return;
          }
          queue.Put(CheckRouteTask(scan));
        } else {
          if app.currentUsn.Some? && app.currentUsn.value != "" {
            queue.Put(ProcessSerialTask(scan));
          } else {
            Reject(NoUnitText);
          }
        }
      }
    }

    /** process_check_route, given the reply of check_route. */
    method ProcessCheckRoute(serial: string, reply: string)
      modifies app`log, app`currentUsn
      ensures var r := CheckRoute(old(app.State()), serial, reply);
        app.State() == r.session && app.log == old(app.log) + r.events
    {
      app.Emit(Remote(CheckRouteCall(serial)));
      if reply != "OK" {
        Reject(CheckRouteFailedText(serial, reply));
      } else {
        var current := app.currentUsn;
        if !(current.Some? && current.value != "") {
          app.currentUsn := Some(serial);
          app.Emit(Status(Info, UnitShownText(serial)));
        } else {
          Reject(SecondUnitText);
        }
      }
    }

    /** check_restart, given the replies of validate_hdd and send_complete. */
    method CheckRestart(validateReply: string, completeReply: string)
      requires GoalKnown(app.State())
      modifies app`log, app`counter, app`oldUsn, app`currentUsn
      ensures var r := BackendSpec.CheckRestart(old(app.State()), validateReply, completeReply);
        app.State() == r.session && app.log == old(app.log) + r.events
    {
      var shouldRestart := false;
      if app.counter >= app.quantity {
        var goal := Goals[app.robotNumber];
        app.Emit(Remote(ValidateHddCall(app.currentUsn)));
        if Contains(validateReply, "NG") {
          Reject(NotGoodText(app.currentUsn));
          return;
        }
        if validateReply != goal {
          Reject(MismatchText(app.currentUsn, goal, validateReply));
          return;
        } else {
          if app.robotNumber == FinalRobot {
            app.Emit(Remote(CompleteCall(app.currentUsn)));
            if completeReply != "OK" {
              app.Emit(Status(Error, CompleteFailedText(app.currentUsn, completeReply)));
            } else {
              app.Emit(Status(Success, CompleteResponseText(app.currentUsn, completeReply)));
              shouldRestart := true;
            }
          } else {
            shouldRestart := true;
          }
        }
      }
      if shouldRestart {
        app.counter := 0;
        app.oldUsn := app.currentUsn;
        app.currentUsn := None;
      }
    }

    /** One pass of the upload loop: upload, then on "OK" count the
        component, on a "unique constraint" error announce the retry, on
        any other error signal failure. */
    method Attempt(serial: string, response: string, attempt: nat)
      modifies app`log, app`counter
      ensures app.log == old(app.log) + AttemptEvents(app.currentUsn, serial, response, attempt, true)
      ensures app.counter == old(app.counter) + (if response == "OK" then 1 else 0)
    {
      app.Emit(Remote(UploadCall(app.currentUsn, serial)));
      if response == "OK" {
        app.counter := app.counter + 1;
        app.Emit(Status(Success, UploadResponseText(serial, response)));
      } else if Contains(response, UniqueConstraint) {
        app.Emit(Status(Error, UploadFailedText(serial, response)));
        app.Emit(Status(Warning, RetryingText(serial, attempt)));
      } else {
        app.Emit(Status(Error, UploadFailedText(serial, response)));
        app.Emit(Signal(false));
      }
    }

    /** Attempt number i of the loop, with the reply `replies[i]`: the log
        of attempts 0..i-1 grows into the log of attempts 0..i. */
    method AttemptAt(serial: string, replies: seq<string>, i: nat, ghost log0: seq<Event>)
      requires i < |replies|
      requires app.log == log0 + AttemptsLog(app.currentUsn, serial, replies[..i], true)
      modifies app`log, app`counter
      ensures app.log == log0 + AttemptsLog(app.currentUsn, serial, replies[..i + 1], true)
      ensures app.counter == old(app.counter) + (if replies[i] == "OK" then 1 else 0)
    {
      Attempt(serial, replies[i], i);
      AttemptsLogExtend(log0, app.currentUsn, serial, replies, i, true);
    }

    /** The `for attempt in range(MAX_RETRIES)` loop of process_serial: it
        stops after an "OK" (`successful_upload`) or an error other than
        "unique constraint". Returns `successful_upload`, and `attempt` and
        `response` as the loop leaves them. */
    method UploadLoop(serial: string, replies: seq<string>)
      returns (successfulUpload: bool, attempt: nat, response: string)
      requires 1 <= maxRetries <= |replies|
      modifies app`log, app`counter
      ensures attempt < maxRetries
      ensures RetryPolicy(replies, maxRetries) == RetryRun(attempt + 1, successfulUpload, response)
      ensures app.counter == old(app.counter) + (if successfulUpload then 1 else 0)
      ensures app.log == old(app.log) + AttemptsLog(app.currentUsn, serial, replies[..attempt + 1], true)
    {
      ghost var usn := app.currentUsn;
      ghost var log0 := app.log;
      successfulUpload := false;
      attempt := 0;
      response := "";
      var i := 0;
      while i < maxRetries
        invariant 0 <= i <= maxRetries
        invariant i < maxRetries ==> RetryFrom(replies, maxRetries, i) == RetryPolicy(replies, maxRetries)
        invariant i == maxRetries ==> RetryPolicy(replies, maxRetries) == RetryRun(i, false, response)
        invariant app.counter == old(app.counter)
        invariant app.currentUsn == usn && app.log == log0 + AttemptsLog(usn, serial, replies[..i], true)
        invariant i > 0 ==> attempt == i - 1 && response == replies[i - 1]
      {
        attempt := i;
        response := replies[i];
        AttemptAt(serial, replies, i, log0);
        if response == "OK" {
          successfulUpload := true;
          break;
        } else if !Contains(response, UniqueConstraint) {
          break;
        }
        i := i + 1;
      }
    }

    /** The upload loop of process_serial followed by the report of an
        upload that failed at the last allowed attempt. */
    method Upload(serial: string, replies: seq<string>)
      requires 1 <= maxRetries <= |replies|
      modifies app`log, app`counter
      ensures app.State() == AfterUpload(old(app.State()), replies, maxRetries)
      ensures app.log == old(app.log) + UploadLog(app.currentUsn, serial, replies, maxRetries, true)
    {
      var successfulUpload, attempt, response := UploadLoop(serial, replies);
      ghost var attempts := app.log;
      if !successfulUpload && attempt == maxRetries - 1 {
        app.Emit(Status(Error, FinalFailureText(serial, maxRetries, response)));
        app.Emit(Signal(false));
        assert app.log == attempts + FinalFailure(serial, maxRetries, response, true);
      } else {
        assert app.log == attempts + [];
      }
    }

    /** process_serial: the quantity guard, the bounded upload loop over
        `replies` (the reply each attempt gets), the report after the last
        attempt, then check_restart. */
    method ProcessSerial(serial: string, replies: seq<string>, validateReply: string,
                         completeReply: string)
      requires 1 <= maxRetries <= |replies|
      requires GoalLookupSafe(app.State(), replies, maxRetries)
      modifies app`log, app`counter, app`oldUsn, app`currentUsn
      ensures var r := BackendSpec.ProcessSerial(old(app.State()), serial, replies, maxRetries,
                                                 validateReply, completeReply);
        app.State() == r.session && app.log == old(app.log) + r.events
    {
      if app.counter >= app.quantity {
        Reject(QuantityLimitText);
        return;
      }
      Upload(serial, replies);
      CheckRestart(validateReply, completeReply);
    }
  }
}
