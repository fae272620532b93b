/** The task handlers of src/utils/gui_utils.py as methods over the
    `persisted_data` dictionary, the two listboxes and the module's
    `tasks_queue`, each proved to leave them as the matching function of
    LegacySpec describes. */
module Legacy {
  import opened Text
  import opened Scanning
  import opened LegacySpec
  import opened Tasks

  /** The `persisted_data` dictionary, reduced to the keys the handlers
      read and write. */
  class PersistedData {
    var currentUsn: Option<string>
    var counter: nat
    var quantity: int
    var robotNumber: string

    /** The dictionary once robot number and quantity are entered. */
    constructor(robotNumber: string, quantity: int)
      ensures State() == Data(None, 0, quantity, robotNumber)
    {
      currentUsn := None;
      counter := 0;
      this.quantity := quantity;
      this.robotNumber := robotNumber;
    }

    function State(): Data
      reads this
    {
      Data(currentUsn, counter, quantity, robotNumber)
    }
  }

  /** The response and error listboxes, merged into one trail of status
      lines and remote calls in the order they happen. */
  class Display {
    var log: seq<Event>

    constructor()
      ensures log == []
    {
      log := [];
    }

    /** update_listbox, or a call to the remote system. */
    method Emit(e: Event)
      modifies this
      ensures log == old(log) + [e]
    {
      log := log + [e];
    }
  }

  /** handle_serials_submit. */
  method HandleSerialsSubmit(scan: string, data: PersistedData, display: Display,
                             queue: TaskQueue<LegacyTask>)
    modifies display, queue
    ensures var r := Submit(old(data.State()), scan);
      && display.log == old(display.log) + r.events
      && queue.items == old(queue.items) + r.enqueued
  {
    var currentUsn := data.currentUsn;
    var robotNumber := data.robotNumber;
    if scan != "" {
      if StartsWith(scan, UnitPrefix) {
        if Some(scan) == currentUsn {
          display.Emit(Status(Error, SameUnitText));
        }
        queue.Put(CheckRouteTask(scan));
      } else {
        if currentUsn.Some? && currentUsn.value != "" {
          queue.Put(ProcessSerialTask(currentUsn.value, scan, robotNumber));
        } else {
          display.Emit(Status(Error, NoUnitText));
        }
      }
    }
  }

  /** process_check_route, given the reply of check_route. */
  method ProcessCheckRoute(serial: string, reply: string, data: PersistedData, display: Display)
    modifies data`currentUsn, display
    ensures var r := CheckRoute(old(data.State()), serial, reply);
      data.State() == r.data && display.log == old(display.log) + r.events
  {
    display.Emit(Remote(CheckRouteCall(serial)));
    if reply != "OK" {
      display.Emit(Status(Error, CheckRouteFailedText(serial, reply)));
    } else {
      var currentUsn := data.currentUsn;
      if !(currentUsn.Some? && currentUsn.value != "") {
        data.currentUsn := Some(serial);
        display.Emit(Status(Info, UnitShownText(serial)));
      } else {
        display.Emit(Status(Error, SecondUnitText));
      }
    }
  }

  /** check_restart for the unit and robot number bound to the task. */
  method CheckRestart(usn: string, robotNumber: string, completeReply: string,
                      data: PersistedData, display: Display)
    modifies data`counter, data`currentUsn, display
    ensures var r := LegacySpec.CheckRestart(old(data.State()), usn, robotNumber, completeReply);
      data.State() == r.data && display.log == old(display.log) + r.events
  {
    var shouldRestart := false;
    if data.counter >= data.quantity {
      if robotNumber == FinalRobot {
        display.Emit(Remote(CompleteCall(Some(usn))));
        if completeReply != "OK" {
          display.Emit(Status(Error, CompleteFailedText(Some(usn), completeReply)));
        } else {
          display.Emit(Status(Success, CompleteResponseText(Some(usn), completeReply)));
          shouldRestart := true;
        }
      } else {
        shouldRestart := true;
      }
    }
    if shouldRestart {
      data.counter := 0;
      data.currentUsn := None;
    }
  }

  /** One pass of the upload loop; this variant never signals the PLC. */
  method Attempt(usn: string, serial: string, response: string, attempt: nat,
                 data: PersistedData, display: Display)
    modifies data`counter, display
    ensures display.log == old(display.log) + AttemptEvents(Some(usn), serial, response, attempt, false)
    ensures data.counter == old(data.counter) + (if response == "OK" then 1 else 0)
  {
    display.Emit(Remote(UploadCall(Some(usn), serial)));
    if response == "OK" {
      data.counter := data.counter + 1;
      display.Emit(Status(Success, UploadResponseText(serial, response)));
    } else if Contains(response, UniqueConstraint) {
      display.Emit(Status(Error, UploadFailedText(serial, response)));
      display.Emit(Status(Warning, RetryingText(serial, attempt)));
    } else {
      display.Emit(Status(Error, UploadFailedText(serial, response)));
    }
  }

  /** Attempt number i of the loop, with the reply `replies[i]`: the log
      of attempts 0..i-1 grows into the log of attempts 0..i. */
  method AttemptAt(usn: string, serial: string, replies: seq<string>, i: nat, ghost log0: seq<Event>,
                   data: PersistedData, display: Display)
    requires i < |replies|
    requires display.log == log0 + AttemptsLog(Some(usn), serial, replies[..i], false)
    modifies data`counter, display
    ensures display.log == log0 + AttemptsLog(Some(usn), serial, replies[..i + 1], false)
    ensures data.counter == old(data.counter) + (if replies[i] == "OK" then 1 else 0)
  {
    Attempt(usn, serial, replies[i], i, data, display);
    AttemptsLogExtend(log0, Some(usn), serial, replies, i, false);
  }

  /** The `for attempt in range(MAX_RETRIES)` loop of process_serial.
      Returns `successful_upload`, and `attempt` and `response` as the loop
      leaves them. */
  method UploadLoop(usn: string, serial: string, replies: seq<string>,
                    data: PersistedData, display: Display)
    returns (successfulUpload: bool, attempt: nat, response: string)
    requires MaxRetries <= |replies|
    modifies data`counter, display
    ensures attempt < MaxRetries
    ensures RetryPolicy(replies, MaxRetries) == RetryRun(attempt + 1, successfulUpload, response)
    ensures data.counter == old(data.counter) + (if successfulUpload then 1 else 0)
    ensures display.log == old(display.log) + AttemptsLog(Some(usn), serial, replies[..attempt + 1], false)
  {
    ghost var log0 := display.log;
    successfulUpload := false;
    attempt := 0;
    response := "";
    var i := 0;
    while i < MaxRetries
      invariant 0 <= i <= MaxRetries
      invariant i < MaxRetries ==> RetryFrom(replies, MaxRetries, i) == RetryPolicy(replies, MaxRetries)
      invariant i == MaxRetries ==> RetryPolicy(replies, MaxRetries) == RetryRun(i, false, response)
      invariant data.counter == old(data.counter)
      invariant display.log == log0 + AttemptsLog(Some(usn), serial, replies[..i], false)
      invariant i > 0 ==> attempt == i - 1 && response == replies[i - 1]
    {
      attempt := i;
      response := replies[i];
      AttemptAt(usn, serial, replies, i, log0, data, display);
      if response == "OK" {
        successfulUpload := true;
        break;
      } else if !Contains(response, UniqueConstraint) {
        break;
      }
      i := i + 1;
    }
  }

  /** The upload loop followed by the report of an upload that failed at
      the last allowed attempt. */
  method Upload(usn: string, serial: string, replies: seq<string>, data: PersistedData, display: Display)
    requires MaxRetries <= |replies|
    modifies data`counter, display
    ensures data.State() == AfterUpload(old(data.State()), replies)
    ensures display.log == old(display.log) + UploadLog(Some(usn), serial, replies, MaxRetries, false)
  {
    var successfulUpload, attempt, response := UploadLoop(usn, serial, replies, data, display);
    ghost var attempts := display.log;
    if !successfulUpload && attempt == MaxRetries - 1 {
      display.Emit(Status(Error, FinalFailureText(serial, MaxRetries, response)));
      assert display.log == attempts + FinalFailure(serial, MaxRetries, response, false);
    } else {
      assert display.log == attempts + [];
    }
  }

  /** process_serial for the unit, component and robot number bound to the
      task: no quantity guard, the upload, then check_restart. */
  method ProcessSerial(usn: string, serial: string, robotNumber: string, replies: seq<string>,
                       completeReply: string, data: PersistedData, display: Display)
    requires MaxRetries <= |replies|
    modifies data`counter, data`currentUsn, display
    ensures var r := LegacySpec.ProcessSerial(old(data.State()), usn, serial, robotNumber, replies,
                                              completeReply);
      data.State() == r.data && display.log == old(display.log) + r.events
  {
    Upload(usn, serial, replies, data, display);
    CheckRestart(usn, robotNumber, completeReply, data, display);
  }
}
