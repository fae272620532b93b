/** The older, dict-based variant of the scanning workflow
    (src/utils/gui_utils.py), stated on values. Its rules differ from the
    controller's: no old-unit guard, no quantity guard, no validation step,
    no PLC signals, the robot number is the string the operator typed, and
    the unit and robot are bound into a component task when it is queued. */
module LegacySpec {
  import opened Text
  import opened Scanning

  /** MAX_RETRIES of this module. */
  const MaxRetries: nat := 2

  /** The station that posts completion, as typed by the operator. */
  const FinalRobot: string := "3"

  /** The keys of `persisted_data` the workflow reads and writes. */
  datatype Data = Data(
    current: Option<string>, // "current_USN"
    counter: nat,            // "counter"
    quantity: int,           // "quantity"
    robot: string)           // "robot_number"

  /** A queued handler with the arguments the model keeps: the unit scan
      for a route check; the unit, the component and the robot number read
      at submission time for an upload. */
  datatype LegacyTask =
    | CheckRouteTask(serial: string)
    | ProcessSerialTask(usn: string, serial: string, robot: string)

  datatype Outcome = Outcome(data: Data, enqueued: seq<LegacyTask>, events: seq<Event>)

  /** The end of a unit: only the counter and the current unit are reset. */
  function Reset(d: Data): Data {
    d.(counter := 0, current := None)
  }

  /** handle_serials_submit: a unit scan is always queued for a route
      check, with a warning if it is the current unit; a component is
      queued with the current unit bound to it, or refused. */
  function Submit(d: Data, scan: string): (r: Outcome)
    ensures r.data == d
    ensures Count(r.events, FailSignal) == 0 && Count(r.events, AnyCall) == 0
    ensures scan == "" ==> r.enqueued == [] && r.events == []
    ensures r.enqueued == [CheckRouteTask(scan)] <==> scan != "" && IsUnitScan(scan)
    ensures IsUnitScan(scan) ==> (r.events == [Status(Error, SameUnitText)] <==> d.current == Some(scan))
    ensures (exists t :: r.enqueued == [t] && t.ProcessSerialTask?)
            <==> scan != "" && !IsUnitScan(scan) && Truthy(d.current)
    ensures scan != "" && !IsUnitScan(scan) && Truthy(d.current)
            ==> r.enqueued == [ProcessSerialTask(d.current.value, scan, d.robot)] && r.events == []
    ensures scan != "" && !IsUnitScan(scan) && !Truthy(d.current)
            ==> r.enqueued == [] && r.events == [Status(Error, NoUnitText)]
  {
    CountSingle(Status(Error, SameUnitText), FailSignal);
    CountSingle(Status(Error, SameUnitText), AnyCall);
    CountSingle(Status(Error, NoUnitText), FailSignal);
    CountSingle(Status(Error, NoUnitText), AnyCall);
    if scan == "" then Outcome(d, [], [])
    else if IsUnitScan(scan) then
      var warning := if Some(scan) == d.current then [Status(Error, SameUnitText)] else [];
      Outcome(d, [CheckRouteTask(scan)], warning)
    else if Truthy(d.current) then Outcome(d, [ProcessSerialTask(d.current.value, scan, d.robot)], [])
    else Outcome(d, [], [Status(Error, NoUnitText)])
  }

  /** process_check_route, given the reply of check_route. */
  function CheckRoute(d: Data, serial: string, reply: string): (r: Outcome)
    ensures r.enqueued == []
    ensures r.data.current == if reply == "OK" && !Truthy(d.current) then Some(serial) else d.current
    ensures r.data.counter == d.counter && r.data.quantity == d.quantity && r.data.robot == d.robot
    ensures |r.events| == 2 && r.events[0] == Remote(CheckRouteCall(serial))
    ensures r.events[1].Status?
    ensures r.events[1].severity == Error <==> !(reply == "OK" && !Truthy(d.current))
  {
    var call := Remote(CheckRouteCall(serial));
    if reply != "OK" then Outcome(d, [], [call, Status(Error, CheckRouteFailedText(serial, reply))])
    else if !Truthy(d.current) then
      Outcome(d.(current := Some(serial)), [], [call, Status(Info, UnitShownText(serial))])
    else Outcome(d, [], [call, Status(Error, SecondUnitText)])
  }

  /** check_restart ends the unit once the counter has reached the
      quantity, except at the final robot when send_complete fails. */
  predicate Restarts(d: Data, robot: string, completeReply: string) {
    d.counter >= d.quantity && (robot == FinalRobot ==> completeReply == "OK")
  }

  /** check_restart for the unit and robot bound to the task, given the
      reply send_complete would give. */
  function CheckRestart(d: Data, usn: string, robot: string, completeReply: string): (r: Outcome)
    ensures r.enqueued == []
    ensures r.data == if Restarts(d, robot, completeReply) then Reset(d) else d
    ensures r.events == [] <==> !(d.counter >= d.quantity && robot == FinalRobot)
    ensures r.events != [] ==> r.events[0] == Remote(CompleteCall(Some(usn))) && |r.events| == 2
  {
    if d.counter >= d.quantity then
      if robot == FinalRobot then
        var call := Remote(CompleteCall(Some(usn)));
        if completeReply != "OK" then
          Outcome(d, [], [call, Status(Error, CompleteFailedText(Some(usn), completeReply))])
        else Outcome(Reset(d), [], [call, Status(Success, CompleteResponseText(Some(usn), completeReply))])
      else Outcome(Reset(d), [], [])
    else Outcome(d, [], [])
  }

  /** The data once the upload loop is over: one more component if an
      attempt returned "OK". */
  function AfterUpload(d: Data, replies: seq<string>): Data
    requires MaxRetries <= |replies|
  {
    if RetryPolicy(replies, MaxRetries).succeeded then d.(counter := d.counter + 1) else d
  }

  /** process_serial for the unit, component and robot bound to the task,
      given the reply of each upload attempt and of send_complete. */
  function ProcessSerial(d: Data, usn: string, serial: string, robot: string, replies: seq<string>,
                         completeReply: string): (r: Outcome)
    requires MaxRetries <= |replies|
    ensures r.enqueued == []
    ensures var mid := AfterUpload(d, replies);
      r.data == if Restarts(mid, robot, completeReply) then Reset(mid) else mid
    ensures r.data.quantity == d.quantity && r.data.robot == d.robot
    ensures Count(r.events, Upload) == RetryPolicy(replies, MaxRetries).attempts
    ensures Count(r.events, FailSignal) == 0
  {
    var mid := AfterUpload(d, replies);
    var upload := UploadLog(Some(usn), serial, replies, MaxRetries, false);
    var restart := CheckRestart(mid, usn, robot, completeReply);
    CountAppend(upload, restart.events, Upload);
    CountAppend(upload, restart.events, FailSignal);
    LegacyRestartCounts(mid, usn, robot, completeReply);
    Outcome(restart.data, [], upload + restart.events)
  }

  lemma LegacyRestartCounts(d: Data, usn: string, robot: string, completeReply: string)
    ensures Count(CheckRestart(d, usn, robot, completeReply).events, Upload) == 0
    ensures Count(CheckRestart(d, usn, robot, completeReply).events, FailSignal) == 0
  {
    var events := CheckRestart(d, usn, robot, completeReply).events;
    if events != [] {
      assert events == [events[0]] + [events[1]];
      CountAppend([events[0]], [events[1]], Upload);
      CountAppend([events[0]], [events[1]], FailSignal);
      CountSingle(events[0], Upload);
      CountSingle(events[1], Upload);
      CountSingle(events[0], FailSignal);
      CountSingle(events[1], FailSignal);
    }
  }
}
