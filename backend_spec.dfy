/** The scan-session state machine of `PLCAutoScanningLogic`
    (src/backend/logic.py), stated on values: each task is a function from
    the session before it, and the replies of the remote calls it makes, to
    the session after it, the tasks it enqueues and the events it leaves
    behind. The classes in module Backend are proved against these
    functions. */
module BackendSpec {
  import opened Text
  import opened Scanning

  /** ROUTES["GC"]: the HDD quantity the system of record must report for
      a finished unit, per robot station. */
  const Goals: map<int, string> := map[1 := "24", 2 := "48", 3 := "72"]

  /** The one station that posts completion to the system of record. */
  const FinalRobot: int := 3

  /** The fields of the application object the controller reads and writes. */
  datatype Session = Session(
    current: Option<string>,  // current_USN: the unit being assembled
    previous: Option<string>, // old_USN: the unit completed last
    counter: nat,             // components accepted for the current unit
    quantity: int,            // the target number of components
    robot: int)               // robot_number: the station's role

  /** The application's state once the operator has entered robot number
      and quantity. */
  function Initial(robot: int, quantity: int): Session {
    Session(None, None, 0, quantity, robot)
  }

  /** An entry of `tasks_queue`: the handler and its bound argument. */
  datatype Task = CheckRouteTask(serial: string) | ProcessSerialTask(serial: string)

  datatype Outcome = Outcome(session: Session, enqueued: seq<Task>, events: seq<Event>)

  /** The end of a unit: the counter restarts and the unit becomes the old one. */
  function Reset(s: Session): Session {
    s.(counter := 0, previous := s.current, current := None)
  }

  /** The counter never passes the target; a target below 1 leaves it at 0. */
  predicate Bounded(s: Session) {
    s.counter == 0 || s.counter <= s.quantity
  }

  /** Quantity and robot number are configuration: no task changes them. */
  predicate SameConfig(s: Session, t: Session) {
    t.quantity == s.quantity && t.robot == s.robot
  }

  /** An error status line followed by a fail signal to the PLC. */
  function Rejection(text: string): seq<Event> {
    [Status(Error, text), Signal(false)]
  }

  lemma RejectionCounts(text: string)
    ensures Count(Rejection(text), FailSignal) == 1
    ensures Count(Rejection(text), AnyCall) == 0
    ensures Count(Rejection(text), Upload) == 0
    ensures Count(Rejection(text), Completion) == 0
  {
    var log := Rejection(text);
    assert log == [Status(Error, text)] + [Signal(false)];
    forall c: EventClass
      ensures Count(log, c) == Count([Status(Error, text)], c) + Count([Signal(false)], c)
    {
      CountAppend([Status(Error, text)], [Signal(false)], c);
      CountSingle(Status(Error, text), c);
      CountSingle(Signal(false), c);
    }
  }

  /** A remote call followed by further events. */
  lemma CallThenCounts(call: Call, rest: seq<Event>, c: EventClass)
    ensures Count([Remote(call)] + rest, c)
            == (if InClass(Remote(call), c) then 1 else 0) + Count(rest, c)
  {
    CountAppend([Remote(call)], rest, c);
    CountSingle(Remote(call), c);
  }

  /** handle_serials_submit: classify the scan and queue the task for it,
      or reject it at once. */
  function Submit(s: Session, scan: string): (r: Outcome)
    ensures r.session == s
    ensures r.enqueued in {[], [CheckRouteTask(scan)], [ProcessSerialTask(scan)]}
    ensures scan == "" ==> r.enqueued == [] && r.events == []
    ensures r.enqueued == [CheckRouteTask(scan)] <==> IsUnitScan(scan) && s.previous != Some(scan)
    ensures r.enqueued == [ProcessSerialTask(scan)]
            <==> scan != "" && !IsUnitScan(scan) && Truthy(s.current)
    ensures Count(r.events, FailSignal) == if scan != "" && r.enqueued == [] then 1 else 0
    ensures Count(r.events, AnyCall) == 0
  {
    RejectionCounts(SameUnitText);
    RejectionCounts(NoUnitText);
    if scan == "" then Outcome(s, [], [])
    else if IsUnitScan(scan) then
      if s.previous == Some(scan) then Outcome(s, [], Rejection(SameUnitText))
      else Outcome(s, [CheckRouteTask(scan)], [])
    else if Truthy(s.current) then Outcome(s, [ProcessSerialTask(scan)], [])
    else Outcome(s, [], Rejection(NoUnitText))
  }

  /** The route check accepts a unit only when no unit is active. */
  predicate RouteAccepted(s: Session, reply: string) {
    reply == "OK" && !Truthy(s.current)
  }

  /** process_check_route, given the reply of check_route(serial). */
  function CheckRoute(s: Session, serial: string, reply: string): (r: Outcome)
    ensures r.enqueued == []
    ensures r.session.current == if RouteAccepted(s, reply) then Some(serial) else s.current
    ensures r.session.counter == s.counter && r.session.previous == s.previous && SameConfig(s, r.session)
    ensures |r.events| >= 1 && r.events[0] == Remote(CheckRouteCall(serial))
    ensures Count(r.events, AnyCall) == 1
    ensures Count(r.events, FailSignal) == if RouteAccepted(s, reply) then 0 else 1
  {
    var call := Remote(CheckRouteCall(serial));
    if reply != "OK" then
      CallThenCounts(call.call, Rejection(CheckRouteFailedText(serial, reply)), AnyCall);
      CallThenCounts(call.call, Rejection(CheckRouteFailedText(serial, reply)), FailSignal);
      RejectionCounts(CheckRouteFailedText(serial, reply));
      Outcome(s, [], [call] + Rejection(CheckRouteFailedText(serial, reply)))
    else if !Truthy(s.current) then
      var shown := [Status(Info, UnitShownText(serial))];
      CallThenCounts(call.call, shown, AnyCall);
      CallThenCounts(call.call, shown, FailSignal);
      CountSingle(shown[0], AnyCall);
      CountSingle(shown[0], FailSignal);
      Outcome(s.(current := Some(serial)), [], [call] + shown)
    else
      CallThenCounts(call.call, Rejection(SecondUnitText), AnyCall);
      CallThenCounts(call.call, Rejection(SecondUnitText), FailSignal);
      RejectionCounts(SecondUnitText);
      Outcome(s, [], [call] + Rejection(SecondUnitText))
  }

  /** `ROUTES["GC"][robot_number]` is evaluated only once the counter has
      reached the quantity; for another robot number it raises KeyError. */
  predicate GoalKnown(s: Session) {
    s.counter >= s.quantity ==> s.robot in Goals
  }

  /** validate_hdd's reply confirms the unit: no "NG" marker, and exactly
      the goal of this robot, compared as strings. */
  predicate QuantityConfirmed(s: Session, validateReply: string)
    requires s.robot in Goals
  {
    !Contains(validateReply, "NG") && validateReply == Goals[s.robot]
  }

  /** check_restart ends the unit exactly when the counter has reached the
      quantity, validate_hdd confirms it, and, at the final robot only,
      send_complete answers "OK". */
  predicate Restarts(s: Session, validateReply: string, completeReply: string)
    requires GoalKnown(s)
  {
    && s.counter >= s.quantity
    && QuantityConfirmed(s, validateReply)
    && (s.robot == FinalRobot ==> completeReply == "OK")
  }

  function NotGoodText(usn: Option<string>): string {
    "Error: HDD Quantity and Validators Quantity don't match for " + Show(usn)
  }

  function MismatchText(usn: Option<string>, goal: string, got: string): string {
    "HDD Quantity Mismatch for " + Show(usn) + ": Expected " + goal + ", Got " + got
  }

  /** Counting in a log of three events. */
  lemma CountThree(a: Event, b: Event, c: Event, k: EventClass)
    ensures Count([a, b, c], k)
            == (if InClass(a, k) then 1 else 0) + (if InClass(b, k) then 1 else 0)
               + (if InClass(c, k) then 1 else 0)
  {
    assert [a, b, c] == [a, b] + [c] && [a, b] == [a] + [b];
    CountAppend([a, b], [c], k);
    CountAppend([a], [b], k);
    CountSingle(a, k);
    CountSingle(b, k);
    CountSingle(c, k);
  }

  /** The log of a validation that rejects the unit. */
  function ValidationRejected(usn: Option<string>, text: string): (log: seq<Event>)
    ensures Count(log, FailSignal) == 1 && Count(log, Completion) == 0 && Count(log, Upload) == 0
  {
    CountThree(Remote(ValidateHddCall(usn)), Status(Error, text), Signal(false), FailSignal);
    CountThree(Remote(ValidateHddCall(usn)), Status(Error, text), Signal(false), Completion);
    CountThree(Remote(ValidateHddCall(usn)), Status(Error, text), Signal(false), Upload);
    [Remote(ValidateHddCall(usn)), Status(Error, text), Signal(false)]
  }

  /** The log of a validation that confirms the unit at the final robot:
      send_complete is called and its reply reported, with no signal. */
  function Completed(usn: Option<string>, completeReply: string): (log: seq<Event>)
    ensures Count(log, FailSignal) == 0 && Count(log, Completion) == 1 && Count(log, Upload) == 0
  {
    var status := if completeReply != "OK" then Status(Error, CompleteFailedText(usn, completeReply))
                  else Status(Success, CompleteResponseText(usn, completeReply));
    CountThree(Remote(ValidateHddCall(usn)), Remote(CompleteCall(usn)), status, FailSignal);
    CountThree(Remote(ValidateHddCall(usn)), Remote(CompleteCall(usn)), status, Completion);
    CountThree(Remote(ValidateHddCall(usn)), Remote(CompleteCall(usn)), status, Upload);
    [Remote(ValidateHddCall(usn)), Remote(CompleteCall(usn)), status]
  }

  /** check_restart, given the replies validate_hdd and send_complete would
      give. */
  function CheckRestart(s: Session, validateReply: string, completeReply: string): (r: Outcome)
    requires GoalKnown(s)
    ensures r.enqueued == []
    ensures r.session == if Restarts(s, validateReply, completeReply) then Reset(s) else s
    ensures s.counter < s.quantity ==> r.events == []
    ensures s.counter >= s.quantity ==> |r.events| >= 1 && r.events[0] == Remote(ValidateHddCall(s.current))
    ensures s.counter >= s.quantity && Contains(validateReply, "NG")
            ==> r.events == [Remote(ValidateHddCall(s.current))] + Rejection(NotGoodText(s.current))
    ensures Count(r.events, Completion)
            == if s.counter >= s.quantity && QuantityConfirmed(s, validateReply) && s.robot == FinalRobot
               then 1 else 0
    ensures Count(r.events, FailSignal)
            == if s.counter >= s.quantity && !QuantityConfirmed(s, validateReply) then 1 else 0
    ensures Count(r.events, Upload) == 0
  {
    if s.counter < s.quantity then Outcome(s, [], [])
    else
      var goal := Goals[s.robot];
      if Contains(validateReply, "NG") then
        Outcome(s, [], ValidationRejected(s.current, NotGoodText(s.current)))
      else if validateReply != goal then
        Outcome(s, [], ValidationRejected(s.current, MismatchText(s.current, goal, validateReply)))
      else if s.robot == FinalRobot then
        var events := Completed(s.current, completeReply);
        if completeReply != "OK" then Outcome(s, [], events) else Outcome(Reset(s), [], events)
      else
        CountSingle(Remote(ValidateHddCall(s.current)), Completion);
        CountSingle(Remote(ValidateHddCall(s.current)), FailSignal);
        CountSingle(Remote(ValidateHddCall(s.current)), Upload);
        Outcome(Reset(s), [], [Remote(ValidateHddCall(s.current))])
  }

  const QuantityLimitText: string := "Quantity limit reached."

  /** The session once the upload loop is over: one more component if an
      attempt returned "OK". */
  function AfterUpload(s: Session, replies: seq<string>, maxRetries: nat): Session
    requires 1 <= maxRetries <= |replies|
  {
    if RetryPolicy(replies, maxRetries).succeeded then s.(counter := s.counter + 1) else s
  }

  /** The ROUTES lookup in the check_restart that ends process_serial is
      reached only when the upload brought the counter to the quantity. */
  predicate GoalLookupSafe(s: Session, replies: seq<string>, maxRetries: nat)
    requires 1 <= maxRetries <= |replies|
  {
    s.counter < s.quantity ==> GoalKnown(AfterUpload(s, replies, maxRetries))
  }

  /** process_serial: refuse the component once the quantity is reached;
      otherwise run the upload loop over `replies` (the reply of each
      attempt) and then check_restart. */
  function ProcessSerial(s: Session, serial: string, replies: seq<string>, maxRetries: nat,
                         validateReply: string, completeReply: string): (r: Outcome)
    requires 1 <= maxRetries <= |replies|
    requires GoalLookupSafe(s, replies, maxRetries)
    ensures r.enqueued == [] && SameConfig(s, r.session)
    ensures s.counter >= s.quantity ==> r.session == s && r.events == Rejection(QuantityLimitText)
    ensures s.counter < s.quantity ==>
      var mid := AfterUpload(s, replies, maxRetries);
      && r.session == (if Restarts(mid, validateReply, completeReply) then Reset(mid) else mid)
      && Count(r.events, Upload) == RetryPolicy(replies, maxRetries).attempts
    ensures Bounded(s) ==> Bounded(r.session)
  {
    if s.counter >= s.quantity then Outcome(s, [], Rejection(QuantityLimitText))
    else
      var mid := AfterUpload(s, replies, maxRetries);
      var upload := UploadLog(s.current, serial, replies, maxRetries, true);
      var restart := CheckRestart(mid, validateReply, completeReply);
      CountAppend(upload, restart.events, Upload);
      Outcome(restart.session, [], upload + restart.events)
  }
}
