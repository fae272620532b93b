# PLC auto-scanning workflow, modelled in Dafny

An operator scans barcodes at a robot station. A scan starting with `WTR`
names a production unit, and any other scan names a component to attach to
the active unit. Each non-empty scan is classified. A unit scan is queued as
a route-check task unless it is the unit completed last. A component scan is
queued as an upload task while a unit is active. Any other scan is refused on
the spot. A worker then runs each queued task against the remote system of
record:

- `check_route` accepts a unit;
- `upload_USN_item_with_barcode_validation` attaches a component, with a
  bounded retry on "unique constraint" replies;
- `validate_hdd` and `send_complete` finish a unit.

The task updates the unit's progress counter and writes status lines. On
failure it also sends a fail signal to the PLC; the controller never sends a
pass signal.

The model covers the controller class `PLCAutoScanningLogic`
(src/backend/logic.py), the older dictionary-based variant of the same
workflow (src/utils/gui_utils.py), and the line id derivation `get_line`
(src/helpers/utils.py, repeated word for word in gui_utils.py).

Layout:

- `text.dfy` (module `Text`): prefix and substring tests (`startswith`,
  `in`), and decimal parsing and printing (`int(...)`, `str(...)`).
- `line_id.dfy` (module `LineId`): `get_line`.
- `scanning.dfy` (module `Scanning`): what both variants share.
  - Units versus components, and Python truthiness of the current unit.
  - The events a task leaves behind: status lines with their severity,
    PLC signals, and remote calls.
  - Counting events by class.
  - The retry policy of the upload loop as a function of the replies.
  - The exact status lines each attempt and the final report produce.
- `queue.dfy` (module `Tasks`): the FIFO `tasks_queue` as a class over a
  sequence.
- `backend_spec.dfy` (module `BackendSpec`): each handler of the controller
  as a function from the session, and the remote replies its calls get, to:
  - the new session,
  - the tasks it queues,
  - the events it produces.
- `backend.dfy` (module `Backend`):
  - the application object `App`, whose fields the handlers update in place;
  - `ScanningLogic`, whose methods are the handlers, the upload loop being
    a `while` loop.

  Each method is proved to leave the object and its log as the matching
  `BackendSpec` function says.
- `backend_laws.dfy` (module `BackendLaws`): properties that relate several
  calls:
  - the completion law,
  - the counter bound over any sequence of steps,
  - the signal counts of the retry paths,
  - the scenarios of the controller's test suite, with the status lines
    each test expects.
- `legacy_spec.dfy`, `legacy.dfy`, `legacy_laws.dfy` (modules `LegacySpec`,
  `Legacy`, `LegacyLaws`): the same for the dictionary-based variant,
  including the ways its outcomes differ from the controller's.
  - `persisted_data` is the class `PersistedData`.
  - The listboxes are the class `Display`.
  - The handlers are methods over those objects and the queue.

Remote replies are parameters, and so is the number of attempts
`MAX_RETRIES` for the controller. The configuration test pins that number
at 5; the legacy module fixes its own at 2. Every remote call is recorded in
the log as an event, so "no completion call away from robot 3" and "the
upload goes to the bound unit" can be stated.

Two signalling details of the controller, modelled as written:

- When the last allowed attempt gets a terminal reply, the controller sends
  two fail signals: one from the loop (src/backend/logic.py:102) and one
  from the "after N retries" report (src/backend/logic.py:114). See
  `BackendLaws.TerminalOnLastAttemptSignalsTwice`.
- A failed `send_complete` sends no fail signal at all
  (src/backend/logic.py:190-195). See
  `BackendLaws.FailedCompleteSendsNoSignal`.

## Model

| member | source | states |
|---|---|---|
| Text.ContainsIffOccurs | src/backend/logic.py:82 | Python's `p in s`: `Contains(s, p)` holds exactly when `p` occurs in `s` at some index. |
| Text.NatToString | src/helpers/utils.py:26 | `str(n)` is canonical (no leading zero unless it is "0"), and parses back to `n`. |
| Text.CanonicalRoundTrip | src/helpers/utils.py:26 | A canonical digit string is reproduced by `str(int(s))`. |
| Text.NatToStringNoLonger | src/helpers/utils.py:26 | `str(int(s))` is never longer than the digit string `s`. |
| LineId.GetLine | src/helpers/utils.py:18-28 | The line id keeps the first two characters and is at most four long. The rest is the canonical form of the number in characters 2..4. |
| LineId.GetLineOfDefaultWorkstation | tests/helpers/test_utils.py:9-12 | "3L06B1AO17" gives line "3L6". |
| LineId.GetLineReadsOnlyHead | src/helpers/utils.py:19-20 | Two workstation names that agree on their first four characters get the same line. |
| LineId.GetLineDropsLeadingZero | src/utils/gui_utils.py:322-332 | A leading zero of the two-digit line number is dropped; any other pair is kept as it is. |
| LineId.GetLineIdempotent | src/helpers/utils.py:18-28 | A line id is a valid workstation name that maps to itself. |
| Scanning.RetryFrom | src/backend/logic.py:57-105 | The loop from attempt i on makes between i+1 and MAX_RETRIES attempts. Every attempt but the last got a "unique constraint" reply. It stops early only on a non-retryable reply. It succeeded exactly when the last reply was "OK". |
| Scanning.RetryPolicy | src/backend/logic.py:57-105 | The same for the whole loop, from attempt 0. |
| Scanning.RetryPolicyStopsAt | src/backend/logic.py:57-105 | The loop makes exactly k attempts when the first k-1 are retried and the k-th stops it (or is the last). |
| Scanning.AttemptEventsCounts | src/backend/logic.py:58-105 | Each attempt makes one upload call and no completion call. It signals failure exactly when its reply is terminal and signals are on. |
| Scanning.AttemptsLog | src/backend/logic.py:57-105 | The log of n attempts holds n upload calls and no completion call. |
| Scanning.AttemptsLogFailSignals | src/backend/logic.py:82-105 | A loop whose earlier replies were all retried has sent one fail signal if its last reply was terminal, and none otherwise. |
| Scanning.FinalFailureCounts | src/backend/logic.py:107-114 | The "after N retries" report makes no call and one fail signal (none in the legacy variant). |
| Scanning.UploadLog | src/backend/logic.py:57-114 | The loop and report make one upload call per attempt and no completion call. The fail signals are 0 on success, 2 for a terminal reply at the last attempt, and 1 otherwise. |
| Scanning.ExhaustedRetriesReported | src/backend/logic.py:107-114 | When every reply is "unique constraint", all MAX_RETRIES attempts are made and fail. The log ends with the report quoting the last reply. |
| Tasks.TaskQueue.constructor | src/backend/logic.py:16 | The queue starts empty. |
| Tasks.TaskQueue.Put | src/backend/logic.py:35-38 | `tasks_queue.put` appends the task at the back. |
| Tasks.TaskQueue.Get | src/backend/logic.py:213 | `tasks_queue.get` hands out the oldest task and removes it. |
| BackendSpec.Submit | src/backend/logic.py:23-43 | A unit scan is queued for a route check unless it is the old unit. A component is queued only while a unit is active. Every refused non-empty scan gets exactly one fail signal. No scan calls the remote system or changes the session. |
| BackendSpec.CheckRoute | src/backend/logic.py:119-154 | check_route is called once. The unit becomes current exactly when the reply is "OK" and no unit is active. Any other outcome sends one fail signal and changes nothing. |
| BackendSpec.ValidationRejected | src/backend/logic.py:160-180 | A rejected validation sends one fail signal and makes no completion or upload call. |
| BackendSpec.Completed | src/backend/logic.py:181-202 | A confirmed validation at robot 3 makes one completion call and sends no signal. |
| BackendSpec.CheckRestart | src/backend/logic.py:156-208 | The unit is reset (counter 0, the unit becomes the old one) exactly when the counter reached the quantity, validate_hdd gives the robot's goal without "NG", and at robot 3 send_complete answers "OK". Below the quantity nothing happens. Completion is called only at robot 3 after a confirmed validation. A fail signal is sent exactly when validation does not confirm. |
| BackendSpec.ProcessSerial | src/backend/logic.py:45-117 | At the quantity, the component is refused with one fail signal and nothing changes. Otherwise the counter grows by one exactly when an attempt got "OK", then check_restart runs. Upload calls equal the attempts the policy makes. The counter bound is kept. |
| BackendLaws.TerminalOnLastAttemptSignalsTwice | src/backend/logic.py:96-114 | A terminal reply at the last attempt leaves the session unchanged and sends two fail signals. |
| BackendLaws.EarlyTerminalSignalsOnce | src/backend/logic.py:82-105 | A terminal reply at attempt k before the last ends the loop after k+1 uploads with one fail signal. |
| BackendLaws.ExhaustedRetries | src/backend/logic.py:107-114 | MAX_RETRIES "unique constraint" replies make MAX_RETRIES uploads and leave the counter unchanged. The task ends with the report and one fail signal. |
| BackendLaws.FirstRetryText | tests/backend/test_logic.py:141-166 | The first retry warning reads "Retrying for <serial> due to unique constraint error. Attempt 1". |
| BackendLaws.ThirdRetryFailureText | tests/backend/test_logic.py:169-185 | With 3 attempts the report reads "Upload Failed after 3 retries for <serial>: unique constraint". |
| BackendLaws.RetryThenAcceptedLog | tests/backend/test_logic.py:141-166 | The loop's log for "unique constraint" then "OK", event by event. |
| BackendLaws.RetryThenAccepted | tests/backend/test_logic.py:141-166 | "unique constraint" then "OK": two uploads, the test's status lines in order, and the counter up by one. |
| BackendLaws.ThreeUniqueConstraintReplies | tests/backend/test_logic.py:169-185 | Three "unique constraint" replies with 3 attempts: the counter is unchanged and the log ends with the report and a fail signal. |
| BackendLaws.CompletionLaw | src/backend/logic.py:156-208 | After exactly as many accepted components as the unit still needs, the unit is either reset or, if validation or completion fails, still active with the counter at the quantity. |
| BackendLaws.FirstRobotScenario | tests/backend/test_logic.py:296-305 | Robot 1, quantity 24: "WTR1" is queued and accepted. 24 components with validate_hdd "24" finish it: counter 0, "WTR1" is the old unit, no unit is active. |
| BackendLaws.FinalRobotCompleteFails | tests/backend/test_logic.py:276-293 | Robot 3, quantity 72, send_complete "ERROR": the unit stays active with the counter at 72. |
| BackendLaws.FailedCompleteSendsNoSignal | src/backend/logic.py:183-195 | A failed send_complete is reported as "Complete Failed for <unit>: <reply>". It makes one completion call, sends no fail signal, and leaves the session as it was. |
| BackendLaws.SameUnitScanRefused | tests/backend/test_logic.py:87-98 | Scanning the unit that was just completed is refused with "The current USN is the same as the scanned before." and one fail signal; nothing is queued. |
| BackendLaws.InvalidScanRefused | tests/backend/test_logic.py:53-62 | "INVALID" with no active unit is refused with "Please scan a valid L10." and one fail signal; nothing is queued. |
| BackendLaws.UnitScanQueued | tests/backend/test_logic.py:65-72 | "WTR1234567" is queued as a route check, with no status line and no signal. |
| BackendLaws.ComponentScanQueued | tests/backend/test_logic.py:75-84 | "USN123" with unit "WTR123DDE21" active is queued as an upload, with no status line and no signal. |
| BackendLaws.QuantityLimitRefused | tests/backend/test_logic.py:104-113 | At counter 24 of 24 a component is refused with "Quantity limit reached." and one fail signal, with no upload call. |
| BackendLaws.FirstAttemptAccepted | tests/backend/test_logic.py:116-126 | An "OK" reply at the first attempt makes one upload call, logs "Upload Response for SERIAL123: OK" and counts the component once. |
| BackendLaws.FirstAttemptError | tests/backend/test_logic.py:129-138 | A plain "ERROR" reply at the first attempt makes one upload call, logs "Upload Failed for SERIAL123: ERROR" with one fail signal, and leaves the session as it was. |
| BackendLaws.RouteCheckShowsUnit | tests/backend/test_logic.py:191-199 | A route check answered "OK" makes the scanned unit current and shows "USN: WTR1234567". |
| BackendLaws.RouteCheckFailureReported | tests/backend/test_logic.py:202-215 | A failed route check logs "Check Route Failed for WTR1234567: ROUTE ERROR" with one fail signal; the session is unchanged. |
| BackendLaws.SecondUnitRefused | tests/backend/test_logic.py:218-234 | A second unit scanned while one is active is refused with "Please scan a valid Serial or Validator" and one fail signal; the active unit stays. |
| BackendLaws.NotGoodReported | tests/backend/test_logic.py:240-255 | An "NG" validation reply logs the HDD/validator mismatch error for the active unit with one fail signal and no completion call. |
| BackendLaws.MismatchReported | tests/backend/test_logic.py:258-273 | A validated quantity of 48 against the goal 24 logs "HDD Quantity Mismatch for WTRCURRENT123: Expected 24, Got 48" with one fail signal and no completion call. |
| BackendLaws.CompletionReported | tests/backend/test_logic.py:308-328 | At robot 3 a confirmed unit is completed: validation and completion calls, "Complete Response for WTRCURRENT123: OK", and the session resets with the unit kept as the previous one. |
| BackendLaws.SubmitAll | src/backend/logic.py:23-43 | Scans submitted one after another, each seeing the session the previous one left, never change the session. The queued tasks are exactly those `BackendLaws.Requested` lists, in scan order: a route check per unit scan other than the old unit, and an upload per component scan while a unit is active. Every non-empty scan is either queued or answered with one fail signal, and no scan calls the remote system. |
| BackendLaws.IdleComponentScansRejected | src/backend/logic.py:36-43 | With no active unit, each component scan is rejected with "Please scan a valid L10." and a fail signal, and nothing is queued. |
| BackendLaws.Apply | src/backend/logic.py:23-208 | At robot numbers 1..3, no task changes quantity or robot number, every task keeps the counter bound, and a unit only ends through the reset. |
| BackendLaws.RunKeepsCounterBounded | src/backend/logic.py:47-52 | From a bounded session, any sequence of scans and tasks, with any replies, keeps the counter at or below the quantity, at robot numbers 1..3. |
| BackendLaws.InitialIsBounded | src/gui/interface.py:26-31 | The application starts with the counter at 0. |
| Backend.App.constructor | src/gui/interface.py:26-31 | No current unit, no old unit, counter 0, an empty log. |
| Backend.ScanningLogic.HandleSerialsSubmit | src/backend/logic.py:23-43 | The object, the log and the queue change exactly as `BackendSpec.Submit` says. |
| Backend.ScanningLogic.ProcessCheckRoute | src/backend/logic.py:119-154 | The object and log change exactly as `BackendSpec.CheckRoute` says. |
| Backend.ScanningLogic.CheckRestart | src/backend/logic.py:156-208 | The object and log change exactly as `BackendSpec.CheckRestart` says. |
| Backend.ScanningLogic.Attempt | src/backend/logic.py:58-105 | One attempt appends that attempt's events and counts the component only on "OK". |
| Backend.ScanningLogic.UploadLoop | src/backend/logic.py:57-105 | The loop leaves `successful_upload`, `attempt` and `response` as the retry policy says. The counter grows by one exactly on success. The log grows by the attempts made. |
| Backend.ScanningLogic.Upload | src/backend/logic.py:57-114 | The loop and the final report leave the object and log as `BackendSpec.AfterUpload` and `Scanning.UploadLog` say. |
| Backend.ScanningLogic.ProcessSerial | src/backend/logic.py:45-117 | The object and log change exactly as `BackendSpec.ProcessSerial` says. |
| LegacySpec.Submit | src/utils/gui_utils.py:40-96 | A unit scan is always queued, with a warning only if it is the current unit. A component is queued with the current unit and robot number bound, or refused with a status line. No signal or remote call is made. |
| LegacySpec.CheckRoute | src/utils/gui_utils.py:179-213 | check_route is called once. The unit becomes current exactly when the reply is "OK" and no unit is active; every other outcome is reported as an error. |
| LegacySpec.CheckRestart | src/utils/gui_utils.py:216-252 | At the quantity the unit is reset, except at robot "3" when send_complete fails. Completion is called only at robot "3". Only counter and current unit are reset. |
| LegacySpec.ProcessSerial | src/utils/gui_utils.py:99-176 | There is no quantity guard. The counter grows on an accepted upload, then check_restart runs. The upload calls match the policy with 2 attempts, and no fail signal is ever sent. |
| Legacy.HandleSerialsSubmit | src/utils/gui_utils.py:40-96 | The display and queue change exactly as `LegacySpec.Submit` says. |
| Legacy.ProcessCheckRoute | src/utils/gui_utils.py:179-213 | The data and display change exactly as `LegacySpec.CheckRoute` says. |
| Legacy.CheckRestart | src/utils/gui_utils.py:216-252 | The data and display change exactly as `LegacySpec.CheckRestart` says. |
| Legacy.Attempt | src/utils/gui_utils.py:115-157 | One attempt appends its events, without a signal, and counts the component only on "OK". |
| Legacy.UploadLoop | src/utils/gui_utils.py:114-157 | The loop's flags, counter and display match the retry policy with 2 attempts. |
| Legacy.Upload | src/utils/gui_utils.py:114-165 | The loop and the final report leave data and display as `LegacySpec.AfterUpload` and `Scanning.UploadLog` say. |
| Legacy.ProcessSerial | src/utils/gui_utils.py:99-176 | The data and display change exactly as `LegacySpec.ProcessSerial` says. |
| LegacyLaws.BelowKeptAwayFromFinalRobot | src/utils/gui_utils.py:225-252 | Away from robot "3", a component task keeps the counter at 0 or below the quantity. |
| LegacyLaws.CounterPassesQuantityAtFinalRobot | src/utils/gui_utils.py:226-252 | At robot "3", once a failed send_complete has left the counter at or past the quantity, any component accepted at the first attempt raises the counter by one, past the quantity, because this variant has no quantity guard. |
| LegacyLaws.BothAttemptsFailReported | src/utils/gui_utils.py:159-165 | When both attempts fail the counter is unchanged. The log ends with "Upload Failed after 2 retries for <serial>: <second reply>", and no signal is sent. |
| LegacyLaws.UploadUsesBoundUnit | src/utils/gui_utils.py:76-93 | The upload goes to the unit bound when the task was queued, not to the current unit. |
| LegacyLaws.RepeatedUnitRecheckedAndRefused | src/utils/gui_utils.py:55-75 | Re-scanning the current unit queues a second route check. That check is refused whatever check_route answers, and the unit stays. |

## Left out

- The worker threads (`start_tasks_workers`, `task_done`) are not modelled, and neither is any interleaving between them. Each task is modelled as running to completion on its own; the queue is the `Tasks` class.
- Tasks.TaskQueue.Get: the source's `get(block=True)` waits while the queue is empty; the model requires a non-empty queue instead.
- `time.sleep(RETRY_DELAY)` between attempts is left out; it only delays.
- The PLC I/O of `send_signal` is modelled as a `Signal(ok)` event. Its robot number and line arguments are not recorded.
- The remote system of record is not modelled: its replies are parameters, and always strings.
- A missing result, where the reply is `None`, is not modelled. `find_xml_value` returns `None` when the reply has no result element (src/sfcs/sfcs_lib.py:24-29).
  - `check_route` and `send_complete` compare the reply with "OK", so `None` takes their error path.
  - `"unique constraint" in response` raises `TypeError` on `None` (src/backend/logic.py:82, src/utils/gui_utils.py:135).
  - `"NG" in current_qty` raises `TypeError` on `None` (src/backend/logic.py:164).
  - The exception leaves the task. The worker has only `try`/`finally` (src/backend/logic.py:214-217), so the worker thread dies.
- Transport exceptions are not modelled. An exception from `requests.post` (src/sfcs/sfcs_lib.py:20) propagates in the same way; it does not become an error string.
- Tkinter labels (`update_labels`) and the clearing of listboxes are not modelled. The colour of a status line and the listbox it goes to are encoded by its `Scanning.Severity`.
- Configuration, environment and file I/O (`config.py`, `.env`, the allowed users file, `get_workstation_name`, `resource_path`) and `main.py` are not part of this model.
- LineId.GetLine: requires the characters at 2..4 to be ASCII digits. Python's `int` also accepts a sign, surrounding whitespace and other Unicode digits, and raises `ValueError` otherwise; neither is modelled.
- BackendSpec.CheckRestart: requires `GoalKnown`, so the `KeyError` that `ROUTES["GC"][robot_number]` raises for a robot number outside 1..3 is excluded. The precondition applies only when the lookup is actually reached.
- BackendSpec.ProcessSerial: requires `GoalLookupSafe` for the same `KeyError`, and at least one attempt (`MAX_RETRIES >= 1`); with none, `attempt` is unbound in the source.
- Backend.App.constructor: quantity and robot number start as `None` in the application and are entered by the operator later. The model starts once both are set.
- The `ROUTES` goals are a constant map (1 → "24", 2 → "48", 3 → "72"). The controller's `MAX_RETRIES` is a parameter (`maxRetries`) rather than the 5 that tests/test_config.py expects.
- `get_line` in src/utils/gui_utils.py is textually the same as in src/helpers/utils.py and is modelled once, by `LineId.GetLine`.
