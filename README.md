# Cobot control lock, modelled in Dafny

The `Cobot` object of `cloud/cobot.py` lets a cloud operator drive a Universal Robots arm
through named device commands. Two of its fields decide whether the arm accepts motion:

- the control lock `__cobot_control_lock`, where True means "closed or busy";
- the driver handle `__ur_script_ext`, which is None until the first Enable.

Each command handler and each move task callback assigns these fields in a fixed order. This
project models that state machine twice and proves the two agree:

- `Control` (control.dfy) states it on values. `Step` runs one handler to completion. `Run`
  chains handlers over a command sequence. The lemmas beside them are about runs.
- `CobotControl.Cobot` (cobot.dfy) is the object itself. Its methods assign `lock` and
  `handle` one after another and append each driver call to a ghost `trace`. Every method is
  proved to perform exactly the `Control.Step` for its command, and to keep `Control.Valid`.

Every trace entry records the value the lock had while the call ran. That is how the model
says that a move runs with the lock held, and that Disable's `close` comes before the lock
is closed.

Three small pure pieces sit next to the state machine:

- `Literal.CheckValidLiteral`: `check_valid_literal`, the six-component payload check.
- `Response.StartTimeResponse`: what every `*_response_handler` returns.
- `Routing.Table` and `Routing.Route`: the method-name registrations of `connect_azure_iot`.

The model follows the code as written, including where it falls short of its own aims:

- A move callback that finds the lock closed issues no move, but it still sets the lock
  open. Right after construction the lock is closed and there is no driver. So the first
  move is dropped and the second one runs, on a control task that has no robot
  (`FirstMoveDroppedSecondRuns`, `RunWithoutEnable`).
- Pause closes the lock against one move only. The next move is dropped and reopens the
  lock, so the move after it runs (`PauseHoldsOffOneMove`).
- Disable closes the driver and the lock. It then calls `join()` on
  `__ur_script_ext_control_thread`. That field is set to None in `__init__` and never
  assigned again, so Disable always ends by raising. The model returns
  `Raised(MissingControlThread)` after the state change.
- A handler that calls a driver method while no driver is held raises before it changes
  anything. The model returns `Raised(MissingHandle)` with the state unchanged.
- Only the MoveJ command handler catches `JSONDecodeError`. MoveP and MoveL let every parse
  failure escape.

The client method `CobotControl.FirstMovesAfterConstruction` replays the first scenario
against the `Cobot` contracts alone: a new object drops its first joint move and issues the
second with no robot.

Inputs that the code gets from the outside world are parameters of the model:

- the outcome of the driver's blocking move: completed, RuntimeError, or any other exception;
- the result of building a move model from the payload;
- the result of `ast.literal_eval`;
- the ISO 8601 start time.

## Model

| member | source | states |
|---|---|---|
| `CobotControl.Cobot.constructor` | cloud/cobot.py:48-58 | a new Cobot has its lock closed (True), no driver and no driver calls; this state satisfies the invariant |
| `CobotControl.Cobot.EnableControlCommand` | cloud/cobot.py:215-221 | from any state: holds a freshly created driver for the configured host, has issued `reset_error` on it (with the old lock value) and ends with the lock open |
| `CobotControl.Cobot.DisableControlCommand` | cloud/cobot.py:233-238 | with a driver: issues `close` on it while the lock still has its old value, then closes the lock, keeps the reference, and raises at the `join()` of the never-assigned thread field; without a driver: raises and changes nothing |
| `CobotControl.Cobot.PauseControlCommand` | cloud/cobot.py:250-254 | with a driver: issues `pause` and closes the lock, same driver held; without one: raises, nothing changes |
| `CobotControl.Cobot.PlayControlCommand` | cloud/cobot.py:266-270 | with a driver: issues `play` and opens the lock, same driver held; without one: raises, nothing changes |
| `CobotControl.Cobot.CloseSafetyPopupControlCommand` | cloud/cobot.py:282-286 | with a driver: issues `close_safety_popup` and opens the lock, same driver held; without one: raises, nothing changes |
| `CobotControl.Cobot.UnlockProtectiveStopControlCommand` | cloud/cobot.py:298-302 | with a driver: issues `unlock_protective_stop` and opens the lock, same driver held; without one: raises, nothing changes |
| `CobotControl.Cobot.RunMoveTask` | cloud/cobot.py:120-143 | lock open: exactly one move of the given kind and target on the held driver (or on none), run with the lock True, and the lock False afterwards unless a non-RuntimeError exception escaped; lock closed: no driver call and the lock ends open; the driver is never changed |
| `CobotControl.Cobot.MoveJControlTaskCallback` | cloud/cobot.py:73-95 | the move callback for a joint move: one joint move with the model's target under the lock when the lock is open, none and lock reopened when it is closed |
| `CobotControl.Cobot.MovePControlTaskCallback` | cloud/cobot.py:120-143 | the same for a pose move |
| `CobotControl.Cobot.MoveLControlTaskCallback` | cloud/cobot.py:166-191 | the same for a linear move |
| `CobotControl.Cobot.MoveJControlCommand` | cloud/cobot.py:97-108 | a parsed model runs the joint move callback; a JSONDecodeError is caught and nothing changes; any other parse failure escapes and nothing changes |
| `CobotControl.Cobot.MovePControlCommand` | cloud/cobot.py:145-154 | a parsed model runs the pose move callback; every parse failure escapes and nothing changes |
| `CobotControl.Cobot.MoveLControlCommand` | cloud/cobot.py:193-202 | a parsed model runs the linear move callback; every parse failure escapes and nothing changes |
| `Control.Init` | cloud/cobot.py:48-58 | the state `__init__` leaves (lock closed, no driver, no calls) satisfies the invariant |
| `Control.MoveCallback` | cloud/cobot.py:73-95 | the shared effect of the three move callbacks (also lines 120-143 and 166-191): the driver is unchanged and calls are only appended; a move is issued iff the lock was open, and then it is exactly one move of that kind, with that target, on the held driver, run with the lock held; the lock ends closed iff it was open and a non-RuntimeError exception escaped |
| `Control.Step` | cloud/cobot.py:73-302 | the reference definition every `Cobot` method is proved against; its contract: a handler that raises anything other than the `join()` error leaves the whole state unchanged |
| `Control.StepShape` | cloud/cobot.py:73-302 | a handler appends at most one driver call, always on the driver held once it returns, and only Enable changes which driver is held |
| `Control.Run` | cloud/cobot.py:394-439 | handlers run one after another on the commands delivered; the calls issued before a run are a prefix of the calls after it |
| `Control.EnablePreservesValid` | cloud/cobot.py:215-221 | installing a driver and issuing `reset_error` on it keeps the invariant: every call on a driver comes at or after a `reset_error` on that driver, and every move ran under the lock |
| `Control.StepPreservesValid` | cloud/cobot.py:73-302 | every handler and callback keeps the invariant |
| `Control.RunPreservesValid` | cloud/cobot.py:73-302 | every state reached by any command sequence keeps the invariant: no driver call precedes that driver's `reset_error`, and no move ran with the lock open |
| `Control.RunKeepsHandle` | cloud/cobot.py:233-238 | once a driver is held, no command sequence drops it; Disable closes it but keeps the reference |
| `Control.RunWithoutEnable` | cloud/cobot.py:92-95 | with no driver and no Enable command, no driver is ever held and every driver call issued is a move whose control task has no robot |
| `Control.StepMoveBound` | cloud/cobot.py:73-95 | a handler issues at most one driver move, and only when it is a move command |
| `Control.RunMoveBound` | cloud/cobot.py:73-95 | a command sequence issues at most as many driver moves as it holds move commands |
| `Control.FirstMoveDroppedSecondRuns` | cloud/cobot.py:58-95 | after construction, the first of two moves issues nothing and opens the lock; the second issues its move with no robot |
| `Control.PauseHoldsOffOneMove` | cloud/cobot.py:250-254 | Pause then two moves: `pause` is issued, the first move is dropped, and the second runs on the held driver with the lock open at the end |
| `Control.EnableThenDisable` | cloud/cobot.py:215-238 | Enable then Disable: `reset_error` then `close` on the new driver, the `close` issued while the lock is still open, and the lock closed at the end with the driver still referenced |
| `Literal.PyLen` | cloud/cobot.py:476 | Python's `len`: it raises TypeError exactly on numbers and None, and counts characters or entries otherwise |
| `Literal.CheckValidLiteral` | cloud/cobot.py:472-488 | True iff the payload evaluates and its `len` is 6; False on ValueError or SyntaxError and on any other length; the TypeError of `len` on a literal without a length escapes |
| `Literal.VectorValidIffSix` | cloud/cobot.py:476-484 | a list of numbers is accepted exactly when it has six components |
| `Response.StartTimeResponse` | cloud/cobot.py:110-118 | the payload decodes back to exactly the start time it was built from: a one-key `{"StartTime": ...}` object as `json.dumps` writes it |
| `Response.ResponseDeterminedByTime` | cloud/cobot.py:223-231 | two responses are equal iff their start times are, whatever the `values` arguments: the argument is ignored |
| `Routing.Route` | cloud/cobot.py:394-439 | a name reaches handler pair `m` iff it is the name `m` is registered under; any other name reaches nothing |
| `Routing.MethodName` | cloud/cobot.py:394-439 | the name each handler pair is registered under is a key of the table that leads back to that pair |
| `Routing.TableIsBijection` | cloud/cobot.py:394-439 | every handler pair is registered under its own name and every registered name leads back to the pair named by it: the table is one-to-one between its names and the nine pairs |
| `Routing.MethodNameInjective` | cloud/cobot.py:394-439 | two handler pairs share a name iff they are the same pair |
| `Routing.MethodOf` | cloud/cobot.py:394-439 | the command family each registered handler handles: the three move pairs handle exactly the move commands |
| `Routing.EveryMethodHandles` | cloud/cobot.py:405-419 | every registered pair handles some command, and the MoveJ, MoveP and MoveL pairs handle the joint, pose and linear moves one-to-one |

## Left out

- Threads and event loops: each move command handler starts its callback on a new `Thread`,
  and each callback runs the move on a new asyncio event loop. The model runs the callback to
  completion inside the handler, so every command is one atomic step. It therefore does not
  capture the data race on the unsynchronised lock flag.
- The URBasic driver: building `UrScriptExt` and its methods `reset_error`, `close`, `pause`,
  `play`, `close_safety_popup` and `unlock_protective_stop` are opaque. Each call appends an
  entry to the ghost trace. A failure to connect while building the driver is not modelled.
- Driver methods that raise: `reset_error`, `close`, `pause`, `play`, `close_safety_popup` and
  `unlock_protective_stop` are assumed to return normally. Each handler sets the lock only after
  its driver call, so a raise would leave the lock as it was. A failed `reset_error` would also
  leave the new driver installed with the lock unchanged, and a failed `close` or `pause` would
  leave the lock open. The model cannot reach those states.
- `CobotControlTask` (cloud/control_task/cobot_control_task.py) is not part of this model. Its
  move is reduced to one trace entry and an outcome parameter. In particular the model does not
  say what that task does when it is given no robot.
- The move model parsers `Move*ControlModel.get_*_from_values` are not part of this model. Their
  result is a parameter.
- `ast.literal_eval` is not modelled; its result, or its ValueError or SyntaxError, is the input of
  `CheckValidLiteral`. The rarer errors it can raise (TypeError, MemoryError, RecursionError) are left out.
- Logging is left out, and so are two fields. `__cobot_control_task` is written by each move
  callback and read only right after, by the same callback, to run the move. In an atomic step
  it behaves as a local variable. `__cobot_control_thread` is written by the move command
  handlers and read only in commented-out code.
- `datetime.now()` is a parameter. `json.dumps(..., sort_keys=True)` is written out for the
  single key it sees. All nine response handlers are the same code, so they are modelled by the
  one function `StartTimeResponse`.
- The dispatch that calls a handler and then its response builder lives in
  `execute_command_listener` of cloud/device.py, which is not part of this model. Only the name
  table is modelled.
- `stdin_listener` polls an XML file once per second (file I/O and sleeping). The device client
  connect, listener and shutdown code in `connect_azure_iot` is network I/O. Both are left out.
- The commented-out stop and IoT handlers are left out.
- cloud/registry_manager_pnp_sample.py and cloud/iot_task/wrist1_iot_task.py are left out: the
  first makes Azure registry calls and the second polls a file and sends telemetry.
- Target vectors are sequences of `real`. Floating point is not modelled; only the number of
  components matters.
