/**
 * The `Cobot` object: its control lock and driver handle are fields that the command
 * handlers and the move task callbacks assign one after another.  Driver calls are recorded
 * in a ghost trace; each method is proved to perform exactly the step `Control.Step`
 * describes, and so to keep `Control.Valid`.
 */
module CobotControl {
  import opened Wrappers
  import opened Driver
  import opened Control

  class Cobot {
    /** `__rtde_host`, handed to every driver object Enable creates. */
    const rtdeHost: string
    /** `__cobot_control_lock`: True while a move runs, or when motion is shut off. */
    var lock: bool
    /** `__ur_script_ext`. */
    var handle: Option<UrScriptExt>
    /** The driver calls issued so far, each with the lock value while it ran. */
    ghost var trace: seq<Event>

    ghost function State(): ControlState
      reads this
    {
      ControlState(lock, handle, trace)
    }

    ghost predicate Valid()
      reads this
    {
      Control.Valid(State())
    }

    /** `__init__`: the lock starts closed and there is no driver. */
    constructor (rtdeHost: string)
      ensures this.rtdeHost == rtdeHost
      ensures lock && handle == None && trace == []
      ensures State() == Init() && Valid()
    {
      this.rtdeHost := rtdeHost;
      handle := None;
      lock := true;
      trace := [];
    }

    /** `enable_control_command_handler`: a fresh driver object, `reset_error` on it, then the lock opened. */
    method EnableControlCommand() returns (h: UrScriptExt)
      requires Valid()
      modifies this
      ensures Valid() && fresh(h) && h.host == rtdeHost
      ensures handle == Some(h) && !lock
      ensures trace == old(trace) + [Event(ResetError(h), old(lock))]
      ensures State() == Step(old(State()), EnableControl(h)).state
    {
      ghost var before := State();
      h := new UrScriptExt(rtdeHost);
      handle := Some(h);
      trace := trace + [Event(ResetError(h), lock)];
      lock := false;
      EnablePreservesValid(before, h);
    }

    /**
     * `disable_control_command_handler`: `close` on the driver, then the lock closed; the
     * `join()` that follows is on a thread field nothing assigns, so the handler then raises.
     */
    method DisableControlCommand() returns (r: Outcome)
      requires Valid()
      modifies this
      ensures Valid()
      ensures old(handle).None? ==> r == Raised(MissingHandle) && State() == old(State())
      ensures old(handle).Some? ==>
        && r == Raised(MissingControlThread)
        && lock && handle == old(handle)
        && trace == old(trace) + [Event(Close(old(handle).value), old(lock))]
      ensures StepResult(State(), r) == Step(old(State()), DisableControl)
    {
      ghost var before := State();
      StepPreservesValid(before, DisableControl);
      if handle.None? {
        return Raised(MissingHandle);
      }
      ghost var after := Step(before, DisableControl).state;
      assert after == ControlState(true, handle, trace + [Event(Close(handle.value), lock)]);
      trace, lock := trace + [Event(Close(handle.value), lock)], true;
      r := Raised(MissingControlThread);
    }

    /** `pause_control_command_handler`: `pause` on the driver, then the lock closed. */
    method PauseControlCommand() returns (r: Outcome)
      requires Valid()
      modifies this
      ensures Valid()
      ensures old(handle).None? ==> r == Raised(MissingHandle) && State() == old(State())
      ensures old(handle).Some? ==>
        r == Returned && lock && handle == old(handle) && trace == old(trace) + [Event(Pause(old(handle).value), old(lock))]
      ensures StepResult(State(), r) == Step(old(State()), PauseControl)
    {
      ghost var before := State();
      StepPreservesValid(before, PauseControl);
      if handle.None? {
        return Raised(MissingHandle);
      }
      ghost var after := Step(before, PauseControl).state;
      assert after == ControlState(true, handle, trace + [Event(Pause(handle.value), lock)]);
      trace, lock := trace + [Event(Pause(handle.value), lock)], true;
      r := Returned;
    }

    /** `play_control_command_handler`: `play` on the driver, then the lock opened. */
    method PlayControlCommand() returns (r: Outcome)
      requires Valid()
      modifies this
      ensures Valid()
      ensures old(handle).None? ==> r == Raised(MissingHandle) && State() == old(State())
      ensures old(handle).Some? ==>
        r == Returned && !lock && handle == old(handle) && trace == old(trace) + [Event(Play(old(handle).value), old(lock))]
      ensures StepResult(State(), r) == Step(old(State()), PlayControl)
    {
      ghost var before := State();
      StepPreservesValid(before, PlayControl);
      if handle.None? {
        return Raised(MissingHandle);
      }
      ghost var after := Step(before, PlayControl).state;
      assert after == ControlState(false, handle, trace + [Event(Play(handle.value), lock)]);
      trace, lock := trace + [Event(Play(handle.value), lock)], false;
      r := Returned;
    }

    /** `close_safety_popup_control_command_handler`: `close_safety_popup` on the driver, then the lock opened. */
    method CloseSafetyPopupControlCommand() returns (r: Outcome)
      requires Valid()
      modifies this
      ensures Valid()
      ensures old(handle).None? ==> r == Raised(MissingHandle) && State() == old(State())
      ensures old(handle).Some? ==>
        && r == Returned && !lock && handle == old(handle)
        && trace == old(trace) + [Event(CloseSafetyPopup(old(handle).value), old(lock))]
      ensures StepResult(State(), r) == Step(old(State()), CloseSafetyPopupControl)
    {
      ghost var before := State();
      StepPreservesValid(before, CloseSafetyPopupControl);
      if handle.None? {
        return Raised(MissingHandle);
      }
      ghost var after := Step(before, CloseSafetyPopupControl).state;
      assert after == ControlState(false, handle, trace + [Event(CloseSafetyPopup(handle.value), lock)]);
      trace, lock := trace + [Event(CloseSafetyPopup(handle.value), lock)], false;
      r := Returned;
    }

    /** `unlock_protective_stop_control_command_handler`: `unlock_protective_stop` on the driver, then the lock opened. */
    method UnlockProtectiveStopControlCommand() returns (r: Outcome)
      requires Valid()
      modifies this
      ensures Valid()
      ensures old(handle).None? ==> r == Raised(MissingHandle) && State() == old(State())
      ensures old(handle).Some? ==>
        && r == Returned && !lock && handle == old(handle)
        && trace == old(trace) + [Event(UnlockProtectiveStop(old(handle).value), old(lock))]
      ensures StepResult(State(), r) == Step(old(State()), UnlockProtectiveStopControl)
    {
      ghost var before := State();
      StepPreservesValid(before, UnlockProtectiveStopControl);
      if handle.None? {
        return Raised(MissingHandle);
      }
      ghost var after := Step(before, UnlockProtectiveStopControl).state;
      assert after == ControlState(false, handle, trace + [Event(UnlockProtectiveStop(handle.value), lock)]);
      trace, lock := trace + [Event(UnlockProtectiveStop(handle.value), lock)], false;
      r := Returned;
    }

    /**
     * The body shared by the three move task callbacks.  With the lock open: take the lock,
     * run one move of `kind` on a control task built around the current handle, and release
     * the lock unless an exception other than RuntimeError escaped.  With the lock closed:
     * no move, but the lock is set open.
     */
    method RunMoveTask(kind: MoveKind, m: MoveModel, outcome: MoveOutcome)
      requires Valid()
      modifies this
      ensures Valid() && handle == old(handle)
      ensures old(lock) ==> !lock && trace == old(trace)
      ensures !old(lock) ==>
        && lock == (outcome == OtherFailure)
        && trace == old(trace) + [Event(Move(kind, old(handle), m.target), true)]
      ensures State() == MoveCallback(old(State()), kind, m, outcome)
    {
      ghost var before := State();
      if !lock {
        lock := true;
        var robot := handle;   // the control task gets whatever driver object is held, possibly none
        trace := trace + [Event(Move(kind, robot, m.target), lock)];
        if outcome != OtherFailure {
          // the move returned, or raised a RuntimeError that was caught and logged
          lock := false;
        }
      } else {
        lock := false;
      }
      StepPreservesValid(before, MoveControl(kind, Success(m), outcome));
    }

    /** `move_j_control_task_callback`. */
    method MoveJControlTaskCallback(m: MoveModel, outcome: MoveOutcome)
      requires Valid()
      modifies this
      ensures Valid() && handle == old(handle)
      ensures old(lock) ==> !lock && trace == old(trace)
      ensures !old(lock) ==>
        && lock == (outcome == OtherFailure)
        && trace == old(trace) + [Event(Move(JointMove, old(handle), m.target), true)]
    {
      RunMoveTask(JointMove, m, outcome);
    }

    /** `move_p_control_task_callback`. */
    method MovePControlTaskCallback(m: MoveModel, outcome: MoveOutcome)
      requires Valid()
      modifies this
      ensures Valid() && handle == old(handle)
      ensures old(lock) ==> !lock && trace == old(trace)
      ensures !old(lock) ==>
        && lock == (outcome == OtherFailure)
        && trace == old(trace) + [Event(Move(PoseMove, old(handle), m.target), true)]
    {
      RunMoveTask(PoseMove, m, outcome);
    }

    /** `move_l_control_task_callback`. */
    method MoveLControlTaskCallback(m: MoveModel, outcome: MoveOutcome)
      requires Valid()
      modifies this
      ensures Valid() && handle == old(handle)
      ensures old(lock) ==> !lock && trace == old(trace)
      ensures !old(lock) ==>
        && lock == (outcome == OtherFailure)
        && trace == old(trace) + [Event(Move(LinearMove, old(handle), m.target), true)]
    {
      RunMoveTask(LinearMove, m, outcome);
    }

    /**
     * `move_j_control_command_handler`: build the move model and run the callback (on its own
     * thread in the source, here to completion); a JSONDecodeError is caught and logged.
     */
    method MoveJControlCommand(parsed: Result<MoveModel, ParseFailure>, outcome: MoveOutcome) returns (r: Outcome)
      requires Valid()
      modifies this
      ensures Valid()
      ensures parsed.Failure? ==> State() == old(State())
      ensures r == (if parsed == Failure(OtherParseFailure) then Raised(ParseError(OtherParseFailure)) else Returned)
      ensures StepResult(State(), r) == Step(old(State()), MoveControl(JointMove, parsed, outcome))
    {
      match parsed
      case Failure(JsonDecodeFailure) =>
        r := Returned;
      case Failure(f) =>
        r := Raised(ParseError(f));
      case Success(m) =>
        MoveJControlTaskCallback(m, outcome);
        r := Returned;
    }

    /** `move_p_control_command_handler`: as MoveJ, but no parse error is caught. */
    method MovePControlCommand(parsed: Result<MoveModel, ParseFailure>, outcome: MoveOutcome) returns (r: Outcome)
      requires Valid()
      modifies this
      ensures Valid()
      ensures parsed.Failure? ==> State() == old(State()) && r == Raised(ParseError(parsed.error))
      ensures parsed.Success? ==> r == Returned
      ensures StepResult(State(), r) == Step(old(State()), MoveControl(PoseMove, parsed, outcome))
    {
      match parsed
      case Failure(f) =>
        r := Raised(ParseError(f));
      case Success(m) =>
        MovePControlTaskCallback(m, outcome);
        r := Returned;
    }

    /** `move_l_control_command_handler`: as MoveJ, but no parse error is caught. */
    method MoveLControlCommand(parsed: Result<MoveModel, ParseFailure>, outcome: MoveOutcome) returns (r: Outcome)
      requires Valid()
      modifies this
      ensures Valid()
      ensures parsed.Failure? ==> State() == old(State()) && r == Raised(ParseError(parsed.error))
      ensures parsed.Success? ==> r == Returned
      ensures StepResult(State(), r) == Step(old(State()), MoveControl(LinearMove, parsed, outcome))
    {
      match parsed
      case Failure(f) =>
        r := Raised(ParseError(f));
      case Success(m) =>
        MoveLControlTaskCallback(m, outcome);
        r := Returned;
    }
  }

  /** What a caller can conclude from the contracts alone: a fresh Cobot drops its first move and runs the second. */
  method FirstMovesAfterConstruction(host: string, m1: MoveModel, m2: MoveModel)
  {
    var c := new Cobot(host);
    c.MoveJControlTaskCallback(m1, Completed);
    assert c.trace == [] && !c.lock;
    c.MoveJControlTaskCallback(m2, Completed);
    assert c.trace == [Event(Move(JointMove, None, m2.target), true)];
  }
}
