/**
 * The control-lock state machine of `Cobot` as values: the lock flag, the driver handle and
 * the driver calls issued so far.  Each command handler and each move task callback is one
 * atomic step; `Step` says what a step does and `Run` chains steps over a command sequence.
 * The class `CobotControl.Cobot` performs the same steps field by field and is proved against
 * `Step`.
 */
module Control {
  import opened Wrappers
  import opened Driver

  /** The three move callbacks: joint-space, pose and linear. */
  datatype MoveKind = JointMove | PoseMove | LinearMove

  /** A parsed move request (`Move*ControlModel`); only its target vector reaches the driver. */
  datatype MoveModel = MoveModel(target: seq<real>)

  /** How the driver's blocking move ends: normally, by RuntimeError (caught), or by any other exception. */
  datatype MoveOutcome = Completed | RuntimeFailure | OtherFailure

  /** How building a move model from the payload can fail. */
  datatype ParseFailure = JsonDecodeFailure | OtherParseFailure

  /** A call issued to the driver; a move names the robot object the control task was given. */
  datatype DriverOp =
    | ResetError(h: UrScriptExt)
    | Close(h: UrScriptExt)
    | Pause(h: UrScriptExt)
    | Play(h: UrScriptExt)
    | CloseSafetyPopup(h: UrScriptExt)
    | UnlockProtectiveStop(h: UrScriptExt)
    | Move(kind: MoveKind, robot: Option<UrScriptExt>, target: seq<real>)

  /** A driver call together with the value of the lock while it ran. */
  datatype Event = Event(op: DriverOp, lockDuring: bool)

  /** Exceptions a handler lets escape. */
  datatype PyError =
    | MissingHandle          // a method called on `__ur_script_ext` while it is None
    | MissingControlThread   // `join()` on `__ur_script_ext_control_thread`, which is never assigned
    | ParseError(failure: ParseFailure)

  datatype Outcome = Returned | Raised(error: PyError)

  /** `__cobot_control_lock` (True: closed or busy), `__ur_script_ext`, and the calls issued. */
  datatype ControlState = ControlState(lock: bool, handle: Option<UrScriptExt>, trace: seq<Event>)

  /** One delivered command; Enable carries the driver object its construction yields. */
  datatype Command =
    | EnableControl(created: UrScriptExt)
    | DisableControl
    | PauseControl
    | PlayControl
    | CloseSafetyPopupControl
    | UnlockProtectiveStopControl
    | MoveControl(kind: MoveKind, parsed: Result<MoveModel, ParseFailure>, outcome: MoveOutcome)

  datatype StepResult = StepResult(state: ControlState, outcome: Outcome)

  /** The state `__init__` leaves: lock closed, no driver. */
  function Init(): (s: ControlState)
    ensures Valid(s)
  {
    ControlState(true, None, [])
  }

  /**
   * A move task callback.  With the lock open it takes the lock, runs one move on the current
   * handle and releases the lock, unless an exception other than RuntimeError escaped the
   * move.  With the lock closed it issues nothing and sets the lock open.
   */
  function MoveCallback(s: ControlState, kind: MoveKind, m: MoveModel, outcome: MoveOutcome): (r: ControlState)
    ensures r.handle == s.handle && s.trace <= r.trace
    ensures r.trace == s.trace <==> s.lock
    ensures !s.lock ==>
      && |r.trace| == |s.trace| + 1
      && r.trace[|s.trace|].op == Move(kind, s.handle, m.target)
      && r.trace[|s.trace|].lockDuring
    ensures r.lock <==> !s.lock && outcome == OtherFailure
  {
    if !s.lock then
      ControlState(outcome == OtherFailure, s.handle, s.trace + [Event(Move(kind, s.handle, m.target), true)])
    else
      ControlState(false, s.handle, s.trace)
  }

  /**
   * One command handler, run to completion.  Each session handler calls the driver first
   * and sets the lock after, so its call is recorded with the lock value from before.
   */
  function Step(s: ControlState, c: Command): (r: StepResult)
    ensures r.outcome.Raised? && r.outcome.error != MissingControlThread ==> r.state == s
  {
    match c
    case EnableControl(h) =>
      StepResult(ControlState(false, Some(h), s.trace + [Event(ResetError(h), s.lock)]), Returned)
    case DisableControl =>
      if s.handle.None? then StepResult(s, Raised(MissingHandle))
      else StepResult(ControlState(true, s.handle, s.trace + [Event(Close(s.handle.value), s.lock)]),
                      Raised(MissingControlThread))
    case PauseControl =>
      if s.handle.None? then StepResult(s, Raised(MissingHandle))
      else StepResult(ControlState(true, s.handle, s.trace + [Event(Pause(s.handle.value), s.lock)]),
                      Returned)
    case PlayControl =>
      if s.handle.None? then StepResult(s, Raised(MissingHandle))
      else StepResult(ControlState(false, s.handle, s.trace + [Event(Play(s.handle.value), s.lock)]),
                      Returned)
    case CloseSafetyPopupControl =>
      if s.handle.None? then StepResult(s, Raised(MissingHandle))
      else StepResult(ControlState(false, s.handle, s.trace + [Event(CloseSafetyPopup(s.handle.value), s.lock)]),
                      Returned)
    case UnlockProtectiveStopControl =>
      if s.handle.None? then StepResult(s, Raised(MissingHandle))
      else StepResult(ControlState(false, s.handle, s.trace + [Event(UnlockProtectiveStop(s.handle.value), s.lock)]),
                      Returned)
    case MoveControl(kind, parsed, outcome) =>
      match parsed
      case Success(m) => StepResult(MoveCallback(s, kind, m, outcome), Returned)
      case Failure(f) =>
        // only the MoveJ handler catches JSONDecodeError
        if kind == JointMove && f == JsonDecodeFailure then StepResult(s, Returned)
        else StepResult(s, Raised(ParseError(f)))
  }

  /**
   * A handler appends at most one driver call, on the handle held once it returns, and only
   * Enable changes which handle is held.
   */
  lemma StepShape(s: ControlState, c: Command)
    ensures s.trace <= Step(s, c).state.trace && |Step(s, c).state.trace| <= |s.trace| + 1
    ensures |Step(s, c).state.trace| == |s.trace| + 1 ==>
      OpHandle(Step(s, c).state.trace[|s.trace|].op) == Step(s, c).state.handle
    ensures Step(s, c).state.handle != s.handle ==> c.EnableControl?
  {
  }

  /** The commands handled one after another. */
  function Run(s: ControlState, cmds: seq<Command>): (r: ControlState)
    ensures s.trace <= r.trace
    decreases |cmds|
  {
    if cmds == [] then s
    else
      StepShape(s, cmds[0]);
      Run(Step(s, cmds[0]).state, cmds[1..])
  }

  // ----- the invariant every reachable state keeps -----

  /** The handle a driver call was issued on, if any. */
  function OpHandle(op: DriverOp): Option<UrScriptExt>
  {
    if op.Move? then op.robot else Some(op.h)
  }

  /** Some call among the first `n` of `trace` was `reset_error` on `h`. */
  ghost predicate ResetAmong(trace: seq<Event>, n: int, h: UrScriptExt)
  {
    exists j :: 0 <= j < n && j < |trace| && trace[j].op == ResetError(h)
  }

  /** Every call on a handle comes at or after a `reset_error` on it, and so does holding one. */
  ghost predicate ResetFirst(s: ControlState)
  {
    && (s.handle.Some? ==> ResetAmong(s.trace, |s.trace|, s.handle.value))
    && forall i :: 0 <= i < |s.trace| && OpHandle(s.trace[i].op).Some? ==>
         ResetAmong(s.trace, i + 1, OpHandle(s.trace[i].op).value)
  }

  /** Every move the driver ran, ran with the lock closed. */
  ghost predicate MovesUnderLock(trace: seq<Event>)
  {
    forall i :: 0 <= i < |trace| && trace[i].op.Move? ==> trace[i].lockDuring
  }

  ghost predicate Valid(s: ControlState)
  {
    ResetFirst(s) && MovesUnderLock(s.trace)
  }

  lemma ResetAmongExtend(trace: seq<Event>, e: Event, n: int, h: UrScriptExt)
    requires ResetAmong(trace, n, h)
    ensures ResetAmong(trace + [e], n, h)
  {
    var j :| 0 <= j < n && j < |trace| && trace[j].op == ResetError(h);
    assert (trace + [e])[j] == trace[j];
  }

  /** Appending a call on a handle already reset keeps the invariant. */
  lemma AppendPreservesValid(s: ControlState, e: Event, lock: bool, handle: Option<UrScriptExt>)
    requires Valid(s)
    requires handle == s.handle
    requires OpHandle(e.op).Some? ==> OpHandle(e.op) == s.handle
    requires e.op.Move? ==> e.lockDuring
    ensures Valid(ControlState(lock, handle, s.trace + [e]))
  {
    var t := s.trace + [e];
    forall i | 0 <= i < |t| && OpHandle(t[i].op).Some?
      ensures ResetAmong(t, i + 1, OpHandle(t[i].op).value)
    {
      if i < |s.trace| {
        assert t[i] == s.trace[i];
        ResetAmongExtend(s.trace, e, i + 1, OpHandle(t[i].op).value);
      } else {
        ResetAmongExtend(s.trace, e, |s.trace|, s.handle.value);
      }
    }
    if handle.Some? {
      ResetAmongExtend(s.trace, e, |s.trace|, s.handle.value);
    }
  }

  /** Installing a fresh handle with its `reset_error` keeps the invariant. */
  lemma EnablePreservesValid(s: ControlState, h: UrScriptExt)
    requires Valid(s)
    ensures Valid(Step(s, EnableControl(h)).state)
  {
    var e := Event(ResetError(h), s.lock);
    var t := s.trace + [e];
    assert t[|s.trace|] == e;
    assert ResetAmong(t, |t|, h);
    forall i | 0 <= i < |t| && OpHandle(t[i].op).Some?
      ensures ResetAmong(t, i + 1, OpHandle(t[i].op).value)
    {
      if i < |s.trace| {
        assert t[i] == s.trace[i];
        ResetAmongExtend(s.trace, e, i + 1, OpHandle(t[i].op).value);
      }
    }
  }

  /** Each handler keeps the invariant. */
  lemma StepPreservesValid(s: ControlState, c: Command)
    requires Valid(s)
    ensures Valid(Step(s, c).state)
  {
    match c
    case EnableControl(h) => EnablePreservesValid(s, h);
    case DisableControl =>
      if s.handle.Some? { AppendPreservesValid(s, Event(Close(s.handle.value), s.lock), true, s.handle); }
    case PauseControl =>
      if s.handle.Some? { AppendPreservesValid(s, Event(Pause(s.handle.value), s.lock), true, s.handle); }
    case PlayControl =>
      if s.handle.Some? { AppendPreservesValid(s, Event(Play(s.handle.value), s.lock), false, s.handle); }
    case CloseSafetyPopupControl =>
      if s.handle.Some? {
        AppendPreservesValid(s, Event(CloseSafetyPopup(s.handle.value), s.lock), false, s.handle);
      }
    case UnlockProtectiveStopControl =>
      if s.handle.Some? {
        AppendPreservesValid(s, Event(UnlockProtectiveStop(s.handle.value), s.lock), false, s.handle);
      }
    case MoveControl(kind, parsed, outcome) =>
      if parsed.Success? && !s.lock {
        var e := Event(Move(kind, s.handle, parsed.value.target), true);
        AppendPreservesValid(s, e, outcome == OtherFailure, s.handle);
      }
  }

  /** Every state reachable from a valid one keeps the invariant. */
  lemma {:induction false} RunPreservesValid(s: ControlState, cmds: seq<Command>)
    requires Valid(s)
    ensures Valid(Run(s, cmds))
    decreases |cmds|
  {
    if cmds != [] {
      StepPreservesValid(s, cmds[0]);
      RunPreservesValid(Step(s, cmds[0]).state, cmds[1..]);
    }
  }

  // ----- properties of runs -----

  /** Once a handle is held, no handler drops it (Disable closes it but keeps the reference). */
  lemma {:induction false} RunKeepsHandle(s: ControlState, cmds: seq<Command>)
    requires s.handle.Some?
    ensures Run(s, cmds).handle.Some?
    decreases |cmds|
  {
    if cmds != [] {
      RunKeepsHandle(Step(s, cmds[0]).state, cmds[1..]);
    }
  }

  predicate IsEnable(c: Command) { c.EnableControl? }

  /**
   * Without an Enable no handle is ever held, and the only driver calls issued are moves
   * whose control task got no robot: the lock does not keep moves away before Enable.
   */
  lemma {:induction false} RunWithoutEnable(s: ControlState, cmds: seq<Command>)
    requires s.handle.None?
    requires forall k :: 0 <= k < |cmds| ==> !IsEnable(cmds[k])
    ensures Run(s, cmds).handle.None?
    ensures s.trace <= Run(s, cmds).trace
    ensures forall i :: |s.trace| <= i < |Run(s, cmds).trace| ==>
      Run(s, cmds).trace[i].op.Move? && Run(s, cmds).trace[i].op.robot.None?
    decreases |cmds|
  {
    if cmds != [] {
      var s' := Step(s, cmds[0]).state;
      assert !IsEnable(cmds[0]);
      assert s'.handle.None? && s.trace <= s'.trace;
      assert forall i :: |s.trace| <= i < |s'.trace| ==> s'.trace[i].op.Move? && s'.trace[i].op.robot.None?;
      RunWithoutEnable(s', cmds[1..]);
    }
  }

  /** The number of moves among the driver calls. */
  function MoveCount(trace: seq<Event>): nat
  {
    if trace == [] then 0
    else MoveCount(trace[..|trace| - 1]) + (if trace[|trace| - 1].op.Move? then 1 else 0)
  }

  /** The number of move commands among the commands. */
  function MoveCommandCount(cmds: seq<Command>): nat
  {
    if cmds == [] then 0 else (if cmds[0].MoveControl? then 1 else 0) + MoveCommandCount(cmds[1..])
  }

  /** A handler issues a driver move only when it is a move command, and at most one. */
  lemma StepMoveBound(s: ControlState, c: Command)
    ensures MoveCount(Step(s, c).state.trace) <= MoveCount(s.trace) + (if c.MoveControl? then 1 else 0)
  {
  }

  /** At most one driver move per move command: a dropped or refused command issues none. */
  lemma {:induction false} RunMoveBound(s: ControlState, cmds: seq<Command>)
    ensures MoveCount(Run(s, cmds).trace) <= MoveCount(s.trace) + MoveCommandCount(cmds)
    decreases |cmds|
  {
    if cmds != [] {
      StepMoveBound(s, cmds[0]);
      RunMoveBound(Step(s, cmds[0]).state, cmds[1..]);
    }
  }

  // ----- scenarios -----

  /**
   * Right after construction the first move is dropped and reopens the lock, so a second
   * move runs, on a control task without a robot.
   */
  lemma FirstMoveDroppedSecondRuns(k1: MoveKind, m1: MoveModel, o1: MoveOutcome,
                                   k2: MoveKind, m2: MoveModel, o2: MoveOutcome)
    ensures Run(Init(), [MoveControl(k1, Success(m1), o1), MoveControl(k2, Success(m2), o2)])
         == ControlState(o2 == OtherFailure, None, [Event(Move(k2, None, m2.target), true)])
  {
    var c1, c2 := MoveControl(k1, Success(m1), o1), MoveControl(k2, Success(m2), o2);
    var s1 := Step(Init(), c1).state;
    assert s1 == ControlState(false, None, []);
    assert [c1, c2][1..] == [c2];
    assert Run(s1, [c2]) == Step(s1, c2).state by {
      assert [c2][1..] == [];
    }
  }

  /** Pause keeps out one move only: the move after the dropped one runs again. */
  lemma PauseHoldsOffOneMove(s: ControlState, m1: MoveModel, m2: MoveModel, k: MoveKind)
    requires s.handle.Some?
    ensures Run(s, [PauseControl, MoveControl(k, Success(m1), Completed), MoveControl(k, Success(m2), Completed)])
         == ControlState(false, s.handle,
              s.trace + [Event(Pause(s.handle.value), s.lock), Event(Move(k, s.handle, m2.target), true)])
  {
    var c1, c2 := MoveControl(k, Success(m1), Completed), MoveControl(k, Success(m2), Completed);
    var s1 := Step(s, PauseControl).state;
    var s2 := Step(s1, c1).state;
    assert [PauseControl, c1, c2][1..] == [c1, c2];
    assert [c1, c2][1..] == [c2];
    assert [c2][1..] == [];
    assert s2 == ControlState(false, s.handle, s.trace + [Event(Pause(s.handle.value), s.lock)]);
    assert Run(s, [PauseControl, c1, c2]) == Run(s1, [c1, c2]);
    assert Run(s1, [c1, c2]) == Run(s2, [c2]);
    assert Run(s2, [c2]) == Step(s2, c2).state;
  }

  /** Enable then Disable: `reset_error`, then `close` issued while the lock is still open, then the lock closed. */
  lemma EnableThenDisable(s: ControlState, h: UrScriptExt)
    ensures Run(s, [EnableControl(h), DisableControl])
         == ControlState(true, Some(h), s.trace + [Event(ResetError(h), s.lock), Event(Close(h), false)])
  {
    var s1 := Step(s, EnableControl(h)).state;
    assert [EnableControl(h), DisableControl][1..] == [DisableControl];
    assert [DisableControl][1..] == [];
    assert s1.trace + [Event(Close(h), false)] == s.trace + [Event(ResetError(h), s.lock), Event(Close(h), false)];
  }
}
