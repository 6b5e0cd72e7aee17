/**
 * The method-name table of `Cobot.connect_azure_iot`: each name the cloud can invoke is
 * attached to one command handler and its response builder.
 */
module Routing {
  import opened Wrappers
  import Driver
  import Control

  /** The nine (handler, response builder) pairs registered with the device client. */
  datatype CommandMethod =
    | Enable | Disable | MoveJ | MoveP | MoveL | Pause | Play | CloseSafetyPopup | UnlockProtectiveStop

  /** The listener registrations, name by name, in the order the source registers them. */
  const Table: map<string, CommandMethod> := map[
    "EnableControlCommand" := Enable,
    "DisableControlCommand" := Disable,
    "MoveJControlCommand" := MoveJ,
    "MovePControlCommand" := MoveP,
    "MoveLControlCommand" := MoveL,
    "PauseControlCommand" := Pause,
    "PlayControlCommand" := Play,
    "CloseSafetyPopupControlCommand" := CloseSafetyPopup,
    "UnlockProtectiveStopControlCommand" := UnlockProtectiveStop
  ]

  /** The name under which each handler pair is registered. */
  function MethodName(m: CommandMethod): (name: string)
    ensures name in Table && Table[name] == m
  {
    match m
    case Enable => "EnableControlCommand"
    case Disable => "DisableControlCommand"
    case MoveJ => "MoveJControlCommand"
    case MoveP => "MovePControlCommand"
    case MoveL => "MoveLControlCommand"
    case Pause => "PauseControlCommand"
    case Play => "PlayControlCommand"
    case CloseSafetyPopup => "CloseSafetyPopupControlCommand"
    case UnlockProtectiveStop => "UnlockProtectiveStopControlCommand"
  }

  /** The handler pair an incoming method name reaches; None for a name nothing listens to. */
  function Route(name: string): (r: Option<CommandMethod>)
    ensures forall m :: r == Some(m) <==> name == MethodName(m)
  {
    if name in Table then Some(Table[name]) else None
  }

  /**
   * The table is one-to-one: every handler pair is registered under its name, and every
   * registered name leads to the pair registered under it, so no two names share a pair.
   */
  lemma TableIsBijection()
    ensures forall m :: MethodName(m) in Table && Table[MethodName(m)] == m
    ensures forall n :: n in Table ==> MethodName(Table[n]) == n
  {
  }

  /** Distinct handler pairs are registered under distinct names. */
  lemma MethodNameInjective(m1: CommandMethod, m2: CommandMethod)
    ensures MethodName(m1) == MethodName(m2) <==> m1 == m2
  {
    TableIsBijection();
  }

  /**
   * The state-machine command each registered pair handles; for the moves, the kind of the
   * move task it starts.  Each pair is the one `CobotControl.Cobot` method of the same name.
   */
  function MethodOf(c: Control.Command): (m: CommandMethod)
    ensures (m == MoveJ || m == MoveP || m == MoveL) <==> c.MoveControl?
  {
    match c
    case EnableControl(_) => Enable
    case DisableControl => Disable
    case PauseControl => Pause
    case PlayControl => Play
    case CloseSafetyPopupControl => CloseSafetyPopup
    case UnlockProtectiveStopControl => UnlockProtectiveStop
    case MoveControl(kind, _, _) =>
      match kind
      case JointMove => MoveJ
      case PoseMove => MoveP
      case LinearMove => MoveL
  }

  /** A representative command of the family each pair handles. */
  function Representative(m: CommandMethod, h: Driver.UrScriptExt): Control.Command
  {
    var move := (k: Control.MoveKind) =>
      Control.MoveControl(k, Success(Control.MoveModel([])), Control.Completed);
    match m
    case Enable => Control.EnableControl(h)
    case Disable => Control.DisableControl
    case Pause => Control.PauseControl
    case Play => Control.PlayControl
    case CloseSafetyPopup => Control.CloseSafetyPopupControl
    case UnlockProtectiveStop => Control.UnlockProtectiveStopControl
    case MoveJ => move(Control.JointMove)
    case MoveP => move(Control.PoseMove)
    case MoveL => move(Control.LinearMove)
  }

  /**
   * Every registered pair handles some command (so no pair is registered without a handler),
   * and the three move pairs handle the three move kinds one-to-one.
   */
  lemma EveryMethodHandles(h: Driver.UrScriptExt)
    ensures forall m :: MethodOf(Representative(m, h)) == m
    ensures forall c1: Control.Command, c2: Control.Command :: c1.MoveControl? && c2.MoveControl? ==>
      (MethodOf(c1) == MethodOf(c2) <==> c1.kind == c2.kind)
  {
  }
}
