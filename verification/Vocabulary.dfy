/** Action types, statuses and reason codes of the orchestrator. */
module Vocabulary {

  /** The types the loops and the dispatcher enqueue; the dispatcher treats any other name as unsupported. */
  datatype ActionType =
    | SetPoolTarget
    | SetBurstPolicy
    | SetPlacementPreference
    | ScaleNodeGroupUp
    | ScaleNodeGroupDown
    | RollbackAction
    | OtherType(name: string)

  function TypeName(t: ActionType): string {
    match t
    case SetPoolTarget => "SetPoolTarget"
    case SetBurstPolicy => "SetBurstPolicy"
    case SetPlacementPreference => "SetPlacementPreference"
    case ScaleNodeGroupUp => "ScaleNodeGroupUp"
    case ScaleNodeGroupDown => "ScaleNodeGroupDown"
    case RollbackAction => "RollbackAction"
    case OtherType(name) => name
  }

  /** The type that a stored name stands for, as the dispatcher tells names apart. */
  function KindOf(name: string): ActionType {
    if name == "SetPoolTarget" then SetPoolTarget
    else if name == "SetBurstPolicy" then SetBurstPolicy
    else if name == "SetPlacementPreference" then SetPlacementPreference
    else if name == "ScaleNodeGroupUp" then ScaleNodeGroupUp
    else if name == "ScaleNodeGroupDown" then ScaleNodeGroupDown
    else if name == "RollbackAction" then RollbackAction
    else OtherType(name)
  }

  /** Names and types stand for each other. */
  lemma KindRoundTrip(name: string, kind: ActionType)
    ensures TypeName(KindOf(name)) == name
    ensures !kind.OtherType? ==> KindOf(TypeName(kind)) == kind
  {
    assert |"SetPoolTarget"| == 13 && |"SetBurstPolicy"| == 14 && |"SetPlacementPreference"| == 22;
    assert |"ScaleNodeGroupUp"| == 16 && |"ScaleNodeGroupDown"| == 18;
    assert "RollbackAction"[0] != "SetBurstPolicy"[0];
  }

  datatype Status =
    | Pending
    | Accepted
    | Queued
    | Running
    | Succeeded
    | Failed
    | Cancelled
    | TimedOut
    | OtherStatus(name: string)

  function StatusFromText(s: string): Status {
    if s == "pending" then Pending
    else if s == "accepted" then Accepted
    else if s == "queued" then Queued
    else if s == "running" then Running
    else if s == "succeeded" then Succeeded
    else if s == "failed" then Failed
    else if s == "cancelled" then Cancelled
    else if s == "timed_out" then TimedOut
    else OtherStatus(s)
  }

  predicate IsRuntimeNonTerminal(s: Status) {
    s == Accepted || s == Queued || s == Running
  }

  predicate IsRuntimeTerminalSuccess(s: Status) {
    s == Succeeded
  }

  predicate IsRuntimeTerminalFailure(s: Status) {
    s == Failed || s == Cancelled || s == TimedOut
  }

  predicate IsTerminal(s: Status) {
    IsRuntimeTerminalSuccess(s) || IsRuntimeTerminalFailure(s)
  }

  /** The text that a status is stored as. */
  function StatusText(s: Status): string {
    match s
    case Pending => "pending"
    case Accepted => "accepted"
    case Queued => "queued"
    case Running => "running"
    case Succeeded => "succeeded"
    case Failed => "failed"
    case Cancelled => "cancelled"
    case TimedOut => "timed_out"
    case OtherStatus(name) => name
  }

  lemma StatusRoundTrip(s: string)
    ensures StatusText(StatusFromText(s)) == s
  {}

  /** The status is one that a stored text stands for. */
  predicate Stored(s: Status) {
    StatusFromText(StatusText(s)) == s
  }

  /** Which texts are running, successful, failed and terminal statuses. */
  lemma StatusClasses(s: Status)
    requires Stored(s)
    ensures IsRuntimeNonTerminal(s) <==> StatusText(s) in {"accepted", "queued", "running"}
    ensures IsRuntimeTerminalSuccess(s) <==> StatusText(s) == "succeeded"
    ensures IsRuntimeTerminalFailure(s) <==> StatusText(s) in {"failed", "cancelled", "timed_out"}
    ensures IsTerminal(s) <==> StatusText(s) in {"succeeded", "failed", "cancelled", "timed_out"}
  {
    assert |"pending"| == 7 && |"accepted"| == 8 && |"queued"| == 6 && |"running"| == 7 && |"succeeded"| == 9;
    assert |"failed"| == 6 && |"cancelled"| == 9 && |"timed_out"| == 9;
    assert "pending"[0] != "running"[0] && "queued"[0] != "failed"[0];
    assert "succeeded"[0] != "cancelled"[0] && "cancelled"[0] != "timed_out"[0] && "succeeded"[0] != "timed_out"[0];
  }

  const RC_TARGET_NOT_FOUND := "ELASTICITY_TARGET_NOT_FOUND"
  const RC_INVALID_ARGUMENT := "ELASTICITY_INVALID_ARGUMENT"
  const RC_RESOURCE_PRESSURE := "ELASTICITY_RESOURCE_PRESSURE"
  const RC_OPERATION_FAILED := "ELASTICITY_OPERATION_FAILED"
  const RC_IDEMPOTENCY_REPLAY := "ELASTICITY_IDEMPOTENCY_REPLAY"
  const RC_ORCH_TTL_EXPIRED := "ORCH_TTL_EXPIRED"
  const RC_ORCH_ROLLBACK_TRIGGERED := "ORCH_ROLLBACK_TRIGGERED"
  const RC_ORCH_ACTION_UNSUPPORTED := "ORCH_ACTION_UNSUPPORTED"
  const RC_ORCH_DEPENDENCY_UNAVAILABLE := "ORCH_DEPENDENCY_UNAVAILABLE"

  const PLATFORM_TENANT_ID := "platform"
  const FAST_LOOP_SECONDS := 5
  const SLOW_LOOP_SECONDS := 120
  const MAX_DISPATCH_BATCH: nat := 100
}
