/** The liquidity-intent record shared by the store and the executor
    (RepLen-backend/internal/intent/intent.go). Times are whole numbers on
    one clock; `Amount` is a real, since the backend never computes on it. */
module Intent {

  import opened Wrappers

  /** The three actions an intent may ask for. */
  datatype ActionType = AddLiquidity | RemoveLiquidity | Rebalance

  /** The string each action is stored as. */
  function ActionCode(a: ActionType): string
  {
    match a
    case AddLiquidity => "ADD"
    case RemoveLiquidity => "REMOVE"
    case Rebalance => "REBALANCE"
  }

  /** The four states of an intent's life. */
  datatype IntentStatus = Pending | Executed | Failed | Cancelled

  /** The string each status is stored as. */
  function StatusCode(s: IntentStatus): string
  {
    match s
    case Pending => "PENDING"
    case Executed => "EXECUTED"
    case Failed => "FAILED"
    case Cancelled => "CANCELLED"
  }

  lemma ActionCodesDistinct(a: ActionType, b: ActionType)
    ensures ActionCode(a) == ActionCode(b) <==> a == b
  {
  }

  lemma StatusCodesDistinct(s: IntentStatus, t: IntentStatus)
    ensures StatusCode(s) == StatusCode(t) <==> s == t
  {
  }

  /** A user's declared liquidity intent. `executedAt` is None (a nil
      pointer) until the intent has been executed. */
  datatype LenIntent = LenIntent(
    id: string,
    action: ActionType,
    address: string,
    poolId: string,
    amount: real,
    signedBy: string,
    status: IntentStatus,
    createdAt: int,
    executeAt: int,
    executedAt: Option<int>)

  /** The record's own consistency rule: an execution time is present
      exactly when the intent has been executed. */
  predicate StampedIffExecuted(i: LenIntent)
  {
    i.executedAt.Some? <==> i.status == Executed
  }

  /** `j` differs from `i` at most in its status and its execution time. */
  predicate SameRequest(i: LenIntent, j: LenIntent)
  {
    && j.id == i.id
    && j.action == i.action
    && j.address == i.address
    && j.poolId == i.poolId
    && j.amount == i.amount
    && j.signedBy == i.signedBy
    && j.createdAt == i.createdAt
    && j.executeAt == i.executeAt
  }

}
