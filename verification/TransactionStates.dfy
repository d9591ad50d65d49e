/** The transition table of the transaction state machine (transaction.state-machine.ts). */
module TransactionStates {

  datatype TransactionState = CREATED | PROCESSING | COMPLETED | ERROR | CANCELED

  datatype TransactionStatus = StatusPending | StatusProcessing | StatusCompleted | StatusFailed | StatusCanceled

  datatype StateTransition = StateTransition(from: TransactionState, to: TransactionState)

  const TRANSITIONS: seq<StateTransition> := [
    StateTransition(CREATED, PROCESSING),
    StateTransition(PROCESSING, COMPLETED),
    StateTransition(PROCESSING, ERROR),
    StateTransition(CREATED, CANCELED),
    StateTransition(PROCESSING, CANCELED),
    StateTransition(ERROR, PROCESSING),
    StateTransition(ERROR, CANCELED)
  ]

  /** Staying in the same state is allowed. */
  predicate IsValidTransition(from: TransactionState, to: TransactionState) {
    from == to || StateTransition(from, to) in TRANSITIONS
  }

  function MapStateToStatus(state: TransactionState): TransactionStatus {
    match state
    case CREATED => StatusPending
    case PROCESSING => StatusProcessing
    case COMPLETED => StatusCompleted
    case ERROR => StatusFailed
    case CANCELED => StatusCanceled
  }

  /** `filter` then `map` over the table. */
  function TargetsFrom(table: seq<StateTransition>, from: TransactionState): (targets: seq<TransactionState>)
    ensures forall to :: to in targets <==> StateTransition(from, to) in table
  {
    if table == [] then [] else (if table[0].from == from then [table[0].to] else []) + TargetsFrom(table[1..], from)
  }

  function GetNextStates(current: TransactionState): seq<TransactionState> {
    TargetsFrom(TRANSITIONS, current)
  }

  lemma TableOf(from: TransactionState, to: TransactionState)
    ensures StateTransition(from, to) in TRANSITIONS <==>
            match from
            case CREATED => to == PROCESSING || to == CANCELED
            case PROCESSING => to == COMPLETED || to == ERROR || to == CANCELED
            case ERROR => to == PROCESSING || to == CANCELED
            case _ => false
  {
    assert TRANSITIONS[0] == StateTransition(CREATED, PROCESSING)
           && TRANSITIONS[1] == StateTransition(PROCESSING, COMPLETED);
    assert TRANSITIONS[2] == StateTransition(PROCESSING, ERROR) && TRANSITIONS[3] == StateTransition(CREATED, CANCELED);
    assert TRANSITIONS[4] == StateTransition(PROCESSING, CANCELED)
           && TRANSITIONS[5] == StateTransition(ERROR, PROCESSING);
    assert TRANSITIONS[6] == StateTransition(ERROR, CANCELED);
  }

  /** The two queries agree with each other: a state can be moved to exactly when it is the current one or a next
      one. */
  lemma {:induction false} NextStatesAreTheOtherValidOnes(from: TransactionState, to: TransactionState)
    ensures IsValidTransition(from, to) <==> to == from || to in GetNextStates(from)
    ensures from !in GetNextStates(from)
  {
    TableOf(from, from);
  }

  /** A history of one transaction: each state follows from the one before. */
  predicate ValidPath(path: seq<TransactionState>) {
    forall k :: 0 <= k < |path| - 1 ==> IsValidTransition(path[k], path[k + 1])
  }

  /** Exactly COMPLETED and CANCELED are absorbing: nothing follows them, whatever is asked and however often. */
  lemma {:induction false} AbsorbingStates(path: seq<TransactionState>, k: nat)
    requires ValidPath(path) && k < |path| && (path[0] == COMPLETED || path[0] == CANCELED)
    ensures path[k] == path[0]
  {
    if k > 0 {
      AbsorbingStates(path, k - 1);
      TableOf(path[k - 1], path[k]);
      assert IsValidTransition(path[k - 1], path[k - 1 + 1]);
    }
  }

  lemma OnlyThoseAreAbsorbing(state: TransactionState)
    ensures GetNextStates(state) == [] <==> state == COMPLETED || state == CANCELED
  {
    TableOf(CREATED, CANCELED);
    TableOf(PROCESSING, CANCELED);
    TableOf(ERROR, CANCELED);
    if GetNextStates(state) != [] {
      TableOf(state, GetNextStates(state)[0]);
    }
    if state != COMPLETED && state != CANCELED {
      assert CANCELED in GetNextStates(state);
    }
  }

  /** Whatever its detours through errors and retries, a transaction that became COMPLETED was PROCESSING before. */
  lemma {:induction false} CompletedWasProcessing(path: seq<TransactionState>, k: nat)
    requires ValidPath(path) && k < |path| && path[0] != COMPLETED && path[k] == COMPLETED
    ensures exists j :: 0 <= j < k && path[j] == PROCESSING && path[j + 1] == COMPLETED
  {
    assert IsValidTransition(path[k - 1], path[k - 1 + 1]);
    TableOf(path[k - 1], path[k]);
    if path[k - 1] == COMPLETED {
      CompletedWasProcessing(path, k - 1);
    }
  }
}
