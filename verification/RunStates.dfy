/** The declared state machine of a run. */
module RunStates {

  datatype RunState =
    | Created | Planning | Running | Completed | Failed | Cancelled
    | BlastRadius | Iterating | Verifying | HaltedMaxIters | HaltedMaxTime

  /** `validTransitions`. */
  function Edges(s: RunState): seq<RunState> {
    match s
    case Running => [Completed, Failed, Cancelled]
    case Created => [BlastRadius, Planning, Cancelled]
    case BlastRadius => [Planning, Failed, Cancelled]
    case Planning => [Iterating, Running, Failed, Cancelled]
    case Iterating => [Verifying, HaltedMaxIters, HaltedMaxTime, Failed, Cancelled]
    case Verifying => [Iterating, Completed, Failed, Cancelled]
    case _ => []
  }

  predicate CanTransition(from: RunState, to: RunState) {
    to in Edges(from)
  }

  predicate Terminal(s: RunState) {
    s == Completed || s == Failed || s == Cancelled || s == HaltedMaxIters || s == HaltedMaxTime
  }

  /** The table, move by move. */
  lemma TransitionTable(from: RunState, to: RunState)
    ensures CanTransition(from, to) <==>
            || (to == Planning && (from == Created || from == BlastRadius))
            || (to == BlastRadius && from == Created)
            || (to == Running && from == Planning)
            || (to == Iterating && (from == Planning || from == Verifying))
            || (to == Verifying && from == Iterating)
            || (to == Completed && (from == Running || from == Verifying))
            || ((to == HaltedMaxIters || to == HaltedMaxTime) && from == Iterating)
            || (to == Failed && !Terminal(from) && from != Created)
            || (to == Cancelled && !Terminal(from))
  {
  }
}
