/** The incident lifecycle (src/engine/incident_machine.py, src/engine/process_event.py). */
module IncidentMachine {
  import opened Basics

  datatype State = OPEN | ACKNOWLEDGED | QUIESCENT | RESOLVED

  datatype Trigger = ACKNOWLEDGE | QUIET_TIMEOUT | QUIET_DEADLINE | RESOLVE | REOPEN

  function TransitionState(current: State, trigger: Trigger): Option<State> {
    match (current, trigger)
    case (OPEN, ACKNOWLEDGE) => Some(ACKNOWLEDGED)
    case (ACKNOWLEDGED, QUIET_TIMEOUT) => Some(QUIESCENT)
    case (ACKNOWLEDGED, QUIET_DEADLINE) => Some(QUIESCENT)
    case (OPEN, RESOLVE) => Some(RESOLVED)
    case (ACKNOWLEDGED, RESOLVE) => Some(RESOLVED)
    case (QUIESCENT, RESOLVE) => Some(RESOLVED)
    case (RESOLVED, REOPEN) => Some(OPEN)
    case _ => None
  }

  predicate IsActive(s: State) { !s.RESOLVED? }

  /** The state of an incident's first alert. */
  function NewIncidentState(firing: bool): State {
    if !firing then RESOLVED else TransitionState(OPEN, ACKNOWLEDGE).GetOr(OPEN)
  }

  /** The state after a repeat alert. */
  function NextState(current: State, firing: bool): State {
    if !firing then TransitionState(current, RESOLVE).GetOr(current)
    else if current.RESOLVED? then
      var reopened := TransitionState(current, REOPEN).GetOr(current);
      TransitionState(reopened, ACKNOWLEDGE).GetOr(reopened)
    else if current.OPEN? then TransitionState(current, ACKNOWLEDGE).GetOr(current)
    else current
  }

  /** `to` is reached from `from` by firing the triggers of the table in order. */
  predicate Follows(from: State, triggers: seq<Trigger>, to: State)
    decreases |triggers|
  {
    if triggers == [] then from == to
    else
      var next := TransitionState(from, triggers[0]);
      next.Some? && Follows(next.value, triggers[1..], to)
  }
}
