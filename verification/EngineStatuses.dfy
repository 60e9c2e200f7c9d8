/**
 * Which edges of the transition table each writer takes, and what that makes of an incident's
 * status over whole runs (src/engine/process_event.py, src/engine/timer_worker.py,
 * src/inbound/reconcile.py).
 */
module EngineStatuses {
  import opened Basics
  import opened IncidentMachine
  import opened StormGrouping
  import opened EngineRuns
  import opened EngineSafety
  import opened EngineTheorems

  // ---- the triggers of each writer ----------------------------------------------------------------

  /** A resolved alert resolves what is active; a firing one acknowledges, after reopening what was resolved. */
  function FiredByAlert(from: State, firing: bool): seq<Trigger> {
    if !firing then if from.RESOLVED? then [] else [RESOLVE]
    else match from
      case OPEN => [ACKNOWLEDGE]
      case RESOLVED => [REOPEN, ACKNOWLEDGE]
      case _ => []
  }

  /** An action fires its trigger once, where the table has it. */
  function FiredByAction(from: State, kind: EngineRuns.Kind): seq<Trigger> {
    match kind
    case Acknowledge => if from.OPEN? then [ACKNOWLEDGE] else []
    case Resolve => if from.RESOLVED? then [] else [RESOLVE]
    case Unknown => []
  }

  /** The triggers the event fires at incident `id`; its first event fires none. */
  function Fires(w: World, e: Event, id: nat): seq<Trigger> {
    if id !in w.g.incidents || e.id != id then []
    else
      var from := w.g.incidents[id].status;
      match e
      case Alert(_, firing, _, _, _, _, _, _, _, _) => FiredByAlert(from, firing)
      case Bypass(_, _, _, _) => []
      case QuietDeadline(_) => if from.ACKNOWLEDGED? then [QUIET_DEADLINE] else []
      case External(inboundId, kind, _) => if inboundId in w.inbound then [] else FiredByAction(from, kind)
  }

  /** The status an incident's first event gives it. */
  function Began(e: Event): State {
    if e.Alert? && !e.firing then RESOLVED else ACKNOWLEDGED
  }

  lemma AlertFollows(from: State, firing: bool)
    ensures Follows(from, FiredByAlert(from, firing), NextState(from, firing))
  {
    assert Follows(OPEN, [ACKNOWLEDGE], ACKNOWLEDGED);
    assert [REOPEN, ACKNOWLEDGE][1..] == [ACKNOWLEDGE];
  }

  lemma StepFollows(w: World, e: Event, id: nat)
    requires Plausible(w, e) && id in w.g.incidents
    ensures id in Next(w, e).g.incidents
    ensures Follows(w.g.incidents[id].status, Fires(w, e, id), Next(w, e).g.incidents[id].status)
  {
    match e
    case Alert(other, firing, _, _, _, _, _, _, _, _) =>
      AlertStatus(w, e, id);
      AlertFollows(w.g.incidents[id].status, firing);
    case Bypass(_, _, _, _) =>
    case QuietDeadline(_) =>
    case External(inboundId, kind, other) => ExternalFollows(w, inboundId, kind, other, id);
  }

  lemma ExternalStatus(w: World, inboundId: string, kind: EngineRuns.Kind, other: nat, id: nat)
    requires id in w.g.incidents
    ensures var after := AfterExternal(w, inboundId, kind, other);
            && after.g.incidents.Keys == w.g.incidents.Keys
            && (after.g.incidents[id].status == w.g.incidents[id].status
                || (id == other && TriggerFor(kind).Some?
                    && TransitionState(w.g.incidents[id].status, TriggerFor(kind).value)
                       == Some(after.g.incidents[id].status)))
  {
  }

  lemma ExternalFollows(w: World, inboundId: string, kind: EngineRuns.Kind, other: nat, id: nat)
    requires id in w.g.incidents
    ensures var after := AfterExternal(w, inboundId, kind, other);
            && id in after.g.incidents
            && Follows(w.g.incidents[id].status, Fires(w, External(inboundId, kind, other), id),
                       after.g.incidents[id].status)
  {
    var status := ExternalIs(w, inboundId, kind, other);
    ExternalStatus(w, inboundId, kind, other, id);
    if status.Some? {
      var h := Restated(w.g, other, status.value);
      if h.incidents[other].group.Some? { RefreshKeepsRows(h, h.incidents[other].group.value); }
    }
  }

  lemma StepBegins(w: World, e: Event, id: nat)
    requires Plausible(w, e) && id !in w.g.incidents && id in Next(w, e).g.incidents
    ensures (e.Alert? || e.Bypass?) && e.id == id && Next(w, e).g.incidents[id].status == Began(e)
  {
    match e
    case Alert(_, _, _, _, _, _, _, _, _, _) => AlertStatus(w, e, id);
    case Bypass(_, _, _, _) =>
    case QuietDeadline(_) =>
    case External(inboundId, kind, other) => ExternalAddsNone(w, inboundId, kind, other);
  }

  lemma ExternalAddsNone(w: World, inboundId: string, kind: EngineRuns.Kind, other: nat)
    ensures AfterExternal(w, inboundId, kind, other).g.incidents.Keys == w.g.incidents.Keys
  {
    var status := ExternalIs(w, inboundId, kind, other);
    if status.Some? {
      var h := Restated(w.g, other, status.value);
      if h.incidents[other].group.Some? { RefreshKeepsRows(h, h.incidents[other].group.value); }
    }
  }

  // ---- whole runs -----------------------------------------------------------------------------------

  lemma RunStepFollows(run: seq<World>, events: seq<Event>, k: nat, id: nat)
    requires IsRun(run, events) && k < |events| && id in run[k].g.incidents
    ensures id in run[k + 1].g.incidents
    ensures Follows(run[k].g.incidents[id].status, Fires(run[k], events[k], id), run[k + 1].g.incidents[id].status)
  {
    RunStep(run, events, k);
    StepFollows(run[k], events[k], id);
  }

  lemma RunBegins(run: seq<World>, events: seq<Event>, k: nat, id: nat)
    requires IsRun(run, events) && k < |events| && id !in run[k].g.incidents && id in run[k + 1].g.incidents
    ensures (events[k].Alert? || events[k].Bypass?) && events[k].id == id
    ensures run[k + 1].g.incidents[id].status == Began(events[k])
  {
    RunStep(run, events, k);
    StepBegins(run[k], events[k], id);
  }

  /** Nothing ever drops an incident. */
  lemma {:induction false} IncidentsStay(run: seq<World>, events: seq<Event>, j: nat, k: nat, id: nat)
    requires IsRun(run, events) && j <= k < |run| && id in run[j].g.incidents
    ensures id in run[k].g.incidents
  {
    if j < k {
      IncidentsStay(run, events, j, k - 1, id);
      RunStepFollows(run, events, k - 1, id);
    }
  }

  /** All triggers the events from place `j` up to `k` fire at incident `id`, in order. */
  ghost function Fired(run: seq<World>, events: seq<Event>, j: nat, k: nat, id: nat): seq<Trigger>
    requires j <= k < |run| && k <= |events|
  {
    if j == k then [] else Fired(run, events, j, k - 1, id) + Fires(run[k - 1], events[k - 1], id)
  }

  lemma {:induction false} FollowsThrough(from: State, ts: seq<Trigger>, mid: State, us: seq<Trigger>, to: State)
    requires Follows(from, ts, mid) && Follows(mid, us, to)
    ensures Follows(from, ts + us, to)
    decreases |ts|
  {
    if ts == [] { assert ts + us == us; }
    else {
      assert (ts + us)[0] == ts[0] && (ts + us)[1..] == ts[1..] + us;
      FollowsThrough(TransitionState(from, ts[0]).value, ts[1..], mid, us, to);
    }
  }

  /** Triggers leave no choice. */
  lemma {:induction false} FollowsOnce(from: State, ts: seq<Trigger>, to: State, other: State)
    requires Follows(from, ts, to)
    ensures Follows(from, ts, other) <==> other == to
    decreases |ts|
  {
    if ts != [] { FollowsOnce(TransitionState(from, ts[0]).value, ts[1..], to, other); }
  }

  lemma {:induction false} StretchFollows(run: seq<World>, events: seq<Event>, j: nat, k: nat, id: nat)
    requires IsRun(run, events) && j <= k < |run| && id in run[j].g.incidents
    ensures id in run[k].g.incidents
    ensures Follows(run[j].g.incidents[id].status, Fired(run, events, j, k, id), run[k].g.incidents[id].status)
  {
    if j < k {
      StretchFollows(run, events, j, k - 1, id);
      RunStepFollows(run, events, k - 1, id);
      FollowsThrough(run[j].g.incidents[id].status, Fired(run, events, j, k - 1, id), run[k - 1].g.incidents[id].status,
                     Fires(run[k - 1], events[k - 1], id), run[k].g.incidents[id].status);
    }
  }

  /**
   * Over any stretch of any run an incident's status is the one the transition table gives for
   * exactly the triggers the events fire at it, in order; and the table has an edge for each.
   */
  lemma StatusWalksTheTable(run: seq<World>, events: seq<Event>, j: nat, k: nat, id: nat)
    requires IsRun(run, events) && j <= k < |run| && id in run[j].g.incidents
    ensures id in run[k].g.incidents
    ensures forall to :: Follows(run[j].g.incidents[id].status, Fired(run, events, j, k, id), to)
                         <==> to == run[k].g.incidents[id].status
  {
    StretchFollows(run, events, j, k, id);
    var from, ts := run[j].g.incidents[id].status, Fired(run, events, j, k, id);
    forall to ensures Follows(from, ts, to) <==> to == run[k].g.incidents[id].status {
      FollowsOnce(from, ts, run[k].g.incidents[id].status, to);
    }
  }

  /** An incident starts acknowledged, or resolved if its first alert was, and goes on from there. */
  lemma {:induction false} StatusBeginsAndWalks(run: seq<World>, events: seq<Event>, k: nat, id: nat) returns (born: nat)
    requires IsRun(run, events) && k < |run| && id in run[k].g.incidents
    ensures born < k && (forall i :: 0 <= i <= born ==> id !in run[i].g.incidents)
    ensures id in run[born + 1].g.incidents
    ensures (events[born].Alert? || events[born].Bypass?) && events[born].id == id
    ensures Follows(Began(events[born]), Fired(run, events, born + 1, k, id), run[k].g.incidents[id].status)
  {
    if id in run[k - 1].g.incidents {
      born := StatusBeginsAndWalks(run, events, k - 1, id);
    } else {
      born := k - 1;
      forall i | 0 <= i <= born ensures id !in run[i].g.incidents {
        if id in run[i].g.incidents { IncidentsStay(run, events, i, born, id); }
      }
    }
    RunBegins(run, events, born, id);
    StatusWalksTheTable(run, events, born + 1, k, id);
  }

  // ---- what follows ---------------------------------------------------------------------------------

  lemma NeverBackToOpen(w: World, e: Event, id: nat)
    requires Plausible(w, e) && id in Next(w, e).g.incidents
    requires id in w.g.incidents ==> !w.g.incidents[id].status.OPEN?
    ensures !Next(w, e).g.incidents[id].status.OPEN?
  {
    if id in w.g.incidents {
      StepFollows(w, e, id);
      TriggersMove(w, e, id, Next(w, e).g.incidents[id].status);
    } else {
      StepBegins(w, e, id);
    }
  }

  /** No committed state has an open incident: what is new or reopened is acknowledged at once. */
  lemma {:induction false} OpenIsNeverCommitted(run: seq<World>, events: seq<Event>, k: nat, id: nat)
    requires IsRun(run, events) && k < |run| && id in run[k].g.incidents
    ensures !run[k].g.incidents[id].status.OPEN?
  {
    if k > 0 {
      RunStep(run, events, k - 1);
      if id in run[k - 1].g.incidents { OpenIsNeverCommitted(run, events, k - 1, id); }
      NeverBackToOpen(run[k - 1], events[k - 1], id);
    }
  }

  /** An action from outside that acknowledges is applied exactly if it is new and finds its incident open. */
  lemma AcknowledgedExactlyIfOpen(w: World, inboundId: string, id: nat)
    ensures var after := AfterExternal(w, inboundId, EngineRuns.Acknowledge, id);
            (inboundId !in w.inbound && after.inbound == w.inbound[inboundId := Applied])
            <==> (inboundId !in w.inbound && id in w.g.incidents && w.g.incidents[id].status.OPEN?)
  {
    var after := AfterExternal(w, inboundId, EngineRuns.Acknowledge, id);
    if inboundId !in w.inbound {
      assert after.inbound[inboundId].Applied? <==> id in w.g.incidents && w.g.incidents[id].status.OPEN?;
    }
  }

  /**
   * So an acknowledgement from outside never finds an edge to take: however it comes, no
   * incident, group or ledger row changes, and a new one is recorded as ignored.
   */
  lemma AcknowledgementsChangeNothing(run: seq<World>, events: seq<Event>, k: nat)
    requires IsRun(run, events) && k < |events| && events[k].External? && events[k].kind.Acknowledge?
    ensures var x := events[k].inboundId;
            run[k + 1] == if x in run[k].inbound then run[k] else run[k].(inbound := run[k].inbound[x := Ignored])
  {
    RunStep(run, events, k);
    if events[k].id in run[k].g.incidents { OpenIsNeverCommitted(run, events, k, events[k].id); }
  }

  ghost predicate Refires(e: Event, id: nat) {
    e.Alert? && e.id == id && e.firing
  }

  /** A resolved alert for the incident, or an action that resolves it and is no replay. */
  ghost predicate Resolves(w: World, e: Event, id: nat) {
    (e.Alert? && e.id == id && !e.firing) || (e.External? && e.id == id && e.kind.Resolve? && e.inboundId !in w.inbound)
  }

  /** Where one event takes an incident that is not open. */
  ghost function Moved(w: World, e: Event, id: nat): State
    requires id in w.g.incidents
  {
    match w.g.incidents[id].status
    case RESOLVED => if Refires(e, id) then ACKNOWLEDGED else RESOLVED
    case QUIESCENT => if Resolves(w, e, id) then RESOLVED else QUIESCENT
    case _ => if Resolves(w, e, id) then RESOLVED else if e == QuietDeadline(id) then QUIESCENT else ACKNOWLEDGED
  }

  lemma TriggersMove(w: World, e: Event, id: nat, to: State)
    requires id in w.g.incidents && !w.g.incidents[id].status.OPEN?
    requires Follows(w.g.incidents[id].status, Fires(w, e, id), to)
    ensures to == Moved(w, e, id)
  {
    var from, ts := w.g.incidents[id].status, Fires(w, e, id);
    if |ts| == 2 {
      AlertFollows(from, true);
      FollowsOnce(from, ts, ACKNOWLEDGED, to);
    } else if |ts| == 1 {
      assert ts[1..] == [];
      assert TransitionState(from, ts[0]) == Some(to);
      assert e.QuietDeadline? ==> e == QuietDeadline(id);
    } else {
      assert to == from;
    }
  }

  lemma RunMoves(run: seq<World>, events: seq<Event>, k: nat, id: nat)
    requires IsRun(run, events) && k < |events| && id in run[k].g.incidents
    ensures id in run[k + 1].g.incidents && run[k + 1].g.incidents[id].status == Moved(run[k], events[k], id)
    ensures !run[k].g.incidents[id].status.OPEN?
  {
    OpenIsNeverCommitted(run, events, k, id);
    RunStepFollows(run, events, k, id);
    TriggersMove(run[k], events[k], id, run[k + 1].g.incidents[id].status);
  }

  /** An incident goes quiescent exactly where a deadline finds it acknowledged. */
  lemma OnlyDeadlinesQuiesce(run: seq<World>, events: seq<Event>, k: nat, id: nat)
    requires IsRun(run, events) && k < |events| && id in run[k + 1].g.incidents
    requires id in run[k].g.incidents ==> !run[k].g.incidents[id].status.QUIESCENT?
    ensures run[k + 1].g.incidents[id].status.QUIESCENT? <==>
              events[k] == QuietDeadline(id) && id in run[k].g.incidents && run[k].g.incidents[id].status.ACKNOWLEDGED?
  {
    if id in run[k].g.incidents { RunMoves(run, events, k, id); } else { RunBegins(run, events, k, id); }
  }

  /** At every place from `j` to `k` the incident has the status. */
  ghost predicate Stays(run: seq<World>, j: nat, k: nat, id: nat, status: State)
    requires j <= k < |run|
  {
    forall i :: j <= i <= k ==> id in run[i].g.incidents && run[i].g.incidents[id].status == status
  }

  lemma StaysOneMore(run: seq<World>, j: nat, k: nat, id: nat, status: State)
    requires j < k < |run|
    ensures Stays(run, j, k, id, status) <==>
              Stays(run, j, k - 1, id, status) && id in run[k].g.incidents && run[k].g.incidents[id].status == status
  {
  }

  /** A quiescent incident stays so exactly until something resolves it, and nothing else moves it. */
  lemma {:induction false} QuiescentUntilResolved(run: seq<World>, events: seq<Event>, j: nat, k: nat, id: nat)
    requires IsRun(run, events) && j <= k < |run|
    requires id in run[j].g.incidents && run[j].g.incidents[id].status.QUIESCENT?
    ensures Stays(run, j, k, id, QUIESCENT) <==> forall i :: j <= i < k ==> !Resolves(run[i], events[i], id)
    ensures j < k && Stays(run, j, k - 1, id, QUIESCENT) && !Stays(run, j, k, id, QUIESCENT) ==>
              id in run[k].g.incidents && run[k].g.incidents[id].status.RESOLVED?
  {
    if j < k {
      QuiescentUntilResolved(run, events, j, k - 1, id);
      StaysOneMore(run, j, k, id, QUIESCENT);
      if Stays(run, j, k - 1, id, QUIESCENT) {
        assert id in run[k - 1].g.incidents && run[k - 1].g.incidents[id].status.QUIESCENT?;
        RunMoves(run, events, k - 1, id);
      }
    }
  }

  /** A resolved incident stays resolved exactly until an alert for it fires again. */
  lemma {:induction false} OnlyFiringReopens(run: seq<World>, events: seq<Event>, j: nat, k: nat, id: nat)
    requires IsRun(run, events) && j <= k < |run|
    requires id in run[j].g.incidents && run[j].g.incidents[id].status.RESOLVED?
    ensures Stays(run, j, k, id, RESOLVED) <==> forall i :: j <= i < k ==> !Refires(events[i], id)
    ensures j < k && Stays(run, j, k - 1, id, RESOLVED) && !Stays(run, j, k, id, RESOLVED) ==>
              id in run[k].g.incidents && run[k].g.incidents[id].status.ACKNOWLEDGED?
  {
    if j < k {
      OnlyFiringReopens(run, events, j, k - 1, id);
      StaysOneMore(run, j, k, id, RESOLVED);
      if Stays(run, j, k - 1, id, RESOLVED) {
        assert id in run[k - 1].g.incidents && run[k - 1].g.incidents[id].status.RESOLVED?;
        RunMoves(run, events, k - 1, id);
      }
    }
  }
}
