/**
 * What incident rows and the ledger say over whole runs (src/engine/db_adapter.py,
 * src/engine/process_event.py, src/inbound/reconcile.py).
 */
module EngineRecords {
  import opened Basics
  import opened IncidentMachine
  import opened StormGrouping
  import opened EngineRuns
  import opened EngineSafety
  import opened EngineTheorems
  import opened EngineStatuses

  // ---- incident rows --------------------------------------------------------------------------

  predicate Alerts(e: Event, id: nat) {
    (e.Alert? || e.Bypass?) && e.id == id
  }

  function SeverityOf(e: Event): Severity
    requires e.Alert? || e.Bypass?
  {
    if e.Alert? then e.severity else Critical
  }

  /** A row's first alert fixes its scope and its time, its last one its title and severity. */
  ghost predicate RowSays(row: Incident, first: Event, last: Event)
    requires (first.Alert? || first.Bypass?) && (last.Alert? || last.Bypass?)
  {
    && row.scope == first.scope && row.firstAlertAt == first.firedAt
    && row.title == last.title && row.severity == SeverityOf(last)
  }

  ghost predicate SameLabels(before: Incident, after: Incident) {
    && after.scope == before.scope && after.firstAlertAt == before.firstAlertAt
    && after.title == before.title && after.severity == before.severity
  }

  lemma ExternalLabels(w: World, inboundId: string, kind: EngineRuns.Kind, other: nat, id: nat)
    requires id in w.g.incidents
    ensures var after := AfterExternal(w, inboundId, kind, other);
            id in after.g.incidents && SameLabels(w.g.incidents[id], after.g.incidents[id])
  {
    var status := ExternalIs(w, inboundId, kind, other);
    if status.Some? {
      var h := Restated(w.g, other, status.value);
      if h.incidents[other].group.Some? { RefreshKeepsRows(h, h.incidents[other].group.value); }
    }
  }

  lemma OthersKeepLabels(w: World, e: Event, id: nat)
    requires Plausible(w, e) && id in w.g.incidents && !Alerts(e, id)
    ensures id in Next(w, e).g.incidents && SameLabels(w.g.incidents[id], Next(w, e).g.incidents[id])
  {
    match e
    case Alert(_, _, _, _, _, _, _, _, _, _) => AlertStatus(w, e, id);
    case Bypass(_, _, _, _) =>
    case QuietDeadline(_) =>
    case External(inboundId, kind, other) => ExternalLabels(w, inboundId, kind, other, id);
  }

  lemma AlertsSetLabels(w: World, e: Event, first: Event)
    requires Plausible(w, e) && (e.Alert? || e.Bypass?) && (first.Alert? || first.Bypass?)
    requires if e.id in w.g.incidents then w.g.incidents[e.id].scope == first.scope
                                           && w.g.incidents[e.id].firstAlertAt == first.firedAt
             else first == e
    ensures e.id in Next(w, e).g.incidents && RowSays(Next(w, e).g.incidents[e.id], first, e)
  {
    if e.Alert? { AlertStatus(w, e, e.id); }
  }

  /** Between the alerts at two places none concerns the incident. */
  ghost predicate Silent(events: seq<Event>, from: nat, to: nat, id: nat)
    requires to <= |events|
  {
    forall i :: from <= i < to ==> !Alerts(events[i], id)
  }

  /** Every row is what its incident's first and last alert make it. */
  lemma {:induction false} RowsAreTheirAlerts(run: seq<World>, events: seq<Event>, k: nat, id: nat)
      returns (first: nat, last: nat)
    requires IsRun(run, events) && k < |run| && id in run[k].g.incidents
    ensures first <= last < k && Alerts(events[first], id) && Alerts(events[last], id)
    ensures Silent(events, 0, first, id) && Silent(events, last + 1, k, id)
    ensures RowSays(run[k].g.incidents[id], events[first], events[last])
  {
    RunStep(run, events, k - 1);
    var w, e := run[k - 1], events[k - 1];
    if id in w.g.incidents {
      first, last := RowsAreTheirAlerts(run, events, k - 1, id);
      if Alerts(e, id) {
        AlertsSetLabels(w, e, events[first]);
        last := k - 1;
      } else {
        OthersKeepLabels(w, e, id);
      }
    } else {
      StepBegins(w, e, id);
      AlertsSetLabels(w, e, e);
      NoneBefore(run, events, k - 1, id);
      first, last := k - 1, k - 1;
    }
  }

  lemma {:induction false} NoneBefore(run: seq<World>, events: seq<Event>, k: nat, id: nat)
    requires IsRun(run, events) && k < |run| && id !in run[k].g.incidents
    ensures Silent(events, 0, k, id)
  {
    if k > 0 {
      if id in run[k - 1].g.incidents { IncidentsStay(run, events, k - 1, k, id); }
      NoneBefore(run, events, k - 1, id);
      RunStep(run, events, k - 1);
      if Alerts(events[k - 1], id) { AlertsSetLabels(run[k - 1], events[k - 1], events[k - 1]); }
    }
  }

  // ---- ledger rows ------------------------------------------------------------------------------

  /** The row a step adds to the ledger, if any. */
  ghost function Added(w: World, e: Event): seq<Entry> {
    var known := e.id in w.g.incidents;
    match e
    case Alert(id, firing, _, _, _, _, _, _, _, _) =>
      [AlertRow(id, if !firing then RESOLVED
                    else if known && w.g.incidents[id].status.QUIESCENT? then QUIESCENT
                    else ACKNOWLEDGED)]
    case Bypass(id, _, _, _) => [AlertRow(id, ACKNOWLEDGED)]
    case QuietDeadline(id) =>
      if known && w.g.incidents[id].status.ACKNOWLEDGED? then [QuietRow(id, QUIESCENT)] else []
    case External(inboundId, kind, id) =>
      if inboundId !in w.inbound && kind.Resolve? && known && !w.g.incidents[id].status.RESOLVED?
      then [ExternalRow(id, RESOLVED, inboundId)] else []
  }

  /** What a callback is recorded as, the first time it comes. */
  ghost function Noted(w: World, e: Event): map<string, Disposition> {
    if e.External? && e.inboundId !in w.inbound
    then w.inbound[e.inboundId := if Added(w, e) == [] then Ignored else Applied] else w.inbound
  }

  /**
   * In every run: each alert adds a ledger row with the status it leaves, a deadline or an
   * action adds one exactly if it moves its incident, and each callback is noted once.
   */
  lemma LedgerRecordsEveryStep(run: seq<World>, events: seq<Event>, k: nat)
    requires IsRun(run, events) && k < |events|
    ensures run[k + 1].ledger == run[k].ledger + Added(run[k], events[k])
    ensures run[k + 1].inbound == Noted(run[k], events[k])
  {
    RunStep(run, events, k);
    var w, e := run[k], events[k];
    if e.id in w.g.incidents { OpenIsNeverCommitted(run, events, k, e.id); }
    StepRecordsRow(w, e);
  }

  lemma AlertLedger(w: World, e: Event)
    requires e.Alert? && Plausible(w, e)
    ensures e.id in Observed(w.g, e).incidents
    ensures AfterAlert(w, e).ledger == w.ledger + [AlertRow(e.id, Observed(w.g, e).incidents[e.id].status)]
    ensures AfterAlert(w, e).inbound == w.inbound
  {
  }

  lemma ObservedStatus(w: World, e: Event)
    requires e.Alert? && (e.id in w.g.incidents ==> !w.g.incidents[e.id].status.OPEN?)
    ensures e.id in Observed(w.g, e).incidents
    ensures [AlertRow(e.id, Observed(w.g, e).incidents[e.id].status)] == Added(w, e)
  {
  }

  lemma AlertAdds(w: World, e: Event)
    requires e.Alert? && Plausible(w, e) && (e.id in w.g.incidents ==> !w.g.incidents[e.id].status.OPEN?)
    ensures AfterAlert(w, e).ledger == w.ledger + Added(w, e) && AfterAlert(w, e).inbound == Noted(w, e)
  {
    AlertLedger(w, e);
    ObservedStatus(w, e);
  }

  lemma QuietAdds(w: World, id: nat)
    ensures AfterQuiet(w, id).ledger == w.ledger + Added(w, QuietDeadline(id)) && AfterQuiet(w, id).inbound == w.inbound
  {
  }

  lemma ExternalAdds(w: World, inboundId: string, kind: EngineRuns.Kind, id: nat)
    requires id in w.g.incidents ==> !w.g.incidents[id].status.OPEN?
    ensures var after, e := AfterExternal(w, inboundId, kind, id), External(inboundId, kind, id);
            after.ledger == w.ledger + Added(w, e) && after.inbound == Noted(w, e)
  {
  }

  lemma StepRecordsRow(w: World, e: Event)
    requires Plausible(w, e) && (e.id in w.g.incidents ==> !w.g.incidents[e.id].status.OPEN?)
    ensures Next(w, e).ledger == w.ledger + Added(w, e) && Next(w, e).inbound == Noted(w, e)
  {
    match e
    case Alert(_, _, _, _, _, _, _, _, _, _) => AlertAdds(w, e);
    case Bypass(_, _, _, _) =>
    case QuietDeadline(id) => QuietAdds(w, id);
    case External(inboundId, kind, id) => ExternalAdds(w, inboundId, kind, id);
  }
}
