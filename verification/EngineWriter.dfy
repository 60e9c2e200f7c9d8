/**
 * The engine's writers as the statements they run, in the order they run them
 * (src/engine/process_event.py, src/engine/db_adapter.py, src/engine/timer_worker.py,
 * src/inbound/reconcile.py). Each method is one transaction and is proved to be the step
 * `EngineRuns` takes.
 */
module EngineWriter {
  import opened Basics
  import opened IncidentMachine
  import opened StormGrouping
  import opened EngineRuns
  import Safety = EngineSafety
  import Storms = StormStore

  class Writer {
    const storms: Storms.Store
    var ledger: seq<Entry>
    var inbound: map<string, Disposition>
    /** Every incident/neighbour link grouping was given. */
    ghost var links: set<(nat, nat)>

    ghost function State(): World
      reads this, storms
    {
      World(storms.Tables(), links, ledger, inbound)
    }

    constructor ()
      ensures Init(State()) && fresh(storms)
    {
      storms := new Storms.Store();
      ledger, inbound, links := [], map[], {};
    }

    /** `persist_decision`: the incident row, then the ledger row. */
    method Persist(id: nat, row: Incident, entry: Entry)
      modifies this`ledger, storms`incidents
      ensures storms.incidents == old(storms.incidents)[id := row]
      ensures ledger == old(ledger) + [entry]
    {
      storms.incidents := storms.incidents[id := row];
      ledger := ledger + [entry];
    }

    /** Group the incident, or without a group to put it in refresh the one it is in. */
    method Group(id: nat, scope: string, newGid: nat, now: int) returns (neighbours: set<nat>)
      requires Grouped(storms.Tables()) && id in storms.incidents && newGid !in storms.groups
      modifies storms
      ensures IsStrongest(old(storms.Tables()), id, scope, neighbours)
      ensures storms.Tables() == if neighbours == {} then RefreshedFor(old(storms.Tables()), id)
                                 else Assigned(old(storms.Tables()), id, scope, neighbours, newGid, now)
    {
      ghost var before := storms.Tables();
      var assignment;
      neighbours, assignment := storms.AssignGroup(id, scope, newGid, now);
      if neighbours != {} { AssignmentIsFound(before, id, scope, neighbours, newGid, now); }
      if assignment.None? {
        var refreshed := storms.RefreshGroupForMember(id);
      }
    }

    /** Grouping that has neighbours always ends in a group that has a row. */
    lemma AssignmentIsFound(g: Graph, id: nat, scope: string, neighbours: set<nat>, newGid: nat, now: int)
      requires Grouped(g) && id in g.incidents && newGid !in g.groups
      requires neighbours != {} && neighbours <= g.incidents.Keys
      ensures Survivor(g, {id} + neighbours, newGid) in Assigned(g, id, scope, neighbours, newGid, now).groups
    {
      var members := {id} + neighbours;
      Safety.UnitedSurvivor(g, scope, members, newGid, now);
      Safety.RefreshShape(United(g, scope, members, newGid, now), Survivor(g, members, newGid));
    }

    /** The incident row an alert leaves, before it is grouped. */
    method Upsert(id: nat, firing: bool, scope: string, title: string, severity: Severity, firedAt: int, ghost e: Event)
        returns (row: Incident)
      requires e.Alert? && e.id == id && e.firing == firing && e.scope == scope && e.title == title
      requires e.severity == severity && e.firedAt == firedAt
      modifies this`ledger, storms`incidents
      ensures storms.incidents == Upserted(old(storms.incidents), e) && row == storms.incidents[id]
      ensures ledger == old(ledger) + [AlertRow(id, row.status)]
    {
      if id in storms.incidents {
        var known := storms.incidents[id];
        row := known.(title := title, severity := severity, status := NextState(known.status, firing));
      } else {
        row := Incident(scope, title, severity, NewIncidentState(firing), firedAt, None);
      }
      Persist(id, row, AlertRow(id, row.status));
    }

    /** `process_event` and `persist_and_observe` for an alert; `edges` is what observing it leaves. */
    method Ingest(id: nat, firing: bool, scope: string, title: string, severity: Severity, firedAt: int,
                  edges: Edges, newGid: nat, now: int) returns (neighbours: set<nat>)
      requires Grouped(storms.Tables()) && OnlyTouches(storms.edges, edges, id) && newGid !in storms.groups
      modifies this, storms
      ensures var e := Alert(id, firing, scope, title, severity, firedAt, edges, neighbours, newGid, now);
              Plausible(old(State()), e) && State() == AfterAlert(old(State()), e)
    {
      ghost var before := State();
      ghost var upsert := Alert(id, firing, scope, title, severity, firedAt, edges, {}, newGid, now);
      var row := Upsert(id, firing, scope, title, severity, firedAt, upsert);
      storms.edges := edges;
      ghost var observed := storms.Tables();
      assert observed == Observed(before.g, upsert);
      assert Safety.ChangesOnly(before.g, observed, id);
      Safety.ChangeKeepsGrouped(before.g, observed, id);
      neighbours := Group(id, row.scope, newGid, now);
      links := links + set n | n in neighbours :: (id, n);
      ghost var e := upsert.(neighbours := neighbours);
      assert Observed(before.g, e) == observed;
    }

    /** A protected critical alert: persisted at once, not correlated. */
    method Bypass(id: nat, scope: string, title: string, firedAt: int)
      requires id !in storms.incidents
      modifies this, storms
      ensures State() == AfterBypass(old(State()), EngineRuns.Bypass(id, scope, title, firedAt))
    {
      Persist(id, Incident(scope, title, Critical, ACKNOWLEDGED, firedAt, None), AlertRow(id, ACKNOWLEDGED));
    }

    /** `_persist_trigger` for a due quiet deadline. */
    method QuietDeadline(id: nat) returns (persisted: bool)
      modifies this, storms
      ensures State() == AfterQuiet(old(State()), id)
      ensures persisted <==> ledger != old(ledger)
    {
      if id !in storms.incidents { return false; }
      var next := TransitionState(storms.incidents[id].status, QUIET_DEADLINE);
      if next.None? { return false; }
      Persist(id, storms.incidents[id].(status := next.value), QuietRow(id, next.value));
      persisted := true;
    }

    /** `apply_external_action`: a callback, or the silence sweep's resolve. */
    method ApplyExternalAction(inboundId: string, kind: EngineRuns.Kind, id: nat) returns (changed: bool)
      modifies this, storms
      ensures State() == AfterExternal(old(State()), inboundId, kind, id)
      ensures changed <==> ledger != old(ledger)
      ensures changed ==> inboundId !in old(inbound)
    {
      if inboundId in inbound { return false; }
      var trigger := TriggerFor(kind);
      if trigger.None? || id !in storms.incidents {
        inbound := inbound[inboundId := Ignored];
        return false;
      }
      var next := TransitionState(storms.incidents[id].status, trigger.value);
      if next.None? {
        inbound := inbound[inboundId := Ignored];
        return false;
      }
      Persist(id, storms.incidents[id].(status := next.value), ExternalRow(id, next.value, inboundId));
      var refreshed := storms.RefreshGroupForMember(id);
      inbound := inbound[inboundId := Applied];
      changed := true;
    }
  }
}
