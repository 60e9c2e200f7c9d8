/** What holds after every committed write of the engine. */
module EngineTheorems {
  import opened Basics
  import opened IncidentMachine
  import opened StormGrouping
  import opened EngineRuns
  import opened EngineSafety

  // ---- storms ---------------------------------------------------------------------------------

  /** Every alert's incident with each of the strong neighbours it had then. */
  ghost function Reported(events: seq<Event>, k: nat): set<(nat, nat)>
    requires k <= |events|
  {
    if k == 0 then {}
    else
      var e := events[k - 1];
      Reported(events, k - 1) + if e.Alert? then set n | n in e.neighbours :: (e.id, n) else {}
  }

  lemma {:induction false} LinksAreReported(run: seq<World>, events: seq<Event>, k: nat)
    requires IsRun(run, events) && k < |run|
    ensures run[k].links == Reported(events, k)
  {
    if k > 0 {
      LinksAreReported(run, events, k - 1);
      RunStep(run, events, k - 1);
    }
  }

  /** The incremental groups are the connected components of all strong neighbours ever found. */
  lemma StormsAreTheClosure(run: seq<World>, events: seq<Event>, k: nat, a: nat, b: nat)
    requires IsRun(run, events) && k < |run|
    requires a in run[k].g.incidents && b in run[k].g.incidents
    ensures SameStorm(run[k].g.incidents, a, b) <==> Connected(Reported(events, k), a, b)
  {
    RunKeeps(run, events, k);
    LinksAreReported(run, events, k);
    if Connected(run[k].links, a, b) {
      var p :| IsPath(run[k].links, p) && p[0] == a && p[|p| - 1] == b;
      PathStaysInStorm(run[k], p);
    }
  }

  /** Every group row says what its current members and internal edges say. */
  lemma GroupFactsAreCurrent(run: seq<World>, events: seq<Event>, k: nat, gid: nat)
    requires IsRun(run, events) && k < |run| && gid in run[k].g.groups
    ensures var g := run[k].g; var members, facts := Members(g.incidents, gid), g.groups[gid].facts;
            && members != {}
            && facts == Derived(g.incidents, g.edges, members)
            && facts.memberCount == |members|
            && (facts.open <==> exists m :: m in members && !g.incidents[m].status.RESOLVED?)
            && (exists m :: m in members && g.incidents[m].severity == facts.severity)
            && (forall m :: m in members ==> Rank(facts.severity) <= Rank(g.incidents[m].severity))
            && facts.root.Some? && facts.root.value in members && facts.root.value in g.incidents
            && facts.title == g.incidents[facts.root.value].title && facts.others == |members| - 1
            && LeadsTheStorm(g, members, facts.root.value)
  {
    RunKeeps(run, events, k);
    assert Current(run[k].g, gid);
  }

  /**
   * The likely cause: with an edge between members, the one whose weights into the storm sum
   * to most, the lesser id at a tie; without one, the first to have fired.
   */
  ghost predicate LeadsTheStorm(g: Graph, members: set<nat>, root: nat)
    requires root in members && members <= g.incidents.Keys
  {
    && (AnyPointsInside(g.edges, members) ==> PointsInside(g.edges, members, root))
    && (forall m :: m in members && m != root && PointsInside(g.edges, members, m) ==>
          var ours, theirs := Outbound(g.edges, root, members), Outbound(g.edges, m, members);
          theirs < ours || (theirs == ours && root < m))
    && (!AnyPointsInside(g.edges, members) ==>
          forall m :: m in members && m != root ==>
            var ours, theirs := g.incidents[root].firstAlertAt, g.incidents[m].firstAlertAt;
            ours < theirs || (ours == theirs && root < m))
  }

  /** The anchor is a member of its group, and no incident anchors two. */
  lemma AnchorsAreMembers(run: seq<World>, events: seq<Event>, k: nat, gid: nat, other: nat)
    requires IsRun(run, events) && k < |run| && gid in run[k].g.groups && other in run[k].g.groups
    ensures run[k].g.groups[gid].anchor in Members(run[k].g.incidents, gid)
    ensures run[k].g.groups[gid].anchor == run[k].g.groups[other].anchor ==> gid == other
  {
    RunKeeps(run, events, k);
    assert run[k].g.groups[gid].anchor in Members(run[k].g.incidents, gid);
    assert run[k].g.groups[other].anchor in Members(run[k].g.incidents, other);
  }

  // ---- callbacks --------------------------------------------------------------------------------------

  /**
   * However often callbacks are replayed: the ledger rows external actions left are one for
   * one the inbound events recorded as applied.
   */
  lemma CallbacksApplyOnce(run: seq<World>, events: seq<Event>, k: nat)
    requires IsRun(run, events) && k < |run|
    ensures var ids := ExternalIds(run[k].ledger);
            && (forall x :: x in ids <==> x in run[k].inbound && run[k].inbound[x].Applied?)
            && (forall i, j :: 0 <= i < j < |ids| ==> ids[i] != ids[j])
  {
    RunKeeps(run, events, k);
  }

  /** The state the newest ledger row about an incident records. */
  function LastState(ledger: seq<Entry>, id: nat): Option<State> {
    if ledger == [] then None
    else if ledger[|ledger| - 1].incident == id then Some(ledger[|ledger| - 1].state)
    else LastState(ledger[..|ledger| - 1], id)
  }

  lemma RowAdded(ledger: seq<Entry>, entry: Entry, id: nat)
    ensures LastState(ledger + [entry], id) == if entry.incident == id then Some(entry.state) else LastState(ledger, id)
  {
    assert (ledger + [entry])[..|ledger|] == ledger;
  }

  lemma AlertStatus(w: World, e: Event, id: nat)
    requires e.Alert? && Plausible(w, e)
    ensures AfterAlert(w, e).g.incidents.Keys == w.g.incidents.Keys + {e.id}
    ensures id in AfterAlert(w, e).g.incidents ==>
              var after := AfterAlert(w, e).g.incidents[id];
              after == Observed(w.g, e).incidents[id].(group := after.group)
  {
    var g := Observed(w.g, e);
    if e.neighbours == {} {
      if g.incidents[e.id].group.Some? { RefreshKeepsRows(g, g.incidents[e.id].group.value); }
    } else {
      var members := {e.id} + e.neighbours;
      var h := United(g, g.incidents[e.id].scope, members, e.newGid, e.now);
      RefreshKeepsRows(h, Survivor(g, members, e.newGid));
    }
  }

  lemma StepRecords(w: World, e: Event, id: nat)
    requires Plausible(w, e)
    requires id in w.g.incidents ==> LastState(w.ledger, id) == Some(w.g.incidents[id].status)
    ensures id in Next(w, e).g.incidents ==>
              LastState(Next(w, e).ledger, id) == Some(Next(w, e).g.incidents[id].status)
  {
    match e
    case Alert(other, _, _, _, _, _, _, _, _, _) =>
      AlertStatus(w, e, id);
      RowAdded(w.ledger, AlertRow(other, Observed(w.g, e).incidents[other].status), id);
    case Bypass(other, _, _, _) => RowAdded(w.ledger, AlertRow(other, ACKNOWLEDGED), id);
    case QuietDeadline(other) => RowAdded(w.ledger, QuietRow(other, QUIESCENT), id);
    case External(inboundId, kind, other) =>
      if id in w.g.incidents { ExternalRecords(w, inboundId, kind, other, id); }
  }

  lemma ExternalRecords(w: World, inboundId: string, kind: EngineRuns.Kind, other: nat, id: nat)
    requires id in w.g.incidents && LastState(w.ledger, id) == Some(w.g.incidents[id].status)
    ensures var after := AfterExternal(w, inboundId, kind, other);
            id in after.g.incidents && LastState(after.ledger, id) == Some(after.g.incidents[id].status)
  {
    if inboundId !in w.inbound && TriggerFor(kind).Some? && other in w.g.incidents {
      var next := TransitionState(w.g.incidents[other].status, TriggerFor(kind).value);
      if next.Some? {
        var h := Restated(w.g, other, next.value);
        assert RefreshedFor(h, other).incidents == h.incidents by {
          if h.incidents[other].group.Some? { RefreshKeepsRows(h, h.incidents[other].group.value); }
        }
        RowAdded(w.ledger, ExternalRow(other, next.value, inboundId), id);
      }
    }
  }

  /** The ledger is complete: its last word on every incident is that incident's status. */
  lemma {:induction false} LedgerTellsTheStatus(run: seq<World>, events: seq<Event>, k: nat, id: nat)
    requires IsRun(run, events) && k < |run| && id in run[k].g.incidents
    ensures LastState(run[k].ledger, id) == Some(run[k].g.incidents[id].status)
  {
    if k > 0 {
      RunStep(run, events, k - 1);
      if id in run[k - 1].g.incidents { LedgerTellsTheStatus(run, events, k - 1, id); }
      StepRecords(run[k - 1], events[k - 1], id);
    }
  }
}
