/**
 * Every writer of incident state, one committed transaction at a time: alert ingest,
 * critical bypass, quiet deadlines, and external actions (operator callbacks and the
 * silence sweep, which goes through the same function)
 * (src/engine/process_event.py, src/engine/timer_worker.py, src/inbound/reconcile.py,
 * src/engine/silence_sweeper.py).
 */
module EngineRuns {
  import opened Basics
  import opened IncidentMachine
  import opened StormGrouping

  /** A ledger row and the decision it records. */
  datatype Entry =
    | AlertRow(incident: nat, state: State)
    | QuietRow(incident: nat, state: State)
    | ExternalRow(incident: nat, state: State, inboundId: string)

  datatype Disposition = Applied | Ignored

  datatype Kind = Acknowledge | Resolve | Unknown

  /** The tables, and every incident/neighbour link storm grouping was ever given. */
  datatype World = World(
    g: Graph,
    links: set<(nat, nat)>,
    ledger: seq<Entry>,
    inbound: map<string, Disposition>)

  datatype Event =
    | Alert(id: nat, firing: bool, scope: string, title: string, severity: Severity, firedAt: int,
            edges: Edges, neighbours: set<nat>, newGid: nat, now: int)
    | Bypass(id: nat, scope: string, title: string, firedAt: int)
    | QuietDeadline(id: nat)
    | External(inboundId: string, kind: Kind, id: nat)

  // ---- alerts -----------------------------------------------------------------------------

  /** The incident row after `persist_decision`: an upsert that keeps identity and first alert. */
  ghost function Upserted(incidents: Incidents, e: Event): Incidents
    requires e.Alert?
  {
    if e.id in incidents
    then incidents[e.id := incidents[e.id].(title := e.title, severity := e.severity,
                                            status := NextState(incidents[e.id].status, e.firing))]
    else incidents[e.id := Incident(e.scope, e.title, e.severity, NewIncidentState(e.firing), e.firedAt, None)]
  }

  /** Observing an incident rewrites edges that touch it and no others. */
  ghost predicate OnlyTouches(before: Edges, after: Edges, id: nat) {
    forall a, b :: a != id && b != id ==>
      ((a, b) in after <==> (a, b) in before) && Weight(after, a, b) == Weight(before, a, b)
  }

  /** The graph when grouping starts. */
  ghost function Observed(g: Graph, e: Event): Graph
    requires e.Alert?
  {
    g.(incidents := Upserted(g.incidents, e), edges := e.edges)
  }

  /** The inputs the environment may choose: only the strongest neighbours, and an unused UUID. */
  ghost predicate Plausible(w: World, e: Event) {
    match e
    case Alert(id, _, _, _, _, _, edges, neighbours, newGid, _) =>
      var g := Observed(w.g, e);
      && OnlyTouches(w.g.edges, edges, id)
      && IsStrongest(g, id, g.incidents[id].scope, neighbours)
      && newGid !in w.g.groups
    case Bypass(id, _, _, _) => id !in w.g.incidents
    case _ => true
  }

  /** `persist_and_observe`: group if there are strong neighbours, else refresh the storm it is in. */
  ghost function AfterAlert(w: World, e: Event): World
    requires e.Alert? && Plausible(w, e)
  {
    var g := Observed(w.g, e);
    w.(g := if e.neighbours == {} then RefreshedFor(g, e.id)
            else Assigned(g, e.id, g.incidents[e.id].scope, e.neighbours, e.newGid, e.now),
       links := w.links + (set n | n in e.neighbours :: (e.id, n)),
       ledger := w.ledger + [AlertRow(e.id, g.incidents[e.id].status)])
  }

  ghost function Restated(g: Graph, id: nat, status: State): Graph
    requires id in g.incidents
  {
    g.(incidents := g.incidents[id := g.incidents[id].(status := status)])
  }

  // ---- the other writers ---------------------------------------------------------------------

  ghost function AfterBypass(w: World, e: Event): World
    requires e.Bypass?
  {
    w.(g := w.g.(incidents := w.g.incidents[e.id := Incident(e.scope, e.title, Critical, ACKNOWLEDGED, e.firedAt, None)]),
       ledger := w.ledger + [AlertRow(e.id, ACKNOWLEDGED)])
  }

  /** `_persist_trigger`: nothing unless the table has an edge; groups are not refreshed. */
  ghost function AfterQuiet(w: World, id: nat): World {
    if id !in w.g.incidents then w
    else
      var next := TransitionState(w.g.incidents[id].status, QUIET_DEADLINE);
      if next.None? then w
      else w.(g := Restated(w.g, id, next.value),
              ledger := w.ledger + [QuietRow(id, next.value)])
  }

  function TriggerFor(kind: Kind): Option<Trigger> {
    match kind
    case Acknowledge => Some(ACKNOWLEDGE)
    case Resolve => Some(RESOLVE)
    case Unknown => None
  }

  /** `apply_external_action`. */
  ghost function AfterExternal(w: World, inboundId: string, kind: Kind, id: nat): World {
    if inboundId in w.inbound then w
    else if TriggerFor(kind).None? || id !in w.g.incidents then w.(inbound := w.inbound[inboundId := Ignored])
    else
      var next := TransitionState(w.g.incidents[id].status, TriggerFor(kind).value);
      if next.None? then w.(inbound := w.inbound[inboundId := Ignored])
      else
        w.(g := RefreshedFor(Restated(w.g, id, next.value), id),
           ledger := w.ledger + [ExternalRow(id, next.value, inboundId)],
           inbound := w.inbound[inboundId := Applied])
  }

  ghost function Next(w: World, e: Event): World
    requires Plausible(w, e)
  {
    match e
    case Alert(_, _, _, _, _, _, _, _, _, _) => AfterAlert(w, e)
    case Bypass(_, _, _, _) => AfterBypass(w, e)
    case QuietDeadline(id) => AfterQuiet(w, id)
    case External(inboundId, kind, id) => AfterExternal(w, inboundId, kind, id)
  }

  // ---- the invariant on groups ------------------------------------------------------------------

  /** Every group has members, among them its anchor, and every membership names a group. */
  ghost predicate Grouped(g: Graph) {
    && (forall i :: i in g.incidents && g.incidents[i].group.Some? ==> g.incidents[i].group.value in g.groups)
    && (forall gid :: gid in g.groups ==> g.groups[gid].anchor in Members(g.incidents, gid))
  }

  /** The stored facts of one group are the function of its members and internal edges. */
  ghost predicate Current(g: Graph, gid: nat)
    requires gid in g.groups
  {
    var members := Members(g.incidents, gid);
    members != {} && g.groups[gid].facts == Derived(g.incidents, g.edges, members)
  }

  ghost predicate AllCurrent(g: Graph) {
    forall gid :: gid in g.groups ==> Current(g, gid)
  }

  // ---- storms as an equivalence ------------------------------------------------------------------

  /** In the same storm; an incident without a group is a storm of its own. */
  ghost predicate SameStorm(incidents: Incidents, a: nat, b: nat)
    requires a in incidents && b in incidents
  {
    a == b || (incidents[a].group.Some? && incidents[a].group == incidents[b].group)
  }

  ghost predicate Linked(links: set<(nat, nat)>, a: nat, b: nat) {
    (a, b) in links || (b, a) in links
  }

  ghost predicate IsPath(links: set<(nat, nat)>, p: seq<nat>) {
    |p| > 0 && forall k :: 0 <= k < |p| - 1 ==> Linked(links, p[k], p[k + 1])
  }

  /** The reflexive, symmetric, transitive closure of the reported links. */
  ghost predicate Connected(links: set<(nat, nat)>, a: nat, b: nat) {
    exists p :: IsPath(links, p) && p[0] == a && p[|p| - 1] == b
  }

  ghost predicate LinksHold(w: World) {
    forall a, b :: (a, b) in w.links ==>
      a in w.g.incidents && b in w.g.incidents && SameStorm(w.g.incidents, a, b)
  }

  ghost predicate StormsConnect(w: World) {
    forall a, b :: a in w.g.incidents && b in w.g.incidents && SameStorm(w.g.incidents, a, b) ==>
      Connected(w.links, a, b)
  }

  // ---- callbacks and the ledger --------------------------------------------------------------------

  /** The inbound ids that left a ledger row, in order. */
  function ExternalIds(ledger: seq<Entry>): seq<string> {
    if ledger == [] then []
    else
      var init, last := ExternalIds(ledger[..|ledger| - 1]), ledger[|ledger| - 1];
      if last.ExternalRow? then init + [last.inboundId] else init
  }

  ghost predicate LedgerMatchesInbound(w: World) {
    var ids := ExternalIds(w.ledger);
    && (forall x :: x in ids <==> x in w.inbound && w.inbound[x].Applied?)
    && (forall i, j :: 0 <= i < j < |ids| ==> ids[i] != ids[j])
  }

  ghost predicate Inv(w: World) {
    && Grouped(w.g) && AllCurrent(w.g)
    && LinksHold(w) && StormsConnect(w)
    && LedgerMatchesInbound(w)
  }

  ghost predicate Init(w: World) {
    w == World(Graph(map[], map[], map[]), {}, [], map[])
  }

  /** The step from place `k` is the event's. */
  ghost predicate Took(run: seq<World>, events: seq<Event>, k: nat)
    requires k < |events| && k + 1 < |run|
  {
    Plausible(run[k], events[k]) && run[k + 1] == Next(run[k], events[k])
  }

  ghost predicate IsRun(run: seq<World>, events: seq<Event>) {
    && |run| == |events| + 1
    && Init(run[0])
    && forall k: nat {:trigger Took(run, events, k)} :: k < |events| ==> Took(run, events, k)
  }
}
