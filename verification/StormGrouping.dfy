/**
 * Correlated incidents as storms (src/graph/storm_grouping.py).
 *
 * Incident and group ids are UUIDs; they are modelled as natural numbers, which order
 * as the fixed-width lower-case text does. Weights are reals.
 */
module StormGrouping {
  import opened Basics
  import opened IncidentMachine

  const GROUP_EDGE_THRESHOLD := 1.5
  const MAX_NEIGHBOURS := 25

  datatype Severity = Critical | High | Medium | Low

  function Rank(s: Severity): nat {
    match s case Critical => 0 case High => 1 case Medium => 2 case Low => 3
  }

  datatype Incident = Incident(
    scope: string,
    title: string,
    severity: Severity,
    status: State,
    firstAlertAt: int,
    group: Option<nat>)

  /** What a group row derives from its members: `title` is the lead's, `others` the "(+n)". */
  datatype Facts = Facts(
    root: Option<nat>,
    title: string,
    others: nat,
    severity: Severity,
    memberCount: nat,
    open: bool)

  datatype Group = Group(scope: string, anchor: nat, createdAt: int, facts: Facts)

  type Incidents = map<nat, Incident>
  type Edges = map<(nat, nat), real>
  type Groups = map<nat, Group>

  datatype Graph = Graph(incidents: Incidents, edges: Edges, groups: Groups)

  const UNREFRESHED := Facts(None, "", 0, Medium, 1, true)

  ghost function Members(incidents: Incidents, gid: nat): set<nat> {
    set i | i in incidents && incidents[i].group == Some(gid)
  }

  // ---- derived facts -----------------------------------------------------------------

  /** `ORDER BY first_alert_at ASC, incident_id ASC`. */
  predicate Earlier(incidents: Incidents, a: nat, b: nat)
    requires a in incidents && b in incidents
  {
    incidents[a].firstAlertAt < incidents[b].firstAlertAt
    || (incidents[a].firstAlertAt == incidents[b].firstAlertAt && a < b)
  }

  ghost function Earliest(incidents: Incidents, ids: set<nat>): (first: nat)
    requires ids != {} && ids <= incidents.Keys
    ensures first in ids && forall x | x in ids :: x == first || Earlier(incidents, first, x)
  {
    var x :| x in ids;
    if ids == {x} then x
    else
      var rest := Earliest(incidents, ids - {x});
      assert forall y | y in ids :: y == x || y in ids - {x};
      if Earlier(incidents, x, rest) then x else rest
  }

  function Weight(edges: Edges, src: nat, dst: nat): real {
    if (src, dst) in edges then edges[(src, dst)] else 0.0
  }

  /** `SUM(weight)` over the edges from `src` into `dsts`. */
  ghost function Outbound(edges: Edges, src: nat, dsts: set<nat>): real {
    if dsts == {} then 0.0
    else
      var d := MinOf(dsts);
      Weight(edges, src, d) + Outbound(edges, src, dsts - {d})
  }

  /** Each edge from `src` into `dsts` counts once, in whatever order the rows are read. */
  lemma {:induction false} OutboundTakesOut(edges: Edges, src: nat, dsts: set<nat>, d: nat)
    requires d in dsts
    ensures Outbound(edges, src, dsts)
         == (if (src, d) in edges then edges[(src, d)] else 0.0) + Outbound(edges, src, dsts - {d})
    decreases |dsts|
  {
    var m := MinOf(dsts);
    if d != m {
      OutboundTakesOut(edges, src, dsts - {m}, d);
      OutboundTakesOut(edges, src, dsts - {d}, m);
      assert dsts - {m} - {d} == dsts - {d} - {m};
    }
  }

  /** Members with an edge to another row of the group: the ones the ranking query returns. */
  ghost function Leaders(edges: Edges, members: set<nat>): set<nat> {
    set m | m in members && exists d :: d in members && (m, d) in edges
  }

  /** `ORDER BY outbound DESC, src_incident_id ASC`. */
  ghost predicate Leads(edges: Edges, members: set<nat>, a: nat, b: nat) {
    var wa, wb := Outbound(edges, a, members), Outbound(edges, b, members);
    wa > wb || (wa == wb && a < b)
  }

  ghost function Foremost(edges: Edges, members: set<nat>, ids: set<nat>): (first: nat)
    requires ids != {}
    ensures first in ids && forall x | x in ids :: x == first || Leads(edges, members, first, x)
  {
    var x :| x in ids;
    if ids == {x} then x
    else
      var rest := Foremost(edges, members, ids - {x});
      assert forall y | y in ids :: y == x || y in ids - {x};
      if Leads(edges, members, x, rest) then x else rest
  }

  ghost predicate PointsInside(edges: Edges, members: set<nat>, m: nat) {
    exists d :: d in members && (m, d) in edges
  }

  ghost predicate AnyPointsInside(edges: Edges, members: set<nat>) {
    exists m :: m in members && PointsInside(edges, members, m)
  }

  /** `_rank_group_root`: the member that leads the others most, or without an edge inside the first to fire. */
  ghost function RankedRoot(incidents: Incidents, edges: Edges, members: set<nat>): (root: nat)
    requires members != {} && members <= incidents.Keys
    ensures root in members
    ensures AnyPointsInside(edges, members) ==> PointsInside(edges, members, root)
    ensures forall m :: m in members && m != root && PointsInside(edges, members, m) ==>
              var ours, theirs := Outbound(edges, root, members), Outbound(edges, m, members);
              theirs < ours || (theirs == ours && root < m)
    ensures !AnyPointsInside(edges, members) ==>
              forall m :: m in members && m != root ==>
                var ours, theirs := incidents[root].firstAlertAt, incidents[m].firstAlertAt;
                ours < theirs || (ours == theirs && root < m)
  {
    var leaders := Leaders(edges, members);
    assert forall m :: m in members ==> (m in leaders <==> PointsInside(edges, members, m));
    if leaders == {} then Earliest(incidents, members) else Foremost(edges, members, leaders)
  }

  ghost function MostUrgent(incidents: Incidents, members: set<nat>): (s: Severity)
    requires members != {} && members <= incidents.Keys
    ensures exists m :: m in members && incidents[m].severity == s
    ensures forall m :: m in members ==> Rank(s) <= Rank(incidents[m].severity)
  {
    if exists m :: m in members && incidents[m].severity.Critical? then Critical
    else if exists m :: m in members && incidents[m].severity.High? then High
    else if exists m :: m in members && incidents[m].severity.Medium? then Medium
    else
      var m :| m in members;
      assert incidents[m].severity.Low?;
      Low
  }

  ghost predicate SomeActive(incidents: Incidents, members: set<nat>)
    requires members <= incidents.Keys
  {
    exists m :: m in members && IsActive(incidents[m].status)
  }

  ghost function Derived(incidents: Incidents, edges: Edges, members: set<nat>): Facts
    requires members != {} && members <= incidents.Keys
  {
    var root := RankedRoot(incidents, edges, members);
    Facts(Some(root), incidents[root].title, |members| - 1,
          MostUrgent(incidents, members), |members|, SomeActive(incidents, members))
  }

  // ---- statements -------------------------------------------------------------------------

  /** `_refresh_group`: an empty group is dropped, any other gets its facts recomputed. */
  ghost function Refreshed(g: Graph, gid: nat): Graph {
    var members := Members(g.incidents, gid);
    if members == {} then g.(groups := g.groups - {gid})
    else if gid !in g.groups then g
    else g.(groups := g.groups[gid := g.groups[gid].(facts := Derived(g.incidents, g.edges, members))])
  }

  ghost function RefreshedFor(g: Graph, id: nat): Graph {
    if id in g.incidents && g.incidents[id].group.Some? then Refreshed(g, g.incidents[id].group.value) else g
  }

  function GroupsOf(incidents: Incidents, ids: set<nat>): set<nat> {
    set i | i in ids && i in incidents && incidents[i].group.Some? :: incidents[i].group.value
  }

  /** `ORDER BY created_at ASC, group_id ASC`. */
  predicate Older(groups: Groups, a: nat, b: nat)
    requires a in groups && b in groups
  {
    groups[a].createdAt < groups[b].createdAt || (groups[a].createdAt == groups[b].createdAt && a < b)
  }

  ghost function Oldest(groups: Groups, ids: set<nat>): (first: nat)
    requires ids != {} && ids <= groups.Keys
    ensures first in ids && forall x | x in ids :: x == first || Older(groups, first, x)
  {
    var x :| x in ids;
    if ids == {x} then x
    else
      var rest := Oldest(groups, ids - {x});
      assert forall y | y in ids :: y == x || y in ids - {x};
      if Older(groups, x, rest) then x else rest
  }

  /** Every incident of `ids`, or of a group in `absorbed`, put into group `gid`. */
  function Gathered(incidents: Incidents, ids: set<nat>, absorbed: set<nat>, gid: nat): Incidents {
    map i | i in incidents ::
      if i in ids || (incidents[i].group.Some? && incidents[i].group.value in absorbed)
      then incidents[i].(group := Some(gid)) else incidents[i]
  }

  /**
   * The group that takes the incident and its neighbours in: `_oldest_group` of those they
   * are already in (falling back on any of them if none has a row), else a new one.
   */
  ghost function Survivor(g: Graph, members: set<nat>, newGid: nat): nat {
    var existing := GroupsOf(g.incidents, members);
    if existing == {} then newGid
    else if existing * g.groups.Keys == {} then MinOf(existing)
    else Oldest(g.groups, existing * g.groups.Keys)
  }

  /** `assign_group` up to the refresh: union the incident with its neighbours. */
  ghost function United(g: Graph, scope: string, members: set<nat>, newGid: nat, now: int): Graph
    requires members != {} && members <= g.incidents.Keys
  {
    var existing := GroupsOf(g.incidents, members);
    var gid := Survivor(g, members, newGid);
    var groups := if existing != {} then g.groups - (existing - {gid})
                  else g.groups[gid := Group(scope, Earliest(g.incidents, members), now, UNREFRESHED)];
    g.(incidents := Gathered(g.incidents, members, existing - {gid}, gid), groups := groups)
  }

  ghost function Assigned(g: Graph, id: nat, scope: string, neighbours: set<nat>, newGid: nat, now: int): Graph
    requires id in g.incidents && neighbours <= g.incidents.Keys
  {
    if neighbours == {} then g
    else
      var members := {id} + neighbours;
      Refreshed(United(g, scope, members, newGid, now), Survivor(g, members, newGid))
  }

  // ---- neighbours ---------------------------------------------------------------------------

  /** The stronger of the two directions between a pair. */
  function Strength(edges: Edges, a: nat, b: nat): real {
    var there, back := Weight(edges, a, b), Weight(edges, b, a);
    if there < back then back else there
  }

  ghost function Eligible(g: Graph, id: nat, scope: string): set<nat> {
    set o | o in g.incidents && o != id && g.incidents[o].scope == scope
            && IsActive(g.incidents[o].status) && Strength(g.edges, id, o) >= GROUP_EDGE_THRESHOLD
  }

  /** One answer of `_strong_neighbours`: the strongest eligible ones, ties broken either way. */
  ghost predicate IsStrongest(g: Graph, id: nat, scope: string, neighbours: set<nat>) {
    var eligible := Eligible(g, id, scope);
    && neighbours <= eligible
    && |neighbours| == (if |eligible| <= MAX_NEIGHBOURS then |eligible| else MAX_NEIGHBOURS)
    && forall n, o :: n in neighbours && o in eligible && o !in neighbours ==>
         Strength(g.edges, id, o) <= Strength(g.edges, id, n)
  }

  /** Who is a neighbour: same scope, not resolved, at least 1.5 in one direction; and of more than 25 the strongest. */
  lemma NeighboursAreStrong(g: Graph, id: nat, scope: string, neighbours: set<nat>, o: nat)
    requires IsStrongest(g, id, scope, neighbours)
    ensures var strong := (p: nat) =>
              && p in g.incidents && p != id && g.incidents[p].scope == scope && !g.incidents[p].status.RESOLVED?
              && (((id, p) in g.edges && g.edges[(id, p)] >= 1.5) || ((p, id) in g.edges && g.edges[(p, id)] >= 1.5));
            && |neighbours| <= 25
            && (o in neighbours ==> strong(o))
            && (strong(o) && o !in neighbours ==>
                  && |neighbours| == 25
                  && forall n :: n in neighbours ==>
                       && ((id, o) in g.edges ==>
                             g.edges[(id, o)] <= Weight(g.edges, id, n) || g.edges[(id, o)] <= Weight(g.edges, n, id))
                       && ((o, id) in g.edges ==>
                             g.edges[(o, id)] <= Weight(g.edges, id, n) || g.edges[(o, id)] <= Weight(g.edges, n, id)))
  {
    var eligible := Eligible(g, id, scope);
    if o in eligible && o !in neighbours && |eligible| <= 25 {
      StrictlyFewer(neighbours, eligible, o);
    }
  }

  lemma StrictlyFewer(some: set<nat>, all: set<nat>, o: nat)
    requires some <= all && o in all && o !in some
    ensures |some| < |all|
  {
    assert some <= all - {o};
    SubsetIsSmaller(some, all - {o});
  }

  lemma {:induction false} SubsetIsSmaller(some: set<nat>, all: set<nat>)
    requires some <= all
    ensures |some| <= |all|
  {
    assert all == some + (all - some);
    assert |all| == |some| + |all - some|;
  }

  // ---- what facts depend on -------------------------------------------------------------------

  /** Two graphs that look alike from inside a set of members. */
  ghost predicate SameInside(g: Graph, h: Graph, members: set<nat>) {
    && members <= g.incidents.Keys && members <= h.incidents.Keys
    && (forall m :: m in members ==>
          && h.incidents[m].title == g.incidents[m].title
          && h.incidents[m].severity == g.incidents[m].severity
          && IsActive(h.incidents[m].status) == IsActive(g.incidents[m].status)
          && h.incidents[m].firstAlertAt == g.incidents[m].firstAlertAt)
    && (forall a, b :: a in members && b in members ==>
          && ((a, b) in h.edges <==> (a, b) in g.edges)
          && Weight(h.edges, a, b) == Weight(g.edges, a, b))
  }

  lemma {:induction false} OutboundInside(g: Graph, h: Graph, members: set<nat>, src: nat, dsts: set<nat>)
    requires SameInside(g, h, members) && src in members && dsts <= members
    ensures Outbound(h.edges, src, dsts) == Outbound(g.edges, src, dsts)
    decreases |dsts|
  {
    if dsts != {} { OutboundInside(g, h, members, src, dsts - {MinOf(dsts)}); }
  }

  lemma RootInside(g: Graph, h: Graph, members: set<nat>)
    requires SameInside(g, h, members) && members != {}
    ensures RankedRoot(h.incidents, h.edges, members) == RankedRoot(g.incidents, g.edges, members)
  {
    assert Leaders(h.edges, members) == Leaders(g.edges, members);
    forall a, b | a in members && b in members
      ensures Leads(h.edges, members, a, b) == Leads(g.edges, members, a, b)
      ensures Earlier(h.incidents, a, b) == Earlier(g.incidents, a, b)
    {
      OutboundInside(g, h, members, a, members);
      OutboundInside(g, h, members, b, members);
    }
    if Leaders(g.edges, members) == {} {
      assert Earliest(h.incidents, members) == Earliest(g.incidents, members);
    } else {
      assert Foremost(h.edges, members, Leaders(g.edges, members)) == Foremost(g.edges, members, Leaders(g.edges, members));
    }
  }

  lemma UrgencyInside(g: Graph, h: Graph, members: set<nat>)
    requires SameInside(g, h, members) && members != {}
    ensures MostUrgent(h.incidents, members) == MostUrgent(g.incidents, members)
  {
    assert Rank(MostUrgent(g.incidents, members)) == Rank(MostUrgent(h.incidents, members));
  }

  /** Nothing outside a group can change what the group's row should say. */
  lemma DerivedInside(g: Graph, h: Graph, members: set<nat>)
    requires SameInside(g, h, members) && members != {}
    ensures Derived(h.incidents, h.edges, members) == Derived(g.incidents, g.edges, members)
  {
    RootInside(g, h, members);
    UrgencyInside(g, h, members);
  }
}
