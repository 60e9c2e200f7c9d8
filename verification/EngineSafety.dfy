/** What every writer keeps, and what follows for whole runs of the engine. */
module EngineSafety {
  import opened Basics
  import opened IncidentMachine
  import opened StormGrouping
  import opened EngineRuns

  // ---- paths --------------------------------------------------------------------------------

  lemma ConnectedRefl(links: set<(nat, nat)>, a: nat)
    ensures Connected(links, a, a)
  {
    assert IsPath(links, [a]) && [a][0] == a && [a][|[a]| - 1] == a;
  }

  lemma ConnectedLink(links: set<(nat, nat)>, a: nat, b: nat)
    requires Linked(links, a, b)
    ensures Connected(links, a, b)
  {
    var p := [a, b];
    assert IsPath(links, p) && p[0] == a && p[|p| - 1] == b;
  }

  lemma ConnectedSym(links: set<(nat, nat)>, a: nat, b: nat)
    requires Connected(links, a, b)
    ensures Connected(links, b, a)
  {
    var p :| IsPath(links, p) && p[0] == a && p[|p| - 1] == b;
    var q := seq(|p|, i requires 0 <= i < |p| => p[|p| - 1 - i]);
    forall k | 0 <= k < |q| - 1 ensures Linked(links, q[k], q[k + 1]) {
      assert Linked(links, p[|p| - 2 - k], p[|p| - 2 - k + 1]);
    }
    assert IsPath(links, q) && q[0] == b && q[|q| - 1] == a;
  }

  lemma ConnectedTrans(links: set<(nat, nat)>, a: nat, b: nat, c: nat)
    requires Connected(links, a, b) && Connected(links, b, c)
    ensures Connected(links, a, c)
  {
    var p :| IsPath(links, p) && p[0] == a && p[|p| - 1] == b;
    var q :| IsPath(links, q) && q[0] == b && q[|q| - 1] == c;
    var r := p + q[1..];
    forall k | 0 <= k < |r| - 1 ensures Linked(links, r[k], r[k + 1]) {
      if k < |p| - 1 {
        assert Linked(links, p[k], p[k + 1]);
      } else {
        var j := k - (|p| - 1);
        assert r[k] == q[j] && r[k + 1] == q[j + 1];
        assert Linked(links, q[j], q[j + 1]);
      }
    }
    assert IsPath(links, r) && r[0] == a && r[|r| - 1] == c;
  }

  lemma ConnectedMono(links: set<(nat, nat)>, more: set<(nat, nat)>, a: nat, b: nat)
    requires links <= more && Connected(links, a, b)
    ensures Connected(more, a, b)
  {
    var p :| IsPath(links, p) && p[0] == a && p[|p| - 1] == b;
    assert IsPath(more, p) by {
      forall k | 0 <= k < |p| - 1 ensures Linked(more, p[k], p[k + 1]) {
        assert Linked(links, p[k], p[k + 1]);
      }
    }
  }

  lemma {:induction false} PathStaysInStorm(w: World, p: seq<nat>)
    requires LinksHold(w) && IsPath(w.links, p) && p[0] in w.g.incidents
    ensures p[|p| - 1] in w.g.incidents && SameStorm(w.g.incidents, p[0], p[|p| - 1])
    decreases |p|
  {
    if |p| > 1 {
      var init := p[..|p| - 1];
      forall k | 0 <= k < |init| - 1 ensures Linked(w.links, init[k], init[k + 1]) {
        assert Linked(w.links, p[k], p[k + 1]);
      }
      PathStaysInStorm(w, init);
      assert Linked(w.links, p[|p| - 2], p[|p| - 2 + 1]);
    }
  }

  // ---- refreshing ------------------------------------------------------------------------------

  lemma RefreshShape(g: Graph, gid: nat)
    requires gid in g.groups && Members(g.incidents, gid) != {}
    ensures var h := Refreshed(g, gid);
            && h.incidents == g.incidents && h.edges == g.edges
            && h.groups == g.groups[gid := g.groups[gid].(facts := Derived(g.incidents, g.edges, Members(g.incidents, gid)))]
  {
  }

  lemma RefreshedCurrent(g: Graph, gid: nat, x: nat)
    requires gid in g.groups && Members(g.incidents, gid) != {}
    requires x in g.groups && (x != gid ==> Current(g, x))
    ensures x in Refreshed(g, gid).groups && Current(Refreshed(g, gid), x)
  {
    RefreshShape(g, gid);
    assert Members(Refreshed(g, gid).incidents, x) == Members(g.incidents, x);
  }

  lemma RefreshGrouped(g: Graph, gid: nat)
    requires Grouped(g) && gid in g.groups
    ensures Members(g.incidents, gid) != {} && Grouped(Refreshed(g, gid))
    ensures Refreshed(g, gid).groups.Keys == g.groups.Keys
  {
    assert g.groups[gid].anchor in Members(g.incidents, gid);
    RefreshShape(g, gid);
    var h := Refreshed(g, gid);
    forall x | x in h.groups ensures h.groups[x].anchor in Members(h.incidents, x) {
      assert h.groups[x].anchor == g.groups[x].anchor && Members(h.incidents, x) == Members(g.incidents, x);
    }
  }

  lemma RefreshKeeps(g: Graph, gid: nat)
    requires Grouped(g) && gid in g.groups
    requires forall other :: other in g.groups && other != gid ==> Current(g, other)
    ensures Grouped(Refreshed(g, gid)) && AllCurrent(Refreshed(g, gid))
  {
    RefreshGrouped(g, gid);
    forall x | x in Refreshed(g, gid).groups ensures Current(Refreshed(g, gid), x) {
      RefreshedCurrent(g, gid, x);
    }
  }

  /** `h` differs from `g` at one incident, in edges at it, and in that incident's own group at most. */
  ghost predicate ChangesOnly(g: Graph, h: Graph, id: nat) {
    && id in h.incidents && h.incidents.Keys == g.incidents.Keys + {id}
    && (id in g.incidents ==> g.incidents[id].group == h.incidents[id].group)
    && (id !in g.incidents ==> h.incidents[id].group.None?)
    && (forall i :: i in g.incidents && i != id ==> h.incidents[i] == g.incidents[i])
    && OnlyTouches(g.edges, h.edges, id)
    && h.groups == g.groups
  }

  lemma ChangeKeepsMembers(g: Graph, h: Graph, id: nat, gid: nat)
    requires ChangesOnly(g, h, id)
    ensures Members(h.incidents, gid) == Members(g.incidents, gid)
  {
    forall i | i in h.incidents
      ensures i in Members(h.incidents, gid) <==> i in Members(g.incidents, gid) {}
  }

  lemma ChangeKeepsGrouped(g: Graph, h: Graph, id: nat)
    requires Grouped(g) && ChangesOnly(g, h, id)
    ensures Grouped(h)
  {
    forall gid | gid in h.groups ensures h.groups[gid].anchor in Members(h.incidents, gid) {
      ChangeKeepsMembers(g, h, id, gid);
    }
  }

  lemma InsideUntouched(g: Graph, h: Graph, id: nat, members: set<nat>)
    requires ChangesOnly(g, h, id) && members <= g.incidents.Keys && id !in members
    ensures SameInside(g, h, members)
  {
  }

  /** What only one incident, or edges at it, can see leaves every group it is not in current. */
  lemma OthersStayCurrent(g: Graph, h: Graph, id: nat, gid: nat)
    requires ChangesOnly(g, h, id) && gid in g.groups && Current(g, gid)
    requires h.incidents[id].group != Some(gid)
    ensures Current(h, gid)
  {
    var members := Members(g.incidents, gid);
    ChangeKeepsMembers(g, h, id, gid);
    InsideUntouched(g, h, id, members);
    DerivedInside(g, h, members);
  }

  // ---- uniting ------------------------------------------------------------------------------------

  /** Groups the union does not reach keep their members, their row and their facts. */
  lemma UnitedOthersMembers(g: Graph, scope: string, members: set<nat>, newGid: nat, now: int, gid: nat)
    requires members != {} && members <= g.incidents.Keys
    requires gid !in GroupsOf(g.incidents, members) && gid != newGid
    requires forall i :: i in g.incidents && g.incidents[i].group.Some? ==> g.incidents[i].group.value in g.groups
    ensures Members(United(g, scope, members, newGid, now).incidents, gid) == Members(g.incidents, gid)
    ensures forall i :: i in Members(g.incidents, gid) ==>
              United(g, scope, members, newGid, now).incidents[i] == g.incidents[i]
  {
    var h := United(g, scope, members, newGid, now);
    forall i | i in g.incidents ensures i in Members(h.incidents, gid) <==> i in Members(g.incidents, gid) {
      if i in members && g.incidents[i].group.Some? { GroupIsNamed(g.incidents, members, i); }
    }
    forall i | i in Members(g.incidents, gid) ensures h.incidents[i] == g.incidents[i] {
      if i in members { GroupIsNamed(g.incidents, members, i); }
    }
  }

  lemma GroupIsNamed(incidents: Incidents, members: set<nat>, i: nat)
    requires i in members && i in incidents && incidents[i].group.Some?
    ensures incidents[i].group.value in GroupsOf(incidents, members)
  {
  }

  lemma UnitedOthers(g: Graph, scope: string, members: set<nat>, newGid: nat, now: int, gid: nat)
    requires Grouped(g) && members != {} && members <= g.incidents.Keys
    requires newGid !in g.groups
    requires gid in g.groups && gid !in GroupsOf(g.incidents, members) && gid != newGid
    requires Current(g, gid)
    ensures var h := United(g, scope, members, newGid, now);
            gid in h.groups && h.groups[gid] == g.groups[gid] && Current(h, gid)
            && Members(h.incidents, gid) == Members(g.incidents, gid)
  {
    UnitedOthersMembers(g, scope, members, newGid, now, gid);
    DerivedInside(g, United(g, scope, members, newGid, now), Members(g.incidents, gid));
  }

  /** The surviving group holds the incident, its neighbours and every group it touched. */
  lemma UnitedMembers(g: Graph, scope: string, members: set<nat>, newGid: nat, now: int)
    requires Grouped(g) && members != {} && members <= g.incidents.Keys
    requires newGid !in g.groups
    ensures var h := United(g, scope, members, newGid, now); var gid := Survivor(g, members, newGid);
            Members(h.incidents, gid)
            == members + set i | i in g.incidents && g.incidents[i].group.Some?
                                 && g.incidents[i].group.value in GroupsOf(g.incidents, members)
  {
    var existing := GroupsOf(g.incidents, members);
    var gid := Survivor(g, members, newGid);
    var h := United(g, scope, members, newGid, now);
    forall i | i in g.incidents
      ensures i in Members(h.incidents, gid) <==>
              i in members || (g.incidents[i].group.Some? && g.incidents[i].group.value in existing)
    {
      if g.incidents[i].group.Some? { assert g.incidents[i].group.value in g.groups; }
    }
  }

  lemma UnitedSurvivor(g: Graph, scope: string, members: set<nat>, newGid: nat, now: int)
    requires Grouped(g) && members != {} && members <= g.incidents.Keys
    requires newGid !in g.groups
    ensures var h := United(g, scope, members, newGid, now); var gid := Survivor(g, members, newGid);
            && Members(h.incidents, gid)
               == members + set i | i in g.incidents && g.incidents[i].group.Some?
                                    && g.incidents[i].group.value in GroupsOf(g.incidents, members)
            && gid in h.groups && h.groups[gid].anchor in Members(h.incidents, gid)
            && (gid in g.groups ==> h.groups[gid] == g.groups[gid])
            && h.groups.Keys == (g.groups.Keys - GroupsOf(g.incidents, members)) + {gid}
  {
    UnitedMembers(g, scope, members, newGid, now);
    var existing := GroupsOf(g.incidents, members);
    var gid := Survivor(g, members, newGid);
    if existing != {} {
      assert gid in existing && gid in g.groups;
      assert g.groups[gid].anchor in Members(g.incidents, gid);
    }
  }

  /** Every group outside the union survives it untouched and current. */
  lemma UnitedOther(g: Graph, scope: string, members: set<nat>, newGid: nat, now: int, other: nat)
    requires Grouped(g) && members != {} && members <= g.incidents.Keys && newGid !in g.groups
    requires forall gid :: gid in g.groups && gid !in GroupsOf(g.incidents, members) ==> Current(g, gid)
    requires other in United(g, scope, members, newGid, now).groups && other != Survivor(g, members, newGid)
    ensures var h := United(g, scope, members, newGid, now);
            Current(h, other) && h.groups[other].anchor in Members(h.incidents, other)
  {
    UnitedSurvivor(g, scope, members, newGid, now);
    assert Current(g, other);
    UnitedOthers(g, scope, members, newGid, now, other);
    assert g.groups[other].anchor in Members(g.incidents, other);
  }

  lemma UnitedNames(g: Graph, scope: string, members: set<nat>, newGid: nat, now: int, i: nat)
    requires Grouped(g) && members != {} && members <= g.incidents.Keys && newGid !in g.groups
    requires i in g.incidents && United(g, scope, members, newGid, now).incidents[i].group.Some?
    ensures var h := United(g, scope, members, newGid, now); h.incidents[i].group.value in h.groups
  {
    UnitedSurvivor(g, scope, members, newGid, now);
    var h := United(g, scope, members, newGid, now);
    if h.incidents[i].group != Some(Survivor(g, members, newGid)) {
      assert h.incidents[i] == g.incidents[i];
      assert g.incidents[i].group.value in g.groups;
      assert i !in Members(h.incidents, Survivor(g, members, newGid));
    }
  }

  lemma UnitedGrouped(g: Graph, scope: string, members: set<nat>, newGid: nat, now: int)
    requires Grouped(g) && members != {} && members <= g.incidents.Keys && newGid !in g.groups
    requires forall gid :: gid in g.groups && gid !in GroupsOf(g.incidents, members) ==> Current(g, gid)
    ensures var h := United(g, scope, members, newGid, now); var gid := Survivor(g, members, newGid);
            && Grouped(h) && gid in h.groups
            && forall other :: other in h.groups && other != gid ==> Current(h, other)
  {
    var h := United(g, scope, members, newGid, now);
    UnitedSurvivor(g, scope, members, newGid, now);
    forall other | other in h.groups && other != Survivor(g, members, newGid)
      ensures Current(h, other) && h.groups[other].anchor in Members(h.incidents, other)
    {
      UnitedOther(g, scope, members, newGid, now, other);
    }
    forall i | i in h.incidents && h.incidents[i].group.Some? ensures h.incidents[i].group.value in h.groups {
      UnitedNames(g, scope, members, newGid, now, i);
    }
  }

  // ---- each writer keeps the groups ------------------------------------------------------------------

  lemma RefreshedForKeeps(g: Graph, id: nat)
    requires Grouped(g) && id in g.incidents
    requires forall gid :: gid in g.groups && g.incidents[id].group != Some(gid) ==> Current(g, gid)
    ensures Grouped(RefreshedFor(g, id)) && AllCurrent(RefreshedFor(g, id))
    ensures RefreshedFor(g, id).incidents == g.incidents
  {
    if g.incidents[id].group.Some? {
      var gid := g.incidents[id].group.value;
      RefreshKeeps(g, gid);
      RefreshKeepsRows(g, gid);
      assert RefreshedFor(g, id) == Refreshed(g, gid);
    }
  }

  /** Once an incident is observed only its own group can be out of date. */
  lemma ObservedGroups(w: World, e: Event)
    requires Grouped(w.g) && AllCurrent(w.g) && e.Alert? && Plausible(w, e)
    ensures var g := Observed(w.g, e);
            && ChangesOnly(w.g, g, e.id) && Grouped(g)
            && forall gid :: gid in g.groups && g.incidents[e.id].group != Some(gid) ==> Current(g, gid)
  {
    var g := Observed(w.g, e);
    assert ChangesOnly(w.g, g, e.id);
    ChangeKeepsGrouped(w.g, g, e.id);
    forall gid | gid in g.groups && g.incidents[e.id].group != Some(gid) ensures Current(g, gid) {
      assert Current(w.g, gid);
      OthersStayCurrent(w.g, g, e.id, gid);
    }
  }

  lemma AssignedKeeps(g: Graph, id: nat, scope: string, neighbours: set<nat>, newGid: nat, now: int)
    requires Grouped(g) && id in g.incidents && neighbours <= g.incidents.Keys && neighbours != {}
    requires newGid !in g.groups
    requires forall gid :: gid in g.groups && g.incidents[id].group != Some(gid) ==> Current(g, gid)
    ensures var h := Assigned(g, id, scope, neighbours, newGid, now);
            && Grouped(h) && AllCurrent(h)
            && h.incidents == United(g, scope, {id} + neighbours, newGid, now).incidents
  {
    var members := {id} + neighbours;
    assert forall gid :: gid in g.groups && gid !in GroupsOf(g.incidents, members) ==> Current(g, gid) by {
      assert id in members;
    }
    UnitedGrouped(g, scope, members, newGid, now);
    var h := United(g, scope, members, newGid, now);
    RefreshKeeps(h, Survivor(g, members, newGid));
    RefreshKeepsRows(h, Survivor(g, members, newGid));
  }

  lemma RefreshKeepsRows(g: Graph, gid: nat)
    ensures Refreshed(g, gid).incidents == g.incidents && Refreshed(g, gid).edges == g.edges
  {
  }

  lemma AlertGroups(w: World, e: Event)
    requires Grouped(w.g) && AllCurrent(w.g) && e.Alert? && Plausible(w, e)
    ensures Grouped(AfterAlert(w, e).g) && AllCurrent(AfterAlert(w, e).g)
    ensures AfterAlert(w, e).g.incidents
         == var g := Observed(w.g, e);
            if e.neighbours == {} then g.incidents
            else United(g, g.incidents[e.id].scope, {e.id} + e.neighbours, e.newGid, e.now).incidents
  {
    var g := Observed(w.g, e);
    ObservedGroups(w, e);
    if e.neighbours == {} {
      RefreshedForKeeps(g, e.id);
    } else {
      AssignedKeeps(g, e.id, g.incidents[e.id].scope, e.neighbours, e.newGid, e.now);
    }
  }

  lemma RestatedGroup(g: Graph, id: nat, status: State, gid: nat)
    requires id in g.incidents && gid in g.groups && Current(g, gid)
    requires g.incidents[id].group != Some(gid) || IsActive(status) == IsActive(g.incidents[id].status)
    ensures Current(Restated(g, id, status), gid)
  {
    var h := Restated(g, id, status);
    ChangeKeepsMembers(g, h, id, gid);
    DerivedInside(g, h, Members(g.incidents, gid));
  }

  /** Groups cannot tell one active state from another. */
  lemma RestatedActive(g: Graph, id: nat, status: State)
    requires Grouped(g) && AllCurrent(g) && id in g.incidents
    requires IsActive(status) == IsActive(g.incidents[id].status)
    ensures Grouped(Restated(g, id, status)) && AllCurrent(Restated(g, id, status))
  {
    var h := Restated(g, id, status);
    ChangeKeepsGrouped(g, h, id);
    forall gid | gid in h.groups ensures Current(h, gid) {
      assert gid in g.groups && Current(g, gid);
      RestatedGroup(g, id, status, gid);
    }
  }

  lemma QuietIs(w: World, id: nat)
    ensures AfterQuiet(w, id).g != w.g ==>
              && id in w.g.incidents && w.g.incidents[id].status.ACKNOWLEDGED?
              && AfterQuiet(w, id).g == Restated(w.g, id, QUIESCENT)
  {
  }

  /** A quiet deadline moves an acknowledged incident to quiescent, which is still active. */
  lemma QuietGroups(w: World, id: nat)
    requires Grouped(w.g) && AllCurrent(w.g)
    ensures Grouped(AfterQuiet(w, id).g) && AllCurrent(AfterQuiet(w, id).g)
  {
    QuietIs(w, id);
    if AfterQuiet(w, id).g != w.g { RestatedActive(w.g, id, QUIESCENT); }
  }

  lemma BypassGroups(w: World, e: Event)
    requires Grouped(w.g) && AllCurrent(w.g) && e.Bypass? && Plausible(w, e)
    ensures Grouped(AfterBypass(w, e).g) && AllCurrent(AfterBypass(w, e).g)
  {
    var h := AfterBypass(w, e).g;
    ChangeKeepsGrouped(w.g, h, e.id);
    forall gid | gid in h.groups ensures Current(h, gid) {
      assert Current(w.g, gid);
      OthersStayCurrent(w.g, h, e.id, gid);
    }
  }

  lemma RestatedIs(g: Graph, id: nat, status: State)
    requires id in g.incidents
    ensures var h := Restated(g, id, status);
            && ChangesOnly(g, h, id) && h.incidents.Keys == g.incidents.Keys && h.groups == g.groups
            && forall i :: i in g.incidents ==> h.incidents[i].group == g.incidents[i].group
  {
  }

  /** A group the incident is not in does not notice its new status. */
  lemma RestatedOther(g: Graph, id: nat, status: State, gid: nat)
    requires id in g.incidents && gid in g.groups && Current(g, gid) && g.incidents[id].group != Some(gid)
    ensures gid in Restated(g, id, status).groups && Current(Restated(g, id, status), gid)
  {
    RestatedGroup(g, id, status, gid);
  }

  lemma RestatedOthers(g: Graph, id: nat, status: State)
    requires Grouped(g) && AllCurrent(g) && id in g.incidents
    ensures var h := Restated(g, id, status);
            Grouped(h) && forall gid :: gid in h.groups && h.incidents[id].group != Some(gid) ==> Current(h, gid)
  {
    var h := Restated(g, id, status);
    RestatedIs(g, id, status);
    ChangeKeepsGrouped(g, h, id);
    forall gid | gid in h.groups && h.incidents[id].group != Some(gid) ensures Current(h, gid) {
      RestatedOther(g, id, status, gid);
    }
  }

  lemma RestatedRefreshed(g: Graph, id: nat, status: State)
    requires Grouped(g) && AllCurrent(g) && id in g.incidents
    ensures var after := RefreshedFor(Restated(g, id, status), id);
            && Grouped(after) && AllCurrent(after)
            && after.incidents.Keys == g.incidents.Keys
            && forall i :: i in g.incidents ==> after.incidents[i].group == g.incidents[i].group
  {
    RestatedIs(g, id, status);
    RestatedOthers(g, id, status);
    RefreshedForKeeps(Restated(g, id, status), id);
  }

  /** An external action restates its incident and refreshes its group, or leaves the graph. */
  lemma ExternalIs(w: World, inboundId: string, kind: EngineRuns.Kind, id: nat) returns (status: Option<State>)
    ensures status.None? ==> AfterExternal(w, inboundId, kind, id).g == w.g
    ensures status.Some? ==>
              && id in w.g.incidents && TriggerFor(kind).Some?
              && TransitionState(w.g.incidents[id].status, TriggerFor(kind).value) == status
              && AfterExternal(w, inboundId, kind, id).g == RefreshedFor(Restated(w.g, id, status.value), id)
  {
    status := if inboundId in w.inbound || TriggerFor(kind).None? || id !in w.g.incidents then None
              else TransitionState(w.g.incidents[id].status, TriggerFor(kind).value);
  }

  lemma ExternalGroups(w: World, inboundId: string, kind: EngineRuns.Kind, id: nat)
    requires Grouped(w.g) && AllCurrent(w.g)
    ensures var g := AfterExternal(w, inboundId, kind, id).g;
            && Grouped(g) && AllCurrent(g)
            && g.incidents.Keys == w.g.incidents.Keys
            && forall i :: i in w.g.incidents ==> g.incidents[i].group == w.g.incidents[i].group
  {
    var status := ExternalIs(w, inboundId, kind, id);
    if status.Some? { RestatedRefreshed(w.g, id, status.value); }
  }

  // ---- each writer keeps the partition ------------------------------------------------------------------

  /** Writers that neither regroup nor relink leave the partition as it was. */
  lemma PartitionKept(w: World, w': World)
    requires LinksHold(w) && StormsConnect(w) && w'.links == w.links
    requires w.g.incidents.Keys <= w'.g.incidents.Keys
    requires forall i :: i in w.g.incidents ==> w'.g.incidents[i].group == w.g.incidents[i].group
    requires forall i :: i in w'.g.incidents && i !in w.g.incidents ==> w'.g.incidents[i].group.None?
    ensures LinksHold(w') && StormsConnect(w')
  {
    forall a, b | a in w'.g.incidents && b in w'.g.incidents && SameStorm(w'.g.incidents, a, b)
      ensures Connected(w'.links, a, b)
    {
      if a == b { ConnectedRefl(w'.links, a); }
      else { assert SameStorm(w.g.incidents, a, b); }
    }
  }

  /** A member of the survivor is connected to the incident that united it. */
  lemma ReachesCentre(g: Graph, links: set<(nat, nat)>, id: nat, members: set<nat>, more: set<(nat, nat)>, i: nat)
    requires id in members && members <= g.incidents.Keys && links <= more
    requires forall m :: m in members && m != id ==> (id, m) in more
    requires forall a, b :: a in g.incidents && b in g.incidents && SameStorm(g.incidents, a, b) ==> Connected(links, a, b)
    requires i in g.incidents
    requires i in members || (g.incidents[i].group.Some? && g.incidents[i].group.value in GroupsOf(g.incidents, members))
    ensures Connected(more, i, id)
  {
    if i in members {
      if i == id { ConnectedRefl(more, i); } else { ConnectedLink(more, i, id); }
    } else {
      var m :| m in members && m in g.incidents && g.incidents[m].group == g.incidents[i].group;
      assert SameStorm(g.incidents, i, m);
      ConnectedMono(links, more, i, m);
      if m == id {} else {
        ConnectedLink(more, m, id);
        ConnectedTrans(more, i, m, id);
      }
    }
  }

  lemma UnitedConnects(g: Graph, links: set<(nat, nat)>, id: nat, scope: string, members: set<nat>,
                       newGid: nat, now: int, more: set<(nat, nat)>, a: nat, b: nat)
    requires Grouped(g) && id in members && members <= g.incidents.Keys && newGid !in g.groups && links <= more
    requires forall m :: m in members && m != id ==> (id, m) in more
    requires forall a, b :: a in g.incidents && b in g.incidents && SameStorm(g.incidents, a, b) ==> Connected(links, a, b)
    requires a in g.incidents && b in g.incidents
    requires SameStorm(United(g, scope, members, newGid, now).incidents, a, b)
    ensures Connected(more, a, b)
  {
    var h, gid := United(g, scope, members, newGid, now), Survivor(g, members, newGid);
    UnitedSurvivor(g, scope, members, newGid, now);
    if a == b {
      ConnectedRefl(more, a);
    } else if h.incidents[a].group == Some(gid) {
      assert a in Members(h.incidents, gid) && b in Members(h.incidents, gid);
      ReachesCentre(g, links, id, members, more, a);
      ReachesCentre(g, links, id, members, more, b);
      ConnectedSym(more, b, id);
      ConnectedTrans(more, a, id, b);
    } else {
      assert h.incidents[a] == g.incidents[a] && h.incidents[b] == g.incidents[b];
      ConnectedMono(links, more, a, b);
    }
  }

  lemma UnitedKeepsTogether(g: Graph, scope: string, members: set<nat>, newGid: nat, now: int, a: nat, b: nat)
    requires Grouped(g) && members != {} && members <= g.incidents.Keys && newGid !in g.groups
    requires a in g.incidents && b in g.incidents
    requires SameStorm(g.incidents, a, b) || (a in members && b in members)
    ensures SameStorm(United(g, scope, members, newGid, now).incidents, a, b)
  {
    var h, gid := United(g, scope, members, newGid, now), Survivor(g, members, newGid);
    UnitedSurvivor(g, scope, members, newGid, now);
    if a != b && !(a in members && b in members) {
      assert a in Members(h.incidents, gid) <==> b in Members(h.incidents, gid) by {
        if a in members { assert g.incidents[a].group.value in GroupsOf(g.incidents, members); }
        if b in members { assert g.incidents[b].group.value in GroupsOf(g.incidents, members); }
      }
    } else if a != b {
      assert a in Members(h.incidents, gid) && b in Members(h.incidents, gid);
    }
  }

  /** Regrouping after an alert, on a partition that matched the links before it. */
  lemma UnitedPartition(w: World, w': World, id: nat, scope: string, neighbours: set<nat>, newGid: nat, now: int)
    requires Grouped(w.g) && LinksHold(w) && StormsConnect(w)
    requires id in w.g.incidents && neighbours <= w.g.incidents.Keys && newGid !in w.g.groups
    requires w'.g.incidents == United(w.g, scope, {id} + neighbours, newGid, now).incidents
    requires w'.links == w.links + (set n | n in neighbours :: (id, n))
    ensures LinksHold(w') && StormsConnect(w')
  {
    var members := {id} + neighbours;
    forall a, b | (a, b) in w'.links
      ensures a in w'.g.incidents && b in w'.g.incidents && SameStorm(w'.g.incidents, a, b)
    {
      assert (a, b) in w.links || (a == id && b in neighbours);
      UnitedKeepsTogether(w.g, scope, members, newGid, now, a, b);
    }
    forall a, b | a in w'.g.incidents && b in w'.g.incidents && SameStorm(w'.g.incidents, a, b)
      ensures Connected(w'.links, a, b)
    {
      UnitedConnects(w.g, w.links, id, scope, members, newGid, now, w'.links, a, b);
    }
  }

  lemma AlertPartition(w: World, e: Event)
    requires Grouped(w.g) && AllCurrent(w.g) && LinksHold(w) && StormsConnect(w) && e.Alert? && Plausible(w, e)
    ensures LinksHold(AfterAlert(w, e)) && StormsConnect(AfterAlert(w, e))
  {
    var g := Observed(w.g, e);
    var w1 := w.(g := g);
    PartitionKept(w, w1);
    AlertGroups(w, e);
    if e.neighbours == {} {
      assert AfterAlert(w, e).links == w.links;
      PartitionKept(w1, AfterAlert(w, e));
    } else {
      ChangeKeepsGrouped(w.g, g, e.id);
      UnitedPartition(w1, AfterAlert(w, e), e.id, g.incidents[e.id].scope, e.neighbours, e.newGid, e.now);
    }
  }

  // ---- the ledger ------------------------------------------------------------------------------------

  lemma OneMoreRow(ledger: seq<Entry>, entry: Entry)
    ensures ExternalIds(ledger + [entry])
         == if entry.ExternalRow? then ExternalIds(ledger) + [entry.inboundId] else ExternalIds(ledger)
  {
    assert (ledger + [entry])[..|ledger|] == ledger;
  }

  lemma OrdinaryRow(w: World, w': World, entry: Entry)
    requires LedgerMatchesInbound(w) && !entry.ExternalRow?
    requires w'.ledger == w.ledger + [entry] && w'.inbound == w.inbound
    ensures LedgerMatchesInbound(w')
  {
    OneMoreRow(w.ledger, entry);
  }

  lemma CallbackRow(w: World, w': World, entry: Entry)
    requires LedgerMatchesInbound(w) && entry.ExternalRow? && entry.inboundId !in w.inbound
    requires w'.ledger == w.ledger + [entry] && w'.inbound == w.inbound[entry.inboundId := Applied]
    ensures LedgerMatchesInbound(w')
  {
    OneMoreRow(w.ledger, entry);
  }

  lemma ExternalLedger(w: World, inboundId: string, kind: Kind, id: nat)
    requires LedgerMatchesInbound(w)
    ensures LedgerMatchesInbound(AfterExternal(w, inboundId, kind, id))
  {
    var w' := AfterExternal(w, inboundId, kind, id);
    if w'.ledger != w.ledger {
      CallbackRow(w, w', ExternalRow(id, w'.ledger[|w.ledger|].state, inboundId));
    }
  }

  lemma LedgerKept(w: World, e: Event)
    requires LedgerMatchesInbound(w) && Plausible(w, e)
    ensures LedgerMatchesInbound(Next(w, e))
  {
    match e
    case Alert(_, _, _, _, _, _, _, _, _, _) =>
      OrdinaryRow(w, AfterAlert(w, e), AlertRow(e.id, Observed(w.g, e).incidents[e.id].status));
    case Bypass(id, _, _, _) => OrdinaryRow(w, AfterBypass(w, e), AlertRow(id, ACKNOWLEDGED));
    case QuietDeadline(id) =>
      if AfterQuiet(w, id) != w {
        OrdinaryRow(w, AfterQuiet(w, id), QuietRow(id, TransitionState(w.g.incidents[id].status, QUIET_DEADLINE).value));
      }
    case External(inboundId, kind, id) => ExternalLedger(w, inboundId, kind, id);
  }

  // ---- the invariant ------------------------------------------------------------------------------------

  /** The part of the invariant that is about storms. */
  ghost predicate StormsHold(w: World) {
    Grouped(w.g) && AllCurrent(w.g) && LinksHold(w) && StormsConnect(w)
  }

  lemma BypassStorms(w: World, e: Event)
    requires StormsHold(w) && e.Bypass? && Plausible(w, e)
    ensures StormsHold(AfterBypass(w, e))
  {
    BypassGroups(w, e);
    PartitionKept(w, AfterBypass(w, e));
  }

  lemma QuietStorms(w: World, id: nat)
    requires StormsHold(w)
    ensures StormsHold(AfterQuiet(w, id))
  {
    QuietGroups(w, id);
    PartitionKept(w, AfterQuiet(w, id));
  }

  lemma ExternalStorms(w: World, inboundId: string, kind: Kind, id: nat)
    requires StormsHold(w)
    ensures StormsHold(AfterExternal(w, inboundId, kind, id))
  {
    ExternalGroups(w, inboundId, kind, id);
    PartitionKept(w, AfterExternal(w, inboundId, kind, id));
  }

  lemma StormsKept(w: World, e: Event)
    requires StormsHold(w) && Plausible(w, e)
    ensures StormsHold(Next(w, e))
  {
    match e
    case Alert(_, _, _, _, _, _, _, _, _, _) =>
      AlertGroups(w, e);
      AlertPartition(w, e);
    case Bypass(_, _, _, _) => BypassStorms(w, e);
    case QuietDeadline(id) => QuietStorms(w, id);
    case External(inboundId, kind, id) => ExternalStorms(w, inboundId, kind, id);
  }

  lemma StepKeeps(w: World, e: Event)
    requires Inv(w) && Plausible(w, e)
    ensures Inv(Next(w, e))
  {
    LedgerKept(w, e);
    assert StormsHold(w);
    StormsKept(w, e);
    assert StormsHold(Next(w, e));
  }

  lemma RunStep(run: seq<World>, events: seq<Event>, k: nat)
    requires IsRun(run, events) && k < |events|
    ensures Plausible(run[k], events[k]) && run[k + 1] == Next(run[k], events[k])
  {
    assert Took(run, events, k);
  }

  lemma {:induction false} RunKeeps(run: seq<World>, events: seq<Event>, k: nat)
    requires IsRun(run, events) && k < |run|
    ensures Inv(run[k])
  {
    if k > 0 {
      RunKeeps(run, events, k - 1);
      RunStep(run, events, k - 1);
      StepKeeps(run[k - 1], events[k - 1]);
    }
  }
}
