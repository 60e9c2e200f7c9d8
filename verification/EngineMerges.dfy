/** What becomes of a storm group when groups turn out to be one (src/graph/storm_grouping.py). */
module EngineMerges {
  import opened Basics
  import opened IncidentMachine
  import opened StormGrouping
  import opened EngineRuns
  import opened EngineSafety

  /** The card a group owns: its anchor, and what makes the group itself. */
  predicate SameCard(before: Group, after: Group) {
    after.anchor == before.anchor && after.scope == before.scope && after.createdAt == before.createdAt
  }

  /** What one step makes of a group: itself, or part of an older one that was there and keeps its card. */
  ghost predicate Becomes(g: Graph, h: Graph, gid: nat, heir: nat)
    requires gid in g.groups
  {
    && heir in g.groups && heir in h.groups && SameCard(g.groups[heir], h.groups[heir])
    && (heir == gid || Older(g.groups, heir, gid))
    && (gid in h.groups ==> heir == gid)
    && Members(g.incidents, gid) <= Members(h.incidents, heir)
  }

  // ---- statements that merge nothing ----------------------------------------------------------------

  /** The same groups, with the same cards and members. */
  ghost predicate SameGroups(g: Graph, h: Graph) {
    && h.groups.Keys == g.groups.Keys
    && forall x :: x in g.groups ==>
         SameCard(g.groups[x], h.groups[x]) && Members(h.incidents, x) == Members(g.incidents, x)
  }

  lemma BecomesBetween(g: Graph, g': Graph, h': Graph, h: Graph, gid: nat, heir: nat)
    requires gid in g.groups && SameGroups(g, g') && SameGroups(h', h)
    requires Becomes(g', h', gid, heir)
    ensures Becomes(g, h, gid, heir)
  {
    assert SameCard(g.groups[gid], g'.groups[gid]) && SameCard(g.groups[heir], g'.groups[heir]);
  }

  lemma SameThen(g: Graph, h: Graph, i: Graph)
    requires SameGroups(g, h) && SameGroups(h, i)
    ensures SameGroups(g, i)
  {
    forall x | x in g.groups
      ensures SameCard(g.groups[x], i.groups[x]) && Members(i.incidents, x) == Members(g.incidents, x)
    {
      assert SameCard(g.groups[x], h.groups[x]) && SameCard(h.groups[x], i.groups[x]);
    }
  }

  lemma ChangeKeepsGroups(g: Graph, h: Graph, id: nat)
    requires ChangesOnly(g, h, id)
    ensures SameGroups(g, h)
  {
    forall x | x in g.groups ensures Members(h.incidents, x) == Members(g.incidents, x) {
      ChangeKeepsMembers(g, h, id, x);
    }
  }

  lemma RefreshKeepsGroups(g: Graph, gid: nat)
    requires gid in g.groups && Members(g.incidents, gid) != {}
    ensures SameGroups(g, Refreshed(g, gid))
  {
    RefreshShape(g, gid);
  }

  lemma RefreshForKeepsGroups(g: Graph, id: nat)
    requires Grouped(g) && id in g.incidents
    ensures SameGroups(g, RefreshedFor(g, id))
  {
    if g.incidents[id].group.Some? {
      RefreshGrouped(g, g.incidents[id].group.value);
      RefreshKeepsGroups(g, g.incidents[id].group.value);
    }
  }

  lemma RestatedKeepsGroups(g: Graph, id: nat, status: State)
    requires id in g.incidents
    ensures SameGroups(g, Restated(g, id, status))
  {
    RestatedIs(g, id, status);
    ChangeKeepsGroups(g, Restated(g, id, status), id);
  }

  lemma RestatedRefreshKeepsGroups(g: Graph, id: nat, status: State)
    requires Grouped(g) && id in g.incidents
    ensures SameGroups(g, RefreshedFor(Restated(g, id, status), id))
  {
    var h := Restated(g, id, status);
    RestatedIs(g, id, status);
    ChangeKeepsGroups(g, h, id);
    ChangeKeepsGrouped(g, h, id);
    RefreshForKeepsGroups(h, id);
    SameThen(g, h, RefreshedFor(h, id));
  }

  lemma QuietKeepsGroups(w: World, id: nat)
    ensures SameGroups(w.g, AfterQuiet(w, id).g)
  {
    QuietIs(w, id);
    if AfterQuiet(w, id).g != w.g { RestatedKeepsGroups(w.g, id, QUIESCENT); }
  }

  lemma ExternalKeepsGroups(w: World, inboundId: string, kind: EngineRuns.Kind, id: nat)
    requires Grouped(w.g)
    ensures SameGroups(w.g, AfterExternal(w, inboundId, kind, id).g)
  {
    var status := ExternalIs(w, inboundId, kind, id);
    if status.Some? { RestatedRefreshKeepsGroups(w.g, id, status.value); }
  }

  /** All writers but an alert leave the groups as they are. */
  lemma OthersKeepGroups(w: World, e: Event)
    requires Grouped(w.g) && Plausible(w, e) && !e.Alert?
    ensures SameGroups(w.g, Next(w, e).g)
  {
    match e
    case Bypass(id, _, _, _) => ChangeKeepsGroups(w.g, AfterBypass(w, e).g, id);
    case QuietDeadline(id) => QuietKeepsGroups(w, id);
    case External(inboundId, kind, id) => ExternalKeepsGroups(w, inboundId, kind, id);
  }

  // ---- uniting --------------------------------------------------------------------------------------

  lemma UnitedBecomes(g: Graph, scope: string, members: set<nat>, newGid: nat, now: int, gid: nat)
    requires Grouped(g) && members != {} && members <= g.incidents.Keys
    requires newGid !in g.groups && gid in g.groups
    ensures var heir := if gid in GroupsOf(g.incidents, members) then Survivor(g, members, newGid) else gid;
            Becomes(g, United(g, scope, members, newGid, now), gid, heir)
  {
    var h, survivor := United(g, scope, members, newGid, now), Survivor(g, members, newGid);
    UnitedSurvivor(g, scope, members, newGid, now);
    if gid in GroupsOf(g.incidents, members) {
      assert Members(g.incidents, gid) <= Members(h.incidents, survivor);
      var existing := GroupsOf(g.incidents, members) * g.groups.Keys;
      assert gid in existing && survivor == Oldest(g.groups, existing);
    } else {
      assert Members(g.incidents, gid) <= Members(h.incidents, gid);
    }
  }

  lemma AssignedBecomes(g: Graph, id: nat, scope: string, neighbours: set<nat>, newGid: nat, now: int, gid: nat)
      returns (heir: nat)
    requires Grouped(g) && id in g.incidents && neighbours <= g.incidents.Keys && neighbours != {}
    requires newGid !in g.groups && gid in g.groups
    ensures Becomes(g, Assigned(g, id, scope, neighbours, newGid, now), gid, heir)
  {
    var members := {id} + neighbours;
    var h, survivor := United(g, scope, members, newGid, now), Survivor(g, members, newGid);
    UnitedBecomes(g, scope, members, newGid, now, gid);
    heir := if gid in GroupsOf(g.incidents, members) then survivor else gid;
    UnitedSurvivor(g, scope, members, newGid, now);
    RefreshKeepsGroups(h, survivor);
    BecomesBetween(g, g, h, Refreshed(h, survivor), gid, heir);
  }

  lemma AlertBecomes(w: World, e: Event, gid: nat) returns (heir: nat)
    requires Grouped(w.g) && e.Alert? && Plausible(w, e) && gid in w.g.groups
    ensures Becomes(w.g, AfterAlert(w, e).g, gid, heir)
  {
    var g := Observed(w.g, e);
    ChangeKeepsGroups(w.g, g, e.id);
    ChangeKeepsGrouped(w.g, g, e.id);
    if e.neighbours == {} {
      heir := gid;
      RefreshForKeepsGroups(g, e.id);
      SameThen(w.g, g, AfterAlert(w, e).g);
    } else {
      var h := AfterAlert(w, e).g;
      heir := AssignedBecomes(g, e.id, g.incidents[e.id].scope, e.neighbours, e.newGid, e.now, gid);
      BecomesBetween(w.g, g, h, h, gid, heir);
    }
  }

  lemma StepBecomes(w: World, e: Event, gid: nat) returns (heir: nat)
    requires Grouped(w.g) && Plausible(w, e) && gid in w.g.groups
    ensures Becomes(w.g, Next(w, e).g, gid, heir)
  {
    if e.Alert? {
      heir := AlertBecomes(w, e, gid);
    } else {
      heir := gid;
      OthersKeepGroups(w, e);
    }
  }

  lemma RunStepBecomes(run: seq<World>, events: seq<Event>, k: nat, gid: nat) returns (heir: nat)
    requires IsRun(run, events) && k < |events| && gid in run[k].g.groups
    ensures Becomes(run[k].g, run[k + 1].g, gid, heir)
  {
    RunKeeps(run, events, k);
    RunStep(run, events, k);
    var w, e := run[k], events[k];
    heir := StepBecomes(w, e, gid);
  }

  // ---- who absorbs whom -----------------------------------------------------------------------------

  lemma OneStormEach(incidents: Incidents, m: nat, a: nat, b: nat)
    requires m in Members(incidents, a) && m in Members(incidents, b)
    ensures a == b
  {
  }

  lemma OlderIsStrict(groups: Groups, ids: set<nat>, first: nat)
    requires first in ids && ids <= groups.Keys && (forall x | x in ids :: x == first || Older(groups, first, x))
    ensures first == Oldest(groups, ids)
  {
  }

  /** All members of group `x` of `g` are in group `s` of `h`. */
  ghost predicate TakesIn(g: Graph, h: Graph, s: nat, x: nat) {
    Members(g.incidents, x) <= Members(h.incidents, s)
  }

  /** All members of the group go to `heir`, and to no other group. */
  ghost predicate GoesTo(g: Graph, h: Graph, gid: nat, heir: nat) {
    forall s :: TakesIn(g, h, s, gid) <==> s == heir
  }

  ghost function Merged(g: Graph, h: Graph, s: nat): set<nat> {
    set x | x in g.groups && TakesIn(g, h, s, x)
  }

  /** A group whose members all go to `s` has nobody else for an heir. */
  lemma HeirIsUnique(g: Graph, h: Graph, gid: nat, heir: nat, s: nat)
    requires Grouped(g) && gid in g.groups && Becomes(g, h, gid, heir)
    requires TakesIn(g, h, s, gid)
    ensures s == heir
  {
    OneStormEach(h.incidents, g.groups[gid].anchor, heir, s);
  }

  /**
   * In every step of every run: a group that takes others in is the oldest of them all and
   * keeps its anchor, its scope and its age; the others' rows go; and a new group takes in none.
   */
  lemma MergesKeepTheOldest(run: seq<World>, events: seq<Event>, k: nat, s: nat)
    requires IsRun(run, events) && k < |events| && s in run[k + 1].g.groups
    ensures var g, h := run[k].g, run[k + 1].g; var merged := Merged(g, h, s);
            && (merged != {} <==> s in g.groups)
            && (merged != {} ==> s == Oldest(g.groups, merged) && SameCard(g.groups[s], h.groups[s]))
            && (forall x :: x in merged && x != s ==> x !in h.groups)
  {
    RunKeeps(run, events, k);
    var g, h := run[k].g, run[k + 1].g;
    var merged := Merged(g, h, s);
    forall x | x in merged ensures Becomes(g, h, x, s) {
      var heir := RunStepBecomes(run, events, k, x);
      HeirIsUnique(g, h, x, heir, s);
    }
    if s in g.groups {
      var heir := RunStepBecomes(run, events, k, s);
      assert s in merged;
    }
    if merged != {} { OlderIsStrict(g.groups, merged, s); }
  }

  /** In every step of every run all members of a group go to one group, its heir, and to no other. */
  lemma OneHeirEach(run: seq<World>, events: seq<Event>, k: nat, gid: nat) returns (heir: nat)
    requires IsRun(run, events) && k < |events| && gid in run[k].g.groups
    ensures Becomes(run[k].g, run[k + 1].g, gid, heir)
    ensures GoesTo(run[k].g, run[k + 1].g, gid, heir)
  {
    RunKeeps(run, events, k);
    heir := RunStepBecomes(run, events, k, gid);
    var g, h := run[k].g, run[k + 1].g;
    forall s | TakesIn(g, h, s, gid) ensures s == heir { HeirIsUnique(g, h, gid, heir, s); }
  }

  // ---- new groups -------------------------------------------------------------------------------------

  /** A group that was not there: made by an alert of the incident and its neighbours, none of which had one. */
  ghost predicate IsNewStorm(g: Graph, h: Graph, e: Event, s: nat)
    requires s in h.groups
  {
    && e.Alert? && e.neighbours != {} && s == e.newGid
    && (forall i :: i in g.incidents && (i in e.neighbours || i == e.id) ==> g.incidents[i].group.None?)
    && Members(h.incidents, s) == {e.id} + e.neighbours
    && h.groups[s].createdAt == e.now
    && e.id in h.incidents && h.groups[s].scope == h.incidents[e.id].scope
    && var anchor := h.groups[s].anchor;
       && anchor in Members(h.incidents, s)
       && forall m :: m in Members(h.incidents, s) && m != anchor ==>
            var ours, theirs := h.incidents[anchor].firstAlertAt, h.incidents[m].firstAlertAt;
            ours < theirs || (ours == theirs && anchor < m)
  }

  lemma UnitedAnew(g: Graph, scope: string, members: set<nat>, newGid: nat, now: int)
    requires Grouped(g) && members != {} && members <= g.incidents.Keys && newGid !in g.groups
    ensures var h := United(g, scope, members, newGid, now);
            && (newGid in h.groups <==> GroupsOf(g.incidents, members) == {})
            && (newGid in h.groups ==>
                  && Members(h.incidents, newGid) == members
                  && h.groups[newGid] == Group(scope, Earliest(g.incidents, members), now, UNREFRESHED))
  {
    UnitedSurvivor(g, scope, members, newGid, now);
  }

  /** The new group of `members`, from the incidents as they were. */
  ghost predicate IsGroupOf(g: Graph, h: Graph, scope: string, members: set<nat>, gid: nat, now: int)
    requires members != {} && members <= g.incidents.Keys
  {
    && gid in h.groups && Members(h.incidents, gid) == members
    && h.groups[gid].createdAt == now && h.groups[gid].scope == scope
    && h.groups[gid].anchor == Earliest(g.incidents, members)
  }

  lemma AssignedAnew(g: Graph, id: nat, scope: string, neighbours: set<nat>, newGid: nat, now: int)
    requires Grouped(g) && id in g.incidents && neighbours <= g.incidents.Keys && neighbours != {} && newGid !in g.groups
    requires newGid in Assigned(g, id, scope, neighbours, newGid, now).groups
    ensures GroupsOf(g.incidents, {id} + neighbours) == {}
    ensures IsGroupOf(g, Assigned(g, id, scope, neighbours, newGid, now), scope, {id} + neighbours, newGid, now)
  {
    var members := {id} + neighbours;
    UnitedSurvivor(g, scope, members, newGid, now);
    RefreshShape(United(g, scope, members, newGid, now), Survivor(g, members, newGid));
    UnitedAnew(g, scope, members, newGid, now);
  }

  lemma AssignedKeepsLabels(g: Graph, id: nat, scope: string, neighbours: set<nat>, newGid: nat, now: int)
    requires id in g.incidents && neighbours <= g.incidents.Keys && neighbours != {}
    ensures var h := Assigned(g, id, scope, neighbours, newGid, now);
            h.incidents.Keys == g.incidents.Keys
            && forall i :: i in g.incidents ==> h.incidents[i] == g.incidents[i].(group := h.incidents[i].group)
  {
    RefreshKeepsRows(United(g, scope, {id} + neighbours, newGid, now), Survivor(g, {id} + neighbours, newGid));
  }

  /** The first of the members to have fired, by the rows before and after alike. */
  lemma AnchorIsFirst(g: Graph, h: Graph, members: set<nat>, m: nat)
    requires members != {} && members <= g.incidents.Keys && g.incidents.Keys == h.incidents.Keys && m in members
    requires forall i :: i in g.incidents ==> h.incidents[i] == g.incidents[i].(group := h.incidents[i].group)
    ensures var anchor := Earliest(g.incidents, members);
            anchor in members
            && (m != anchor ==>
                  var ours, theirs := h.incidents[anchor].firstAlertAt, h.incidents[m].firstAlertAt;
                  ours < theirs || (ours == theirs && anchor < m))
  {
  }

  lemma AlertAnew(w: World, e: Event, s: nat)
    requires Grouped(w.g) && e.Alert? && Plausible(w, e) && s in AfterAlert(w, e).g.groups && s !in w.g.groups
    ensures IsNewStorm(w.g, AfterAlert(w, e).g, e, s)
  {
    var g := Observed(w.g, e);
    AlertGraph(w, e);
    ChangeKeepsGrouped(w.g, g, e.id);
    if e.neighbours == {} { RefreshForKeepsGroups(g, e.id); } else { AssignedIsNew(w.g, g, e, s); }
  }

  lemma AlertGraph(w: World, e: Event)
    requires e.Alert? && Plausible(w, e)
    ensures var g := Observed(w.g, e);
            && ChangesOnly(w.g, g, e.id) && e.neighbours <= g.incidents.Keys && e.newGid !in g.groups
            && AfterAlert(w, e).g == if e.neighbours == {} then RefreshedFor(g, e.id)
                                     else Assigned(g, e.id, g.incidents[e.id].scope, e.neighbours, e.newGid, e.now)
  {
  }

  lemma AssignedIsNew(before: Graph, g: Graph, e: Event, s: nat)
    requires e.Alert? && e.neighbours != {} && ChangesOnly(before, g, e.id)
    requires Grouped(g) && e.id in g.incidents && e.neighbours <= g.incidents.Keys && e.newGid !in g.groups
    requires s in Assigned(g, e.id, g.incidents[e.id].scope, e.neighbours, e.newGid, e.now).groups && s !in before.groups
    ensures IsNewStorm(before, Assigned(g, e.id, g.incidents[e.id].scope, e.neighbours, e.newGid, e.now), e, s)
  {
    var scope, members := g.incidents[e.id].scope, {e.id} + e.neighbours;
    var h := Assigned(g, e.id, scope, e.neighbours, e.newGid, e.now);
    OnlyTheSurvivor(g, e.id, scope, e.neighbours, e.newGid, e.now, s);
    AssignedAnew(g, e.id, scope, e.neighbours, e.newGid, e.now);
    AssignedKeepsLabels(g, e.id, scope, e.neighbours, e.newGid, e.now);
    NoneGrouped(before, g, e);
    forall m | m in members
      ensures var anchor := Earliest(g.incidents, members);
              anchor in members
              && (m != anchor ==>
                    var ours, theirs := h.incidents[anchor].firstAlertAt, h.incidents[m].firstAlertAt;
                    ours < theirs || (ours == theirs && anchor < m))
    {
      AnchorIsFirst(g, h, members, m);
    }
  }

  lemma OnlyTheSurvivor(g: Graph, id: nat, scope: string, neighbours: set<nat>, newGid: nat, now: int, s: nat)
    requires Grouped(g) && id in g.incidents && neighbours <= g.incidents.Keys && neighbours != {} && newGid !in g.groups
    requires s in Assigned(g, id, scope, neighbours, newGid, now).groups && s !in g.groups
    ensures s == newGid
  {
    var members := {id} + neighbours;
    var h := United(g, scope, members, newGid, now);
    UnitedSurvivor(g, scope, members, newGid, now);
    RefreshShape(h, Survivor(g, members, newGid));
    assert s in h.groups;
  }

  lemma NoneGrouped(before: Graph, g: Graph, e: Event)
    requires e.Alert? && ChangesOnly(before, g, e.id) && GroupsOf(g.incidents, {e.id} + e.neighbours) == {}
    ensures forall i :: i in before.incidents && (i in e.neighbours || i == e.id) ==> before.incidents[i].group.None?
  {
    forall i | i in before.incidents && (i in e.neighbours || i == e.id) ensures before.incidents[i].group.None? {
      if g.incidents[i].group.Some? { GroupIsNamed(g.incidents, {e.id} + e.neighbours, i); }
    }
  }

  /** In every run a group only ever starts with an alert, anchored by the first of its members to have fired. */
  lemma NewStormsAreAnchoredByTheFirst(run: seq<World>, events: seq<Event>, k: nat, s: nat)
    requires IsRun(run, events) && k < |events| && s in run[k + 1].g.groups && s !in run[k].g.groups
    ensures IsNewStorm(run[k].g, run[k + 1].g, events[k], s)
  {
    RunKeeps(run, events, k);
    RunStep(run, events, k);
    if events[k].Alert? { AlertAnew(run[k], events[k], s); } else { OthersKeepGroups(run[k], events[k]); }
  }

  // ---- over whole runs ------------------------------------------------------------------------------

  /** `(created_at, group_id)` order between a group and one it may have become. */
  ghost predicate SameOrOlder(gid: nat, group: Group, heir: nat, into: Group) {
    || (heir == gid && SameCard(group, into))
    || into.createdAt < group.createdAt
    || (into.createdAt == group.createdAt && heir < gid)
  }

  /** The step after entry `i` of a lineage that starts at place `j`. */
  ghost predicate Passes(run: seq<World>, j: nat, heirs: seq<nat>, i: nat)
    requires j + |heirs| <= |run| && i + 1 < |heirs|
  {
    heirs[i] in run[j + i].g.groups && Becomes(run[j + i].g, run[j + i + 1].g, heirs[i], heirs[i + 1])
  }

  /** The groups one group of place `j` is part of from there on, one for each place. */
  ghost predicate IsLineage(run: seq<World>, j: nat, heirs: seq<nat>)
    requires j + |heirs| <= |run|
  {
    forall i: nat {:trigger Passes(run, j, heirs, i)} :: i + 1 < |heirs| ==> Passes(run, j, heirs, i)
  }

  lemma LineageGrows(run: seq<World>, j: nat, heirs: seq<nat>, heir: nat)
    requires heirs != [] && j + |heirs| < |run| && IsLineage(run, j, heirs)
    requires heirs[|heirs| - 1] in run[j + |heirs| - 1].g.groups
    requires Becomes(run[j + |heirs| - 1].g, run[j + |heirs|].g, heirs[|heirs| - 1], heir)
    ensures IsLineage(run, j, heirs + [heir])
  {
    var more := heirs + [heir];
    forall i: nat | i + 1 < |more| ensures Passes(run, j, more, i) {
      if i + 1 < |heirs| { assert Passes(run, j, heirs, i); }
    }
  }

  /**
   * Over any stretch of any run a group is passed on from step to step, each time to itself or
   * to an older group that was there and keeps its card; its members stay together in the last.
   */
  lemma {:induction false} GroupsArePassedOn(run: seq<World>, events: seq<Event>, j: nat, k: nat, gid: nat)
      returns (heirs: seq<nat>)
    requires IsRun(run, events) && j <= k < |run| && gid in run[j].g.groups
    ensures |heirs| == k - j + 1 && heirs[0] == gid && IsLineage(run, j, heirs)
    ensures var heir := heirs[k - j];
            && heir in run[k].g.groups && SameOrOlder(gid, run[j].g.groups[gid], heir, run[k].g.groups[heir])
            && Members(run[j].g.incidents, gid) <= Members(run[k].g.incidents, heir)
  {
    heirs := [gid];
    if j < k {
      var before := GroupsArePassedOn(run, events, j, k - 1, gid);
      var mid := before[k - 1 - j];
      var heir := RunStepBecomes(run, events, k - 1, mid);
      LineageGrows(run, j, before, heir);
      heirs := before + [heir];
    }
  }

  /** As long as a group has its row, its card is the same. */
  lemma {:induction false} AnchorsStay(run: seq<World>, events: seq<Event>, j: nat, k: nat, gid: nat)
    requires IsRun(run, events) && j <= k < |run|
    requires forall i :: j <= i <= k ==> gid in run[i].g.groups
    ensures SameCard(run[j].g.groups[gid], run[k].g.groups[gid])
    ensures Members(run[j].g.incidents, gid) <= Members(run[k].g.incidents, gid)
  {
    if j < k {
      AnchorsStay(run, events, j, k - 1, gid);
      var heir := RunStepBecomes(run, events, k - 1, gid);
    }
  }
}
