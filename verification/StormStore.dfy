/**
 * Storm grouping as the statements it runs (src/graph/storm_grouping.py).
 *
 * The fields are the `incidents`, `edges` and `incident_groups` tables. Each method is
 * proved to take them where the corresponding function of `StormGrouping` says;
 * `EngineRuns` composes exactly those functions.
 */
module StormStore {
  import opened Basics
  import opened IncidentMachine
  import opened StormGrouping

  class Store {
    var incidents: Incidents
    var edges: Edges
    var groups: Groups

    ghost function Tables(): Graph
      reads this
    {
      Graph(incidents, edges, groups)
    }

    constructor ()
      ensures Tables() == Graph(map[], map[], map[])
    {
      incidents, edges, groups := map[], map[], map[];
    }

    // ---- queries ------------------------------------------------------------------------

    method FindEarliest(ids: set<nat>) returns (first: nat)
      requires ids != {} && ids <= incidents.Keys
      ensures first == Earliest(incidents, ids)
    {
      first :| first in ids;
      var todo := ids - {first};
      ghost var done := {first};
      while todo != {}
        invariant done + todo == ids && first in done
        invariant forall x | x in done :: x == first || Earlier(incidents, first, x)
        decreases todo
      {
        var id :| id in todo;
        if Earlier(incidents, id, first) { first := id; }
        todo, done := todo - {id}, done + {id};
      }
      assert done == ids;
    }

    method SumOutbound(src: nat, dsts: set<nat>) returns (outbound: real, linked: bool)
      ensures outbound == Outbound(edges, src, dsts)
      ensures linked <==> exists d :: d in dsts && (src, d) in edges
    {
      var todo := dsts;
      outbound, linked := 0.0, false;
      while todo != {}
        invariant todo <= dsts
        invariant outbound + Outbound(edges, src, todo) == Outbound(edges, src, dsts)
        invariant linked <==> exists d :: d in dsts - todo && (src, d) in edges
        decreases todo
      {
        var d :| d in todo;
        OutboundTakesOut(edges, src, todo, d);
        if (src, d) in edges {
          outbound, linked := outbound + edges[(src, d)], true;
        }
        todo := todo - {d};
      }
    }

    /** `_rank_group_root`. */
    method RankGroupRoot(members: set<nat>) returns (root: nat)
      requires members != {} && members <= incidents.Keys
      ensures root == RankedRoot(incidents, edges, members)
    {
      var todo, found, best := members, false, 0.0;
      ghost var leaders: set<nat> := {};
      root := 0;
      while todo != {}
        invariant todo <= members
        invariant leaders == Leaders(edges, members) - todo
        invariant found <==> leaders != {}
        invariant found ==> root in leaders && best == Outbound(edges, root, members)
        invariant forall x | x in leaders :: x == root || Leads(edges, members, root, x)
        decreases todo
      {
        var id :| id in todo;
        var outbound, linked := SumOutbound(id, members);
        assert linked <==> id in Leaders(edges, members);
        if linked && (!found || outbound > best || (outbound == best && id < root)) {
          root, best := id, outbound;
        }
        if linked { found, leaders := true, leaders + {id}; }
        todo := todo - {id};
      }
      assert leaders == Leaders(edges, members);
      if !found { root := FindEarliest(members); }
    }

    method MostUrgentOf(members: set<nat>) returns (severity: Severity, active: bool)
      requires members != {} && members <= incidents.Keys
      ensures severity == MostUrgent(incidents, members)
      ensures active == SomeActive(incidents, members)
    {
      var todo := members;
      ghost var witnessed :| witnessed in members;
      severity, active := Low, false;
      while todo != {}
        invariant todo <= members
        invariant forall m | m in members - todo :: Rank(severity) <= Rank(incidents[m].severity)
        invariant severity.Low? || exists m :: m in members && incidents[m].severity == severity
        invariant active <==> exists m :: m in members - todo && IsActive(incidents[m].status)
        decreases todo
      {
        var id :| id in todo;
        if Rank(incidents[id].severity) < Rank(severity) { severity := incidents[id].severity; }
        active := active || IsActive(incidents[id].status);
        todo := todo - {id};
      }
      assert Rank(severity) <= Rank(MostUrgent(incidents, members));
    }

    /** `_strong_neighbours`: the strongest eligible incidents, at most `MAX_NEIGHBOURS` of them. */
    method StrongNeighbours(id: nat, scope: string) returns (chosen: set<nat>)
      ensures IsStrongest(Tables(), id, scope, chosen)
    {
      var rest := set o | o in incidents && o != id && incidents[o].scope == scope
                          && IsActive(incidents[o].status) && Strength(edges, id, o) >= GROUP_EDGE_THRESHOLD;
      assert rest == Eligible(Tables(), id, scope);
      chosen := TakeStrongest(id, rest);
    }

    method TakeStrongest(id: nat, eligible: set<nat>) returns (chosen: set<nat>)
      ensures chosen <= eligible
      ensures |chosen| == if |eligible| <= MAX_NEIGHBOURS then |eligible| else MAX_NEIGHBOURS
      ensures forall n, o :: n in chosen && o in eligible && o !in chosen ==>
                Strength(edges, id, o) <= Strength(edges, id, n)
    {
      var rest := eligible;
      chosen := {};
      while rest != {} && |chosen| < MAX_NEIGHBOURS
        invariant chosen !! rest && chosen + rest == eligible && |chosen| <= MAX_NEIGHBOURS
        invariant |chosen| + |rest| == |eligible|
        invariant forall n, o :: n in chosen && o in rest ==> Strength(edges, id, o) <= Strength(edges, id, n)
        decreases rest
      {
        var top := Strongest(id, rest);
        chosen, rest := chosen + {top}, rest - {top};
      }
    }

    method Strongest(id: nat, ids: set<nat>) returns (top: nat)
      requires ids != {}
      ensures top in ids && forall o | o in ids :: Strength(edges, id, o) <= Strength(edges, id, top)
    {
      var todo := ids;
      top :| top in todo;
      ghost var done: set<nat> := {};
      while todo != {}
        invariant done + todo == ids && top in ids
        invariant forall o | o in done :: Strength(edges, id, o) <= Strength(edges, id, top)
        decreases todo
      {
        var o :| o in todo;
        if Strength(edges, id, o) > Strength(edges, id, top) { top := o; }
        todo, done := todo - {o}, done + {o};
      }
    }

    method OldestGroup(ids: set<nat>) returns (gid: nat)
      requires ids != {}
      ensures gid == if ids * groups.Keys == {} then MinOf(ids) else Oldest(groups, ids * groups.Keys)
    {
      var known := ids * groups.Keys;
      if known == {} {
        gid := Least(ids);
        return;
      }
      gid :| gid in known;
      var todo := known - {gid};
      ghost var done := {gid};
      while todo != {}
        invariant done + todo == known && gid in done
        invariant forall x | x in done :: x == gid || Older(groups, gid, x)
        decreases todo
      {
        var id :| id in todo;
        if Older(groups, id, gid) { gid := id; }
        todo, done := todo - {id}, done + {id};
      }
      assert done == known;
    }

    method Least(ids: set<nat>) returns (least: nat)
      requires ids != {}
      ensures least == MinOf(ids)
    {
      least :| least in ids;
      var todo := ids - {least};
      ghost var done := {least};
      while todo != {}
        invariant done + todo == ids && least in done
        invariant forall x | x in done :: least <= x
        decreases todo
      {
        var id :| id in todo;
        if id < least { least := id; }
        todo, done := todo - {id}, done + {id};
      }
      assert done == ids;
    }

    // ---- statements ---------------------------------------------------------------------

    /** `_refresh_group`. */
    method RefreshGroup(gid: nat) returns (count: nat)
      modifies this
      ensures Tables() == Refreshed(old(Tables()), gid)
      ensures count == |Members(old(incidents), gid)|
    {
      var members := set i | i in incidents && incidents[i].group == Some(gid);
      count := |members|;
      if members == {} {
        groups := groups - {gid};
        return;
      }
      var severity, active := MostUrgentOf(members);
      var root := RankGroupRoot(members);
      if gid in groups {
        var facts := Facts(Some(root), incidents[root].title, count - 1, severity, count, active);
        groups := groups[gid := groups[gid].(facts := facts)];
      }
    }

    /** `_merge_groups`: the absorbed groups' members move over, then their rows go. */
    method MergeGroups(survivor: nat, absorbed: set<nat>)
      modifies this
      ensures incidents == Gathered(old(incidents), {}, absorbed, survivor)
      ensures groups == old(groups) - absorbed && edges == old(edges)
    {
      incidents := map i | i in incidents ::
        if incidents[i].group.Some? && incidents[i].group.value in absorbed
        then incidents[i].(group := Some(survivor)) else incidents[i];
      groups := groups - absorbed;
    }

    /** The group that takes `members` in: the oldest of those they are in, else a new one. */
    method Unite(members: set<nat>, scope: string, newGid: nat, now: int) returns (gid: nat, created: bool)
      requires members != {} && members <= incidents.Keys
      modifies this
      ensures Tables() == United(old(Tables()), scope, members, newGid, now)
      ensures gid == Survivor(old(Tables()), members, newGid)
      ensures created <==> GroupsOf(old(incidents), members) == {}
    {
      var existing := GroupsOf(incidents, members);
      ghost var rows := incidents;
      created := existing == {};
      if created {
        gid := newGid;
        var anchor := FindEarliest(members);
        groups := groups[gid := Group(scope, anchor, now, UNREFRESHED)];
      } else {
        gid := OldestGroup(existing);
        MergeGroups(gid, existing - {gid});
      }
      incidents := map i | i in incidents ::
        if i in members then incidents[i].(group := Some(gid)) else incidents[i];
      assert incidents == Gathered(rows, members, existing - {gid}, gid);
    }

    /** `assign_group`. */
    method AssignGroup(id: nat, scope: string, newGid: nat, now: int)
      returns (neighbours: set<nat>, assignment: Option<(nat, nat, nat, bool)>)
      requires id in incidents
      modifies this
      ensures IsStrongest(old(Tables()), id, scope, neighbours)
      ensures Tables() == Assigned(old(Tables()), id, scope, neighbours, newGid, now)
      ensures assignment.Some? ==>
        var (gid, anchor, count, created) := assignment.value;
        && gid == Survivor(old(Tables()), {id} + neighbours, newGid)
        && gid in groups && anchor == groups[gid].anchor && count == |Members(incidents, gid)|
        && (created <==> GroupsOf(old(incidents), {id} + neighbours) == {})
      ensures assignment.None? <==>
        neighbours == {} || Survivor(old(Tables()), {id} + neighbours, newGid) !in groups
    {
      neighbours := StrongNeighbours(id, scope);
      if neighbours == {} { return neighbours, None; }
      var gid, created := Unite({id} + neighbours, scope, newGid, now);
      var count := RefreshGroup(gid);
      assignment := if gid in groups then Some((gid, groups[gid].anchor, count, created)) else None;
    }

    /** `refresh_group_for_member`. */
    method RefreshGroupForMember(id: nat) returns (assignment: Option<(nat, nat, nat)>)
      modifies this
      ensures Tables() == RefreshedFor(old(Tables()), id)
      ensures assignment.Some? ==>
        var (gid, anchor, count) := assignment.value;
        && gid in groups && anchor == groups[gid].anchor && count == |Members(incidents, gid)|
        && id in Members(incidents, gid)
    {
      assignment := None;
      if id in incidents && incidents[id].group.Some? {
        var gid := incidents[id].group.value;
        var count := RefreshGroup(gid);
        if gid in groups { assignment := Some((gid, groups[gid].anchor, count)); }
      }
    }
  }
}
