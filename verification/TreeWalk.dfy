/**
 * The fallback walk over a Git object graph (src/github_integration/client.py,
 * `get_complete_tree`).
 *
 * The server's answers are a map from object name to response; nothing is assumed of it.
 * Object names are numbers.
 */
module TreeWalk {
  import opened Basics

  type Sha = nat

  datatype Kind = Tree | Blob | Commit

  datatype Entry = Entry(path: string, kind: Kind, sha: Sha)

  /** A tree response; an object that is missing from the map is one the client refuses or cannot get. */
  datatype Response = Response(entries: seq<Entry>, truncated: bool)

  type Objects = map<Sha, Response>

  datatype Limits = Limits(maxEntries: nat, maxRequests: nat, maxDepth: nat)

  datatype Outcome = Done | LimitExceeded | Cyclic | Refused

  // ---- the flattening -------------------------------------------------------------------------

  function Join(prefix: string, path: string): string {
    if prefix == "" then path else prefix + "/" + path
  }

  function Prefixed(prefix: string, e: Entry): Entry {
    e.(path := Join(prefix, e.path))
  }

  /** The tree's entries in preorder with whole paths; `None` if it is not complete within `height` levels. */
  ghost function Flat(objects: Objects, sha: Sha, prefix: string, height: nat): Option<seq<Entry>>
    decreases height, 1, 0
  {
    if sha !in objects || objects[sha].truncated then None
    else FlatAll(objects, objects[sha].entries, prefix, height)
  }

  ghost function FlatAll(objects: Objects, entries: seq<Entry>, prefix: string, height: nat): Option<seq<Entry>>
    decreases height, 0, |entries| + 1
  {
    if entries == [] then Some([])
    else
      var n := |entries| - 1;
      var init := FlatAll(objects, entries[..n], prefix, height);
      var last := FlatOne(objects, Prefixed(prefix, entries[n]), height);
      if init.None? || last.None? then None else Some(init.value + last.value)
  }

  /** An entry with its whole path, followed by what is below it. */
  ghost function FlatOne(objects: Objects, e: Entry, height: nat): Option<seq<Entry>>
    decreases height, 0, 0
  {
    if !e.kind.Tree? then Some([e])
    else if height == 0 then None
    else
      var sub := Flat(objects, e.sha, e.path, height - 1);
      if sub.None? then None else Some([e] + sub.value)
  }

  function Trees(entries: seq<Entry>): nat {
    if entries == [] then 0
    else Trees(entries[..|entries| - 1]) + if entries[|entries| - 1].kind.Tree? then 1 else 0
  }

  lemma {:induction false} TreesAdd(p: seq<Entry>, q: seq<Entry>)
    ensures Trees(p + q) == Trees(p) + Trees(q)
    decreases |q|
  {
    if q == [] {
      assert p + q == p;
    } else {
      assert (p + q)[..|p + q| - 1] == p + q[..|q| - 1];
      TreesAdd(p, q[..|q| - 1]);
    }
  }

  /** The trees among the entries, each of which is one more request. */
  lemma {:induction false} TreesCount(entries: seq<Entry>)
    ensures Trees(entries) == |set i | 0 <= i < |entries| && entries[i].kind.Tree?|
  {
    if entries != [] {
      var n := |entries| - 1;
      TreesCount(entries[..n]);
      var before := set i | 0 <= i < n && entries[..n][i].kind.Tree?;
      assert (set i | 0 <= i < |entries| && entries[i].kind.Tree?) == before + if entries[n].kind.Tree? then {n} else {};
    }
  }

  /** What the entries up to one place contribute is the front of what they all do. */
  lemma {:induction false} FlatFront(objects: Objects, entries: seq<Entry>, prefix: string, height: nat, n: nat)
    requires n <= |entries| && FlatAll(objects, entries, prefix, height).Some?
    ensures FlatAll(objects, entries[..n], prefix, height).Some?
    ensures FlatAll(objects, entries[..n], prefix, height).value <= FlatAll(objects, entries, prefix, height).value
    decreases |entries|
  {
    if n < |entries| {
      FlatFront(objects, entries[..|entries| - 1], prefix, height, n);
      assert entries[..|entries| - 1][..n] == entries[..n];
    } else {
      assert entries[..n] == entries;
    }
  }

  lemma TreesFront(p: seq<Entry>, q: seq<Entry>)
    requires p <= q
    ensures Trees(p) <= Trees(q) && |p| <= |q|
  {
    assert q == p + q[|p|..];
    TreesAdd(p, q[|p|..]);
  }

  /** More room changes nothing: a flattening does not depend on the height it fits in. */
  lemma {:induction false} HeightIsEnough(objects: Objects, sha: Sha, prefix: string, height: nat, more: nat)
    requires height <= more && Flat(objects, sha, prefix, height).Some?
    ensures Flat(objects, sha, prefix, more) == Flat(objects, sha, prefix, height)
    decreases height, 1, 0
  {
    HeightIsEnoughForAll(objects, objects[sha].entries, prefix, height, more);
  }

  lemma {:induction false} HeightIsEnoughForAll(objects: Objects, entries: seq<Entry>, prefix: string, height: nat, more: nat)
    requires height <= more && FlatAll(objects, entries, prefix, height).Some?
    ensures FlatAll(objects, entries, prefix, more) == FlatAll(objects, entries, prefix, height)
    decreases height, 0, |entries|
  {
    if entries != [] {
      HeightIsEnoughForAll(objects, entries[..|entries| - 1], prefix, height, more);
      var e := Prefixed(prefix, entries[|entries| - 1]);
      assert FlatOne(objects, e, height).Some?;
      if e.kind.Tree? { HeightIsEnough(objects, e.sha, e.path, height - 1, more - 1); }
    }
  }

  // ---- what a flattening holds ------------------------------------------------------------------

  /** Names joined by slashes. */
  function Slashed(names: seq<string>): string
    requires names != []
  {
    if |names| == 1 then names[0] else names[0] + "/" + Slashed(names[1..])
  }

  function Under(prefix: string, names: seq<string>): string
    requires names != []
  {
    if prefix == "" then Slashed(names) else prefix + "/" + Slashed(names)
  }

  /** Following the names from a tree, each through a tree, ends at an entry of this kind and object. */
  predicate Leads(objects: Objects, sha: Sha, names: seq<string>, kind: Kind, target: Sha)
    decreases |names|
  {
    names != [] && sha in objects
    && exists k :: 0 <= k < |objects[sha].entries| && LeadsBy(objects, objects[sha].entries[k], names, kind, target)
  }

  predicate LeadsBy(objects: Objects, e: Entry, names: seq<string>, kind: Kind, target: Sha)
    requires names != []
    decreases |names|, 0
  {
    e.path == names[0]
    && if |names| == 1 then e.kind == kind && e.sha == target
       else e.kind.Tree? && Leads(objects, e.sha, names[1..], kind, target)
  }

  ghost predicate IsBelow(objects: Objects, sha: Sha, prefix: string, x: Entry) {
    exists names: seq<string> :: Leads(objects, sha, names, x.kind, x.sha) && x.path == Under(prefix, names)
  }

  ghost predicate IsAtOrBelow(objects: Objects, e: Entry, prefix: string, x: Entry) {
    exists names: seq<string> :: names != [] && LeadsBy(objects, e, names, x.kind, x.sha) && x.path == Under(prefix, names)
  }

  /** The client refuses entries without a path. */
  ghost predicate AllNamed(objects: Objects) {
    forall sha, k :: sha in objects && 0 <= k < |objects[sha].entries| ==> objects[sha].entries[k].path != ""
  }

  lemma JoinUnder(prefix: string, path: string, names: seq<string>)
    requires path != "" && names != []
    ensures Under(Join(prefix, path), names) == Under(prefix, [path] + names)
  {
    var rest := Slashed(names);
    assert ([path] + names)[1..] == names;
    if prefix != "" { assert prefix + "/" + path + "/" + rest == prefix + "/" + (path + "/" + rest); }
  }

  lemma {:induction false} FlatHolds(objects: Objects, sha: Sha, prefix: string, height: nat, x: Entry)
    requires AllNamed(objects) && Flat(objects, sha, prefix, height).Some?
    ensures x in Flat(objects, sha, prefix, height).value <==> IsBelow(objects, sha, prefix, x)
    decreases height, 1, 0
  {
    var entries := objects[sha].entries;
    FlatAllHolds(objects, entries, prefix, height, x);
    if IsBelow(objects, sha, prefix, x) {
      var names: seq<string> :| Leads(objects, sha, names, x.kind, x.sha) && x.path == Under(prefix, names);
      var k :| 0 <= k < |entries| && LeadsBy(objects, entries[k], names, x.kind, x.sha);
      assert IsAtOrBelow(objects, entries[k], prefix, x);
    }
    if k :| 0 <= k < |entries| && IsAtOrBelow(objects, entries[k], prefix, x) {
      var names: seq<string> :| names != [] && LeadsBy(objects, entries[k], names, x.kind, x.sha) && x.path == Under(prefix, names);
      assert Leads(objects, sha, names, x.kind, x.sha);
    }
  }

  lemma {:induction false} FlatAllHolds(objects: Objects, entries: seq<Entry>, prefix: string, height: nat, x: Entry)
    requires AllNamed(objects) && FlatAll(objects, entries, prefix, height).Some?
    requires forall k :: 0 <= k < |entries| ==> entries[k].path != ""
    ensures x in FlatAll(objects, entries, prefix, height).value <==>
              exists k :: 0 <= k < |entries| && IsAtOrBelow(objects, entries[k], prefix, x)
    decreases height, 0, |entries|
  {
    if entries != [] {
      var n := |entries| - 1;
      FlatAllHolds(objects, entries[..n], prefix, height, x);
      FlatOneHolds(objects, entries[n], prefix, height, x);
      if k :| 0 <= k < |entries| && IsAtOrBelow(objects, entries[k], prefix, x) {
        if k < n { assert IsAtOrBelow(objects, entries[..n][k], prefix, x); }
      }
      if k :| 0 <= k < n && IsAtOrBelow(objects, entries[..n][k], prefix, x) {
        assert IsAtOrBelow(objects, entries[k], prefix, x);
      }
    }
  }

  lemma {:induction false} FlatOneHolds(objects: Objects, e: Entry, prefix: string, height: nat, x: Entry)
    requires AllNamed(objects) && e.path != "" && FlatOne(objects, Prefixed(prefix, e), height).Some?
    ensures x in FlatOne(objects, Prefixed(prefix, e), height).value <==> IsAtOrBelow(objects, e, prefix, x)
    decreases height, 0, 0
  {
    var path := Join(prefix, e.path);
    if x == Prefixed(prefix, e) {
      assert LeadsBy(objects, e, [e.path], x.kind, x.sha) && x.path == Under(prefix, [e.path]);
    }
    if e.kind.Tree? {
      FlatHolds(objects, e.sha, path, height - 1, x);
      BelowIsBelow(objects, e, prefix, x);
    } else if IsAtOrBelow(objects, e, prefix, x) {
      var names: seq<string> :| names != [] && LeadsBy(objects, e, names, x.kind, x.sha) && x.path == Under(prefix, names);
      assert names == [e.path];
    }
  }

  lemma BelowIsBelow(objects: Objects, e: Entry, prefix: string, x: Entry)
    requires e.kind.Tree? && e.path != ""
    ensures IsAtOrBelow(objects, e, prefix, x) <==>
              x == Prefixed(prefix, e) || IsBelow(objects, e.sha, Join(prefix, e.path), x)
  {
    var path := Join(prefix, e.path);
    if x == Prefixed(prefix, e) {
      assert LeadsBy(objects, e, [e.path], x.kind, x.sha) && x.path == Under(prefix, [e.path]);
    }
    if IsBelow(objects, e.sha, path, x) {
      var names: seq<string> :| Leads(objects, e.sha, names, x.kind, x.sha) && x.path == Under(path, names);
      JoinUnder(prefix, e.path, names);
      assert ([e.path] + names)[1..] == names;
      assert LeadsBy(objects, e, [e.path] + names, x.kind, x.sha);
    }
    if IsAtOrBelow(objects, e, prefix, x) {
      var names: seq<string> :| names != [] && LeadsBy(objects, e, names, x.kind, x.sha) && x.path == Under(prefix, names);
      if |names| == 1 {
        assert names == [e.path];
      } else {
        assert names == [e.path] + names[1..];
        JoinUnder(prefix, e.path, names[1..]);
        assert Leads(objects, e.sha, names[1..], x.kind, x.sha) && x.path == Under(path, names[1..]);
      }
    }
  }

  /** The names lead from the tree to the entry's object, and slashes between them make its path. */
  predicate LeadsAs(objects: Objects, sha: Sha, names: seq<string>, x: Entry) {
    Leads(objects, sha, names, x.kind, x.sha) && x.path == Slashed(names)
  }

  /** A flattening holds an entry exactly if names lead to it from the root. */
  lemma WholePaths(objects: Objects, sha: Sha, height: nat, x: Entry)
    requires AllNamed(objects) && Flat(objects, sha, "", height).Some?
    ensures x in Flat(objects, sha, "", height).value <==> exists names: seq<string> :: LeadsAs(objects, sha, names, x)
  {
    FlatHolds(objects, sha, "", height, x);
    if IsBelow(objects, sha, "", x) {
      var names: seq<string> :| Leads(objects, sha, names, x.kind, x.sha) && x.path == Under("", names);
      assert LeadsAs(objects, sha, names, x);
    }
    if names: seq<string> :| LeadsAs(objects, sha, names, x) {
      assert Leads(objects, sha, names, x.kind, x.sha) && x.path == Under("", names);
    }
  }

  /** What is below the tree at place `i` comes right after it. */
  ghost predicate OpensAt(objects: Objects, flat: seq<Entry>, i: nat)
    requires i < |flat|
  {
    exists height: nat :: OpensWithin(objects, flat, i, height)
  }

  ghost predicate OpensWithin(objects: Objects, flat: seq<Entry>, i: nat, height: nat)
    requires i < |flat|
  {
    var below := Flat(objects, flat[i].sha, flat[i].path, height);
    below.Some? && below.value <= flat[i + 1..]
  }

  ghost predicate Opens(objects: Objects, flat: seq<Entry>) {
    forall i :: 0 <= i < |flat| && flat[i].kind.Tree? ==> OpensAt(objects, flat, i)
  }

  lemma OpensJoined(objects: Objects, p: seq<Entry>, q: seq<Entry>)
    requires Opens(objects, p) && Opens(objects, q)
    ensures Opens(objects, p + q)
  {
    var flat := p + q;
    forall i | 0 <= i < |flat| && flat[i].kind.Tree? ensures OpensAt(objects, flat, i) {
      if i < |p| {
        assert OpensAt(objects, p, i);
        var height: nat :| OpensWithin(objects, p, i, height);
        assert flat[i + 1..] == p[i + 1..] + q;
        assert OpensWithin(objects, flat, i, height);
      } else {
        assert OpensAt(objects, q, i - |p|);
        var height: nat :| OpensWithin(objects, q, i - |p|, height);
        assert flat[i + 1..] == q[i - |p| + 1..];
        assert OpensWithin(objects, flat, i, height);
      }
    }
  }

  /** A flattening is in preorder: each tree is followed at once by its own flattening. */
  lemma {:induction false} FlatIsPreorder(objects: Objects, sha: Sha, prefix: string, height: nat)
    requires Flat(objects, sha, prefix, height).Some?
    ensures Opens(objects, Flat(objects, sha, prefix, height).value)
    decreases height, 1, 0
  {
    FlatAllIsPreorder(objects, objects[sha].entries, prefix, height);
  }

  lemma {:induction false} FlatAllIsPreorder(objects: Objects, entries: seq<Entry>, prefix: string, height: nat)
    requires FlatAll(objects, entries, prefix, height).Some?
    ensures Opens(objects, FlatAll(objects, entries, prefix, height).value)
    decreases height, 0, |entries|
  {
    if entries != [] {
      var n := |entries| - 1;
      var e := Prefixed(prefix, entries[n]);
      FlatAllIsPreorder(objects, entries[..n], prefix, height);
      var last := FlatOne(objects, e, height).value;
      if e.kind.Tree? {
        var below := Flat(objects, e.sha, e.path, height - 1).value;
        FlatIsPreorder(objects, e.sha, e.path, height - 1);
        assert last[1..] == below;
        assert [e][1..] == [] && OpensWithin(objects, last, 0, height - 1);
        OpensAfter(objects, e, below);
      }
      OpensJoined(objects, FlatAll(objects, entries[..n], prefix, height).value, last);
    }
  }

  lemma OpensAfter(objects: Objects, e: Entry, below: seq<Entry>)
    requires Opens(objects, below) && OpensAt(objects, [e] + below, 0)
    ensures Opens(objects, [e] + below)
  {
    var flat := [e] + below;
    forall i | 0 < i < |flat| && flat[i].kind.Tree? ensures OpensAt(objects, flat, i) {
      assert OpensAt(objects, below, i - 1);
      var height: nat :| OpensWithin(objects, below, i - 1, height);
      assert flat[i + 1..] == below[i..];
      assert OpensWithin(objects, flat, i, height);
    }
  }

  // ---- cycles ---------------------------------------------------------------------------------

  predicate IsChild(objects: Objects, parent: Sha, child: Sha) {
    && parent in objects
    && exists k :: (&& 0 <= k < |objects[parent].entries|
                    && objects[parent].entries[k].kind.Tree? && objects[parent].entries[k].sha == child)
  }

  predicate IsChain(objects: Objects, chain: seq<Sha>) {
    forall k :: 0 <= k < |chain| - 1 ==> IsChild(objects, chain[k], chain[k + 1])
  }

  /** A chain of trees that leads from an object back to itself. */
  predicate IsCycle(objects: Objects, chain: seq<Sha>) {
    |chain| >= 2 && chain[0] == chain[|chain| - 1] && IsChain(objects, chain)
  }

  predicate Flattens(objects: Objects, sha: Sha, height: nat)
    decreases height
  {
    sha in objects && !objects[sha].truncated
    && forall k :: 0 <= k < |objects[sha].entries| && objects[sha].entries[k].kind.Tree? ==>
         height > 0 && Flattens(objects, objects[sha].entries[k].sha, height - 1)
  }

  /** Whether a tree can be flattened does not depend on the paths. */
  lemma {:induction false} FlatIfFlattens(objects: Objects, sha: Sha, prefix: string, height: nat)
    ensures Flat(objects, sha, prefix, height).Some? <==> Flattens(objects, sha, height)
    decreases height, 1, 0
  {
    if sha in objects && !objects[sha].truncated {
      FlatAllIfFlattens(objects, objects[sha].entries, prefix, height);
    }
  }

  lemma {:induction false} FlatAllIfFlattens(objects: Objects, entries: seq<Entry>, prefix: string, height: nat)
    ensures FlatAll(objects, entries, prefix, height).Some? <==>
              forall k :: 0 <= k < |entries| && entries[k].kind.Tree? ==> height > 0 && Flattens(objects, entries[k].sha, height - 1)
    decreases height, 0, |entries|
  {
    if entries != [] {
      var n := |entries| - 1;
      FlatAllIfFlattens(objects, entries[..n], prefix, height);
      if entries[n].kind.Tree? && height > 0 {
        FlatIfFlattens(objects, entries[n].sha, Join(prefix, entries[n].path), height - 1);
      }
    }
  }

  lemma {:induction false} FlattensDown(objects: Objects, chain: seq<Sha>, height: nat)
    requires chain != [] && IsChain(objects, chain) && Flattens(objects, chain[0], height)
    ensures |chain| - 1 <= height && Flattens(objects, chain[|chain| - 1], height - (|chain| - 1))
    decreases |chain|
  {
    if |chain| > 1 {
      var n := |chain| - 1;
      FlattensDown(objects, chain[..n], height);
      assert IsChild(objects, chain[n - 1], chain[n - 1 + 1]);
    }
  }

  /** No object on a cycle has a flattening, however much room there is. */
  lemma {:induction false} CyclesNeverFlatten(objects: Objects, cycle: seq<Sha>, prefix: string, height: nat)
    requires IsCycle(objects, cycle)
    ensures Flat(objects, cycle[0], prefix, height).None?
  {
    FlatIfFlattens(objects, cycle[0], prefix, height);
    if Flattens(objects, cycle[0], height) {
      FlattensDown(objects, cycle, height);
      CyclesNeverFlatten(objects, cycle, prefix, height - (|cycle| - 1));
      FlatIfFlattens(objects, cycle[0], prefix, height - (|cycle| - 1));
    }
  }

  /** Nor has one from which a cycle can be reached. */
  lemma ReachingACycleNeverFlattens(objects: Objects, chain: seq<Sha>, cycle: seq<Sha>, prefix: string, height: nat)
    requires chain != [] && IsChain(objects, chain) && IsCycle(objects, cycle) && chain[|chain| - 1] == cycle[0]
    ensures Flat(objects, chain[0], prefix, height).None?
  {
    FlatIfFlattens(objects, chain[0], prefix, height);
    if Flattens(objects, chain[0], height) {
      FlattensDown(objects, chain, height);
      CyclesNeverFlatten(objects, cycle, prefix, height - (|chain| - 1));
      FlatIfFlattens(objects, cycle[0], prefix, height - (|chain| - 1));
    }
  }

  /** A chain at whose end no walk can be completed: the object is missing or truncated, or was there before. */
  predicate IsDeadEnd(objects: Objects, chain: seq<Sha>)
    requires chain != []
  {
    var last := chain[|chain| - 1];
    last !in objects || objects[last].truncated || last in chain[..|chain| - 1]
  }

  lemma {:induction false} FindDeadEnd(objects: Objects, trail: seq<Sha>, sha: Sha) returns (chain: seq<Sha>)
    requires (forall i, j :: 0 <= i < j < |trail| ==> trail[i] != trail[j]) && forall x :: x in trail ==> x in objects
    requires IsChain(objects, trail + [sha])
    requires |trail| <= |objects| && !Flattens(objects, sha, |objects| - |trail|)
    ensures trail + [sha] <= chain && IsChain(objects, chain) && IsDeadEnd(objects, chain)
    decreases |objects| - |trail|
  {
    chain := trail + [sha];
    if sha in objects && !objects[sha].truncated && sha !in trail {
      var k :| 0 <= k < |objects[sha].entries| && objects[sha].entries[k].kind.Tree?
               && !(|objects| - |trail| > 0 && Flattens(objects, objects[sha].entries[k].sha, |objects| - |trail| - 1));
      AllDifferent(chain, objects.Keys);
      ChildExtends(objects, chain, k);
      chain := FindDeadEnd(objects, trail + [sha], objects[sha].entries[k].sha);
    } else if sha in trail {
      assert chain[..|trail|] == trail;
    }
  }

  lemma {:induction false} AllDifferent(xs: seq<Sha>, all: set<Sha>)
    requires (forall i, j :: 0 <= i < j < |xs| ==> xs[i] != xs[j]) && forall x :: x in xs ==> x in all
    ensures |xs| <= |all|
    decreases |xs|
  {
    if xs != [] {
      var n := |xs| - 1;
      AllDifferent(xs[..n], all - {xs[n]});
    }
  }

  predicate LeadsToDeadEnd(objects: Objects, sha: Sha, chain: seq<Sha>) {
    chain != [] && chain[0] == sha && IsChain(objects, chain) && IsDeadEnd(objects, chain)
  }

  lemma FlatteningMeetsNoDeadEnd(objects: Objects, sha: Sha, height: nat, chain: seq<Sha>)
    requires Flattens(objects, sha, height)
    ensures !LeadsToDeadEnd(objects, sha, chain)
  {
    if LeadsToDeadEnd(objects, sha, chain) {
      FlattensDown(objects, chain, height);
      var n := |chain| - 1;
      if chain[n] in chain[..n] {
        assert chain == chain[..n] + [chain[n]];
        CycleInTrail(objects, chain[..n], chain[n], "", height - n);
        FlatIfFlattens(objects, chain[n], "", height - n);
      }
    }
  }

  ghost predicate EverFlattens(objects: Objects, sha: Sha) {
    exists height: nat :: Flattens(objects, sha, height)
  }

  /** Exactly which trees have a flattening: those from which no chain of trees comes to a dead end. */
  lemma WhatFlattens(objects: Objects, sha: Sha)
    ensures EverFlattens(objects, sha) <==> !exists chain :: LeadsToDeadEnd(objects, sha, chain)
  {
    if EverFlattens(objects, sha) {
      var height: nat :| Flattens(objects, sha, height);
      forall chain ensures !LeadsToDeadEnd(objects, sha, chain) {
        FlatteningMeetsNoDeadEnd(objects, sha, height, chain);
      }
    } else {
      assert IsChain(objects, [] + [sha]);
      var chain := FindDeadEnd(objects, [], sha);
      assert chain[0] == ([] + [sha])[0];
      assert LeadsToDeadEnd(objects, sha, chain);
    }
  }

  /** A chain that ends where it has been before holds a cycle. */
  lemma CycleInTrail(objects: Objects, trail: seq<Sha>, sha: Sha, prefix: string, height: nat)
    requires sha in trail && IsChain(objects, trail + [sha])
    ensures exists cycle :: IsCycle(objects, cycle)
    ensures Flat(objects, sha, prefix, height).None?
  {
    var k :| 0 <= k < |trail| && trail[k] == sha;
    var cycle := (trail + [sha])[k..];
    forall i | 0 <= i < |cycle| - 1 ensures IsChild(objects, cycle[i], cycle[i + 1]) {
      assert IsChild(objects, (trail + [sha])[k + i], (trail + [sha])[k + i + 1]);
    }
    assert IsCycle(objects, cycle);
    CyclesNeverFlatten(objects, cycle, prefix, height);
  }

  // ---- the walk -------------------------------------------------------------------------------

  /** The complete, bounded flattening the walk is for. */
  ghost predicate Fits(limits: Limits, flat: Option<seq<Entry>>, collected: nat, requests: int) {
    && flat.Some?
    && collected + |flat.value| <= limits.maxEntries
    && requests + 1 + Trees(flat.value) <= limits.maxRequests
  }

  /** What was collected and how many objects were asked for; `requests` leaves out the tree being walked. */
  datatype Progress = Progress(collected: seq<Entry>, requests: int)

  function Advanced(before: Progress, flat: seq<Entry>): Progress {
    Progress(before.collected + flat, before.requests + Trees(flat))
  }

  /** A walk is done exactly if what it is for fits, and then that is what it adds. */
  ghost predicate Achieves(limits: Limits, flat: Option<seq<Entry>>, before: Progress, done: bool, after: Progress) {
    && (done <==> Fits(limits, flat, |before.collected|, before.requests))
    && (done ==> after == Advanced(before, flat.value))
  }

  lemma AdvancedTwice(before: Progress, p: seq<Entry>, q: seq<Entry>)
    ensures Advanced(Advanced(before, p), q) == Advanced(before, p + q)
  {
    TreesAdd(p, q);
    assert before.collected + p + q == before.collected + (p + q);
  }

  lemma FitsFront(objects: Objects, limits: Limits, entries: seq<Entry>, prefix: string, height: nat, n: nat,
                  collected: nat, requests: int)
    requires n <= |entries| && Fits(limits, FlatAll(objects, entries, prefix, height), collected, requests)
    ensures Fits(limits, FlatAll(objects, entries[..n], prefix, height), collected, requests)
  {
    FlatFront(objects, entries, prefix, height, n);
    TreesFront(FlatAll(objects, entries[..n], prefix, height).value, FlatAll(objects, entries, prefix, height).value);
  }

  lemma OneMoreEntry(objects: Objects, entries: seq<Entry>, prefix: string, height: nat, n: nat)
    requires n < |entries| && FlatAll(objects, entries[..n], prefix, height).Some?
    ensures var part, one := FlatAll(objects, entries[..n], prefix, height).value,
                             FlatOne(objects, Prefixed(prefix, entries[n]), height);
            && FlatAll(objects, entries[..n + 1], prefix, height)
               == (if one.None? then None else Some(part + one.value))
            && (one.Some? ==> Trees(part + one.value) == Trees(part) + Trees(one.value))
  {
    var part, one := FlatAll(objects, entries[..n], prefix, height).value, FlatOne(objects, Prefixed(prefix, entries[n]), height);
    assert entries[..n + 1][..n] == entries[..n];
    if one.Some? { TreesAdd(part, one.value); }
  }

  /** One entry done takes the walk over its tree one entry further; one that is not ends it. */
  lemma EntryAchieves(objects: Objects, limits: Limits, entries: seq<Entry>, prefix: string, height: nat, n: nat,
                      start: Progress, part: seq<Entry>, done: bool, after: Progress)
    requires n < |entries| && FlatAll(objects, entries[..n], prefix, height) == Some(part)
    requires Achieves(limits, FlatOne(objects, Prefixed(prefix, entries[n]), height), Advanced(start, part), done, after)
    ensures done ==>
              && FlatAll(objects, entries[..n + 1], prefix, height).Some?
              && after == Advanced(start, FlatAll(objects, entries[..n + 1], prefix, height).value)
              && FitsSoFar(limits, after)
    ensures !done ==> Achieves(limits, FlatAll(objects, entries, prefix, height), start, false, after)
  {
    OneMoreEntry(objects, entries, prefix, height, n);
    if done {
      AdvancedTwice(start, part, FlatOne(objects, Prefixed(prefix, entries[n]), height).value);
    } else if Fits(limits, FlatAll(objects, entries, prefix, height), |start.collected|, start.requests) {
      FitsFront(objects, limits, entries, prefix, height, n + 1, |start.collected|, start.requests);
    }
  }

  predicate FitsSoFar(limits: Limits, p: Progress) {
    |p.collected| <= limits.maxEntries && p.requests + 1 <= limits.maxRequests
  }

  lemma ChildExtends(objects: Objects, trail: seq<Sha>, n: nat)
    requires trail != [] && IsChain(objects, trail) && trail[|trail| - 1] in objects
    requires var entries := objects[trail[|trail| - 1]].entries; n < |entries| && entries[n].kind.Tree?
    ensures IsChain(objects, trail + [objects[trail[|trail| - 1]].entries[n].sha])
  {
    var longer := trail + [objects[trail[|trail| - 1]].entries[n].sha];
    forall k | 0 <= k < |longer| - 1 ensures IsChild(objects, longer[k], longer[k + 1]) {
      if k < |trail| - 1 { assert IsChild(objects, trail[k], trail[k + 1]); }
    }
  }

  class Walker {
    const objects: Objects
    const limits: Limits
    var collected: seq<Entry>
    var active: set<Sha>
    var requests: nat

    constructor (objects: Objects, limits: Limits)
      ensures this.objects == objects && this.limits == limits
      ensures collected == [] && active == {} && requests == 0
    {
      this.objects, this.limits := objects, limits;
      collected, active, requests := [], {}, 0;
    }

    ghost predicate InBounds()
      reads this
    {
      |collected| <= limits.maxEntries && requests <= limits.maxRequests
    }

    ghost predicate JustOut()
      reads this
    {
      |collected| <= limits.maxEntries + 1 && requests <= limits.maxRequests + 1
    }

    /** Progress as seen inside a tree that has been asked for. */
    ghost function Inside(): Progress
      reads this
    {
      Progress(collected, requests - 1)
    }

    /**
     * `walk`. `trail` is the chain of trees being walked, which the active set is at every
     * moment. The walk is done exactly where the tree flattens within the limits; it always
     * ends, asks for no more objects than allowed, and leaves the active set as it was.
     */
    method Walk(sha: Sha, prefix: string, depth: nat, ghost trail: seq<Sha>) returns (r: Outcome)
      requires active == (set x | x in trail) && |trail| == depth && IsChain(objects, trail + [sha])
      requires InBounds()
      modifies this
      ensures active == old(active) && JustOut()
      ensures if depth > limits.maxDepth then !r.Done?
              else Achieves(limits, Flat(objects, sha, prefix, limits.maxDepth - depth),
                            Progress(old(collected), old(requests)), r.Done?, Inside())
      ensures r.Cyclic? ==> exists cycle :: IsCycle(objects, cycle)
      decreases limits.maxDepth + 1 - depth, 2
    {
      if depth > limits.maxDepth { return LimitExceeded; }
      if sha in active {
        CycleInTrail(objects, trail, sha, prefix, limits.maxDepth - depth);
        return Cyclic;
      }
      requests := requests + 1;
      if requests > limits.maxRequests { return LimitExceeded; }
      if sha !in objects { return Refused; }
      if objects[sha].truncated { return LimitExceeded; }
      active := active + {sha};
      assert active == set x | x in trail + [sha];
      r := WalkEntries(sha, prefix, depth, trail + [sha]);
      active := active - {sha};
    }

    /** One entry of a tree, and the walk below it. */
    method WalkEntry(e: Entry, depth: nat, ghost trail: seq<Sha>) returns (r: Outcome)
      requires active == (set x | x in trail) && |trail| == depth + 1
      requires e.kind.Tree? ==> IsChain(objects, trail + [e.sha])
      requires InBounds() && depth <= limits.maxDepth
      modifies this
      ensures active == old(active) && JustOut()
      ensures Achieves(limits, FlatOne(objects, e, limits.maxDepth - depth), old(Inside()), r.Done?, Inside())
      ensures r.Cyclic? ==> exists cycle :: IsCycle(objects, cycle)
      decreases limits.maxDepth + 1 - depth, 0
    {
      collected := collected + [e];
      assert Trees([e]) == if e.kind.Tree? then 1 else 0;
      ghost var sub := if e.kind.Tree? && depth < limits.maxDepth
                       then Flat(objects, e.sha, e.path, limits.maxDepth - depth - 1) else Some([]);
      if sub.Some? { TreesAdd([e], sub.value); }
      if |collected| > limits.maxEntries { return LimitExceeded; }
      r := Done;
      if e.kind.Tree? {
        r := Walk(e.sha, e.path, depth + 1, trail);
        if r.Done? { assert old(collected) + ([e] + sub.value) == old(collected) + [e] + sub.value; }
      }
    }

    /** The loop over one tree's entries. */
    method WalkEntries(sha: Sha, prefix: string, depth: nat, ghost trail: seq<Sha>) returns (r: Outcome)
      requires active == (set x | x in trail) && |trail| == depth + 1
      requires IsChain(objects, trail) && trail[depth] == sha && sha in objects && depth <= limits.maxDepth
      requires InBounds()
      modifies this
      ensures active == old(active) && JustOut()
      ensures Achieves(limits, FlatAll(objects, objects[sha].entries, prefix, limits.maxDepth - depth),
                       old(Inside()), r.Done?, Inside())
      ensures r.Cyclic? ==> exists cycle :: IsCycle(objects, cycle)
      decreases limits.maxDepth + 1 - depth, 1
    {
      var entries := objects[sha].entries;
      ghost var height, start := limits.maxDepth - depth, Inside();
      ghost var part: seq<Entry> := [];
      assert Advanced(start, part) == start;
      var i := 0;
      r := Done;
      while i < |entries|
        invariant 0 <= i <= |entries| && active == old(active) && InBounds() && r.Done?
        invariant FlatAll(objects, entries[..i], prefix, height) == Some(part) && Inside() == Advanced(start, part)
      {
        var e := Prefixed(prefix, entries[i]);
        if e.kind.Tree? { ChildExtends(objects, trail, i); }
        r := WalkEntry(e, depth, trail);
        EntryAchieves(objects, limits, entries, prefix, height, i, start, part, r.Done?, Inside());
        if !r.Done? { return; }
        part := FlatAll(objects, entries[..i + 1], prefix, height).value;
        i := i + 1;
      }
      assert entries[..i] == entries;
    }
  }

  /**
   * `get_complete_tree`: the server's recursive answer if it is whole, else the walk. With
   * the walk, the result is the preorder flattening of the tree exactly if it has one within
   * the limits; a tree that leads into a cycle has none.
   */
  method GetCompleteTree(objects: Objects, limits: Limits, recursive: Response, sha: Sha) returns (tree: Option<seq<Entry>>)
    ensures !recursive.truncated ==>
              tree == if |recursive.entries| <= limits.maxEntries then Some(recursive.entries) else None
    ensures recursive.truncated ==>
              var flat := Flat(objects, sha, "", limits.maxDepth);
              tree == if flat.Some? && |flat.value| <= limits.maxEntries && 1 + Trees(flat.value) <= limits.maxRequests
                      then flat else None
  {
    if !recursive.truncated {
      return if |recursive.entries| <= limits.maxEntries then Some(recursive.entries) else None;
    }
    var walker := new Walker(objects, limits);
    ghost var flat := Flat(objects, sha, "", limits.maxDepth);
    var r := walker.Walk(sha, "", 0, []);
    assert limits.maxDepth - 0 == limits.maxDepth;
    assert r.Done? <==> Fits(limits, flat, 0, 0);
    if r.Done? { assert [] + flat.value == flat.value; }
    tree := if r.Done? then Some(walker.collected) else None;
  }
}
