/**
 * Planning a proposed patch against a set of files
 * (src/github_integration/workspace.py, `_plan_changes` and its checks).
 *
 * A path is its sequence of segments, so "is below" is being a proper prefix; a text is
 * its UTF-8 bytes.
 */
module PatchPlan {
  import opened Basics

  type Path = p: seq<string> | p != [] witness [""]
  type Text = seq<bv8>
  type Files = map<Path, Text>

  datatype Action = Create | Update | Delete

  /** A proposed change; `None` is a path or an action the validators refuse. */
  datatype Change = Change(
    path: Option<Path>,
    action: Option<Action>,
    content: Option<Text>,
    expected: Option<string>)

  datatype Planned = Planned(path: Path, action: Action, before: Option<Text>, after: Option<Text>)

  datatype Error = Validation | Conflict

  datatype Result<+T> = Ok(value: T) | Err(error: Error)

  /** `WorkspaceLimits`, the digest that pins sources, and the size of a plan's unified diff. */
  datatype Rules = Rules(
    maxFileCount: nat,
    maxChanges: nat,
    maxFileBytes: nat,
    maxTotalBytes: nat,
    maxPatchBytes: nat,
    maxDiffBytes: nat,
    sha256: Text -> string,
    diffBytes: seq<Planned> -> nat)

  // ---- shapes -----------------------------------------------------------------------------

  predicate Below(p: seq<string>, d: seq<string>) {
    |d| < |p| && p[..|d|] == d
  }

  /** One of the two would have to be a directory for the other to be a file. */
  predicate Clash(p: Path, q: Path) {
    Below(p, q) || Below(q, p)
  }

  ghost predicate CollisionFree(paths: set<Path>) {
    forall p, q :: p in paths && q in paths ==> !Below(p, q)
  }

  function Lookup(files: Files, p: Path): Option<Text> {
    if p in files then Some(files[p]) else None
  }

  function Put(files: Files, p: Path, text: Option<Text>): Files {
    if text.Some? then files[p := text.value] else files - {p}
  }

  ghost function TotalBytes(files: Files): nat {
    if files == map[] then 0
    else
      var p :| p in files;
      |files[p]| + TotalBytes(files - {p})
  }

  /** The total does not depend on the order the files are counted in. */
  lemma {:induction false} TotalTakesOut(files: Files, p: Path)
    requires p in files
    ensures TotalBytes(files) == |files[p]| + TotalBytes(files - {p})
    decreases |files|
  {
    var q :| q in files && TotalBytes(files) == |files[q]| + TotalBytes(files - {q});
    if p != q {
      TotalTakesOut(files - {q}, p);
      TotalTakesOut(files - {p}, q);
      assert files - {q} - {p} == files - {p} - {q};
    }
  }

  ghost predicate WithinLimits(rules: Rules, files: Files) {
    && |files| <= rules.maxFileCount
    && (forall p :: p in files ==> |files[p]| <= rules.maxFileBytes)
    && TotalBytes(files) <= rules.maxTotalBytes
  }

  // ---- one change ---------------------------------------------------------------------------

  function After(c: Change): Option<Text> {
    if c.action == Some(Delete) then None else c.content
  }

  function ContentFault(rules: Rules, c: Change): Option<Error> {
    if c.content.None? || |c.content.value| > rules.maxFileBytes then Some(Validation) else None
  }

  /** Why a change is refused, in the order the checks are made; `clash` is the collision check. */
  function Fault(rules: Rules, before: Option<Text>, seen: bool, clash: bool, c: Change): Option<Error> {
    if c.path.None? || seen || c.action.None? then Some(Validation)
    else if c.action.value.Create? then
      if before.Some? then Some(Conflict)
      else if c.expected.Some? then Some(Validation)
      else if clash then Some(Conflict)
      else ContentFault(rules, c)
    else if before.None? then Some(Conflict)
    else if c.expected.Some? && rules.sha256(before.value) != c.expected.value then Some(Conflict)
    else if c.action.value.Delete? then
      if c.content.Some? then Some(Validation) else None
    else if ContentFault(rules, c).Some? then Some(Validation)
    else if c.content == before then Some(Validation)
    else None
  }

  function Size(c: Change): nat {
    if After(c).Some? then |After(c).value| else 0
  }

  // ---- the plan -------------------------------------------------------------------------------

  datatype Progress = Progress(plan: seq<Planned>, result: Files, seen: set<Path>, bytes: nat)

  ghost function Step(rules: Rules, s: Progress, c: Change): Result<Progress> {
    if c.path.None? then Err(Validation)
    else
      var p := c.path.value;
      var clash := exists q :: q in s.result && Clash(p, q);
      var fault := Fault(rules, Lookup(s.result, p), p in s.seen, clash, c);
      if fault.Some? then Err(fault.value)
      else if s.bytes + Size(c) > rules.maxPatchBytes then Err(Validation)
      else Ok(Progress(s.plan + [Planned(p, c.action.value, Lookup(s.result, p), After(c))],
                       Put(s.result, p, After(c)), s.seen + {p}, s.bytes + Size(c)))
  }

  ghost function Attempt(rules: Rules, base: Files, changes: seq<Change>): Result<Progress> {
    if changes == [] then Ok(Progress([], base, {}, 0))
    else
      var init := Attempt(rules, base, changes[..|changes| - 1]);
      if init.Err? then init else Step(rules, init.value, changes[|changes| - 1])
  }

  ghost predicate ValidSet(rules: Rules, files: Files) {
    WithinLimits(rules, files) && CollisionFree(files.Keys)
  }

  /** `_plan_changes`. */
  ghost function Plan(rules: Rules, base: Files, changes: seq<Change>): Result<Progress> {
    if changes == [] || |changes| > rules.maxChanges then Err(Validation)
    else
      var r := Attempt(rules, base, changes);
      if r.Ok? && !ValidSet(rules, r.value.result) then Err(Validation) else r
  }

  // ---- what an accepted plan is -----------------------------------------------------------------

  ghost predicate WellNamed(changes: seq<Change>) {
    forall i :: 0 <= i < |changes| ==> changes[i].path.Some?
  }

  /** The base with every change laid over it. */
  ghost function Overlaid(base: Files, changes: seq<Change>): Files
    requires WellNamed(changes)
  {
    if changes == [] then base
    else
      var last := changes[|changes| - 1];
      Put(Overlaid(base, changes[..|changes| - 1]), last.path.value, After(last))
  }

  ghost function Bytes(changes: seq<Change>): nat {
    if changes == [] then 0 else Bytes(changes[..|changes| - 1]) + Size(changes[|changes| - 1])
  }

  ghost predicate Names(changes: seq<Change>, p: Path) {
    exists i :: 0 <= i < |changes| && changes[i].path == Some(p)
  }

  ghost predicate DistinctPaths(changes: seq<Change>) {
    WellNamed(changes) && forall i, j :: 0 <= i < j < |changes| ==> changes[i].path != changes[j].path
  }

  ghost predicate RightAbout(rules: Rules, base: Files, c: Change) {
    c.path.Some? && Fault(rules, Lookup(base, c.path.value), false, false, c).None?
  }

  /** What being right about the base is, action by action. */
  lemma RightMeans(rules: Rules, base: Files, c: Change)
    ensures RightAbout(rules, base, c) <==>
              && c.path.Some? && c.action.Some?
              && var before := Lookup(base, c.path.value);
                 && (c.action.value.Create? <==> before.None?)
                 && (c.action.value.Create? ==> c.expected.None?)
                 && (before.Some? && c.expected.Some? ==> rules.sha256(before.value) == c.expected.value)
                 && (c.action.value.Delete? <==> c.content.None?)
                 && (c.content.Some? ==> |c.content.value| <= rules.maxFileBytes && c.content != before)
  {
  }

  /** Which refusals are conflicts: something is there that should not be, or is not there, or is not what was pinned. */
  lemma ConflictMeans(rules: Rules, before: Option<Text>, seen: bool, clash: bool, c: Change)
    ensures Fault(rules, before, seen, clash, c) == Some(Conflict) <==>
              && c.path.Some? && !seen && c.action.Some?
              && if c.action.value == Create then before.Some? || (c.expected.None? && clash)
                 else before.None? || (c.expected.Some? && rules.sha256(before.value) != c.expected.value)
  {
  }

  /** The bytes of all contents proposed. */
  ghost function ContentBytes(changes: seq<Change>): nat {
    if changes == [] then 0
    else
      var c := changes[|changes| - 1];
      ContentBytes(changes[..|changes| - 1]) + if c.content.Some? then |c.content.value| else 0
  }

  lemma {:induction false} BytesAreContents(rules: Rules, base: Files, changes: seq<Change>)
    requires RightAboutBase(rules, base, changes)
    ensures Bytes(changes) == ContentBytes(changes)
    decreases |changes|
  {
    if changes != [] {
      var n := |changes| - 1;
      assert forall i :: 0 <= i < n ==> changes[..n][i] == changes[i];
      BytesAreContents(rules, base, changes[..n]);
      assert RightAbout(rules, base, changes[n]);
    }
  }

  /** Each change on its own is right about the base. */
  ghost predicate RightAboutBase(rules: Rules, base: Files, changes: seq<Change>) {
    forall i :: 0 <= i < |changes| ==> RightAbout(rules, base, changes[i])
  }

  /** `d` deletes a file standing where the file `c` creates needs a directory, or in one it replaces. */
  predicate MakesWay(d: Change, c: Change) {
    && d.action == Some(Delete) && c.action == Some(Create)
    && d.path.Some? && c.path.Some? && Clash(c.path.value, d.path.value)
  }

  /** Nothing is created before the deletion that makes way for it. */
  ghost predicate DeletesComeFirst(changes: seq<Change>) {
    forall i, j :: 0 <= i < j < |changes| ==> !MakesWay(changes[j], changes[i])
  }

  ghost predicate Acceptable(rules: Rules, base: Files, changes: seq<Change>) {
    && 0 < |changes| <= rules.maxChanges
    && DistinctPaths(changes) && RightAboutBase(rules, base, changes) && DeletesComeFirst(changes)
    && ContentBytes(changes) <= rules.maxPatchBytes
    && ValidSet(rules, Overlaid(base, changes))
  }

  /** At the changed paths the overlay is the changes' contents, elsewhere it is the base. */
  lemma {:induction false} OverlaidAt(base: Files, changes: seq<Change>, p: Path)
    requires DistinctPaths(changes)
    ensures !Names(changes, p) ==> Lookup(Overlaid(base, changes), p) == Lookup(base, p)
    ensures forall i :: 0 <= i < |changes| && changes[i].path == Some(p) ==>
              Lookup(Overlaid(base, changes), p) == After(changes[i])
    decreases |changes|
  {
    if changes != [] {
      var init := changes[..|changes| - 1];
      OverlaidAt(base, init, p);
      forall i | 0 <= i < |init| && changes[i].path == Some(p)
        ensures Lookup(Overlaid(base, changes), p) == After(changes[i])
      {
        assert init[i].path == Some(p);
      }
    }
  }

  lemma PutKeepsCollisionFree(files: Files, p: Path, text: Option<Text>)
    requires CollisionFree(files.Keys)
    requires text.Some? && p !in files ==> forall q :: q in files ==> !Clash(p, q)
    ensures CollisionFree(Put(files, p, text).Keys)
  {
  }

  /** What the changes planned so far have done. */
  ghost predicate Done(rules: Rules, base: Files, changes: seq<Change>, s: Progress) {
    && DistinctPaths(changes) && RightAboutBase(rules, base, changes)
    && s.result == Overlaid(base, changes)
    && (forall p :: p in s.seen <==> Names(changes, p))
    && s.bytes == Bytes(changes) && (changes != [] ==> s.bytes <= rules.maxPatchBytes)
    && Recorded(base, changes, s.plan)
  }

  ghost predicate Recorded(base: Files, changes: seq<Change>, plan: seq<Planned>)
    requires WellNamed(changes)
  {
    && |plan| == |changes|
    && forall i :: 0 <= i < |changes| ==>
         var c := changes[i];
         c.action.Some? && plan[i] == Planned(c.path.value, c.action.value, Lookup(base, c.path.value), After(c))
  }

  lemma StepFacts(rules: Rules, s: Progress, c: Change)
    requires Step(rules, s, c).Ok?
    ensures c.path.Some? && c.action.Some? && c.path.value !in s.seen
    ensures RightAbout(rules, s.result, c)
    ensures c.action == Some(Create) ==>
              c.path.value !in s.result && forall q :: q in s.result ==> !Clash(c.path.value, q)
    ensures var p := c.path.value;
            && s.bytes + Size(c) <= rules.maxPatchBytes
            && Step(rules, s, c).value
               == Progress(s.plan + [Planned(p, c.action.value, Lookup(s.result, p), After(c))],
                           Put(s.result, p, After(c)), s.seen + {p}, s.bytes + Size(c))
  {
  }

  lemma OneMoreChange(base: Files, init: seq<Change>, c: Change)
    requires DistinctPaths(init) && c.path.Some? && !Names(init, c.path.value)
    ensures DistinctPaths(init + [c])
    ensures Overlaid(base, init + [c]) == Put(Overlaid(base, init), c.path.value, After(c))
    ensures Lookup(Overlaid(base, init), c.path.value) == Lookup(base, c.path.value)
    ensures Bytes(init + [c]) == Bytes(init) + Size(c)
  {
    assert (init + [c])[..|init|] == init;
    OverlaidAt(base, init, c.path.value);
  }

  lemma NamesOneMore(init: seq<Change>, c: Change, p: Path)
    ensures Names(init + [c], p) <==> Names(init, p) || c.path == Some(p)
  {
    var changes := init + [c];
    if Names(init, p) {
      var i :| 0 <= i < |init| && init[i].path == Some(p);
      assert changes[i].path == Some(p);
    }
    if c.path == Some(p) { assert changes[|init|].path == Some(p); }
  }

  lemma StepDoes(rules: Rules, base: Files, init: seq<Change>, s: Progress, c: Change)
    requires Done(rules, base, init, s) && Step(rules, s, c).Ok?
    ensures Done(rules, base, init + [c], Step(rules, s, c).value)
  {
    StepFacts(rules, s, c);
    OneMoreChange(base, init, c);
    forall p ensures p in s.seen + {c.path.value} <==> Names(init + [c], p) {
      NamesOneMore(init, c, p);
    }
  }

  lemma {:induction false} AttemptDoes(rules: Rules, base: Files, changes: seq<Change>)
    requires Attempt(rules, base, changes).Ok?
    ensures Done(rules, base, changes, Attempt(rules, base, changes).value)
    ensures CollisionFree(base.Keys) ==> CollisionFree(Attempt(rules, base, changes).value.result.Keys)
    decreases |changes|
  {
    if changes != [] {
      var init, last := changes[..|changes| - 1], changes[|changes| - 1];
      AttemptDoes(rules, base, init);
      var s := Attempt(rules, base, init).value;
      StepDoes(rules, base, init, s, last);
      assert init + [last] == changes;
      if CollisionFree(base.Keys) {
        StepFacts(rules, s, last);
        PutKeepsCollisionFree(s.result, last.path.value, After(last));
      }
    }
  }

  lemma RecordedChange(rules: Rules, base: Files, changes: seq<Change>, plan: seq<Planned>, i: nat)
    requires DistinctPaths(changes) && RightAboutBase(rules, base, changes) && Recorded(base, changes, plan)
    requires i < |changes|
    ensures plan[i].after == Lookup(Overlaid(base, changes), plan[i].path) && plan[i].before != plan[i].after
  {
    OverlaidAt(base, changes, changes[i].path.value);
    assert RightAbout(rules, base, changes[i]);
  }

  /**
   * An accepted plan leaves the base overlaid with the changes, and records for each path
   * the base's content before and the result's content after, whatever came in between; no
   * other path changes.
   */
  lemma AcceptedPlansOverlay(rules: Rules, base: Files, changes: seq<Change>)
    requires Plan(rules, base, changes).Ok?
    ensures var s := Plan(rules, base, changes).value;
            && DistinctPaths(changes) && s.result == Overlaid(base, changes)
            && |s.plan| == |changes|
            && (forall i :: 0 <= i < |changes| ==>
                  && changes[i].path == Some(s.plan[i].path)
                  && s.plan[i].before == Lookup(base, s.plan[i].path)
                  && s.plan[i].after == Lookup(s.result, s.plan[i].path)
                  && changes[i].action == Some(s.plan[i].action)
                  && s.plan[i].after == (if s.plan[i].action == Delete then None else changes[i].content)
                  && (s.plan[i].after.None? <==> s.plan[i].action == Delete)
                  && s.plan[i].before != s.plan[i].after)
            && (forall p :: Lookup(base, p) != Lookup(s.result, p) ==> Names(changes, p))
  {
    AttemptDoes(rules, base, changes);
    var s := Plan(rules, base, changes).value;
    forall i | 0 <= i < |changes|
      ensures s.plan[i].after == Lookup(s.result, s.plan[i].path) && s.plan[i].before != s.plan[i].after
      ensures s.plan[i].after.None? <==> s.plan[i].action == Delete
    {
      RecordedChange(rules, base, changes, s.plan, i);
      RightMeans(rules, base, changes[i]);
    }
    forall p | Lookup(base, p) != Lookup(s.result, p) ensures Names(changes, p) {
      OverlaidAt(base, changes, p);
    }
  }

  /** From a collision-free base the collision check on the result can never refuse. */
  lemma ResultNeverCollides(rules: Rules, base: Files, changes: seq<Change>)
    requires CollisionFree(base.Keys) && Attempt(rules, base, changes).Ok?
    ensures CollisionFree(Attempt(rules, base, changes).value.result.Keys)
    ensures 0 < |changes| <= rules.maxChanges && WithinLimits(rules, Attempt(rules, base, changes).value.result) ==>
              Plan(rules, base, changes) == Attempt(rules, base, changes)
  {
    AttemptDoes(rules, base, changes);
  }

  // ---- exactly the acceptable proposals are accepted -----------------------------------------------

  lemma {:induction false} BytesGrow(changes: seq<Change>, n: nat)
    requires n <= |changes|
    ensures Bytes(changes[..n]) <= Bytes(changes)
    decreases |changes|
  {
    if n < |changes| {
      var init := changes[..|changes| - 1];
      BytesGrow(init, n);
      assert init[..n] == changes[..n];
    } else {
      assert changes[..n] == changes;
    }
  }

  /** What is there before change `n` is there at the end, unless a change from `n` on removes it. */
  lemma StaysOrGoes(base: Files, changes: seq<Change>, n: nat, q: Path)
    requires DistinctPaths(changes) && n <= |changes| && q in Overlaid(base, changes[..n])
    ensures || q in Overlaid(base, changes)
            || exists j :: n <= j < |changes| && changes[j].path == Some(q) && After(changes[j]).None?
  {
    var init := changes[..n];
    OverlaidAt(base, init, q);
    OverlaidAt(base, changes, q);
    if j :| 0 <= j < |changes| && changes[j].path == Some(q) {
      if j < n { assert init[j] == changes[j]; }
    } else {
      assert forall j :: 0 <= j < n ==> init[j] == changes[j];
    }
  }

  /** A create at place `n` finds its place taken only by a file deleted later. */
  lemma NothingInTheWay(rules: Rules, base: Files, changes: seq<Change>, n: nat, q: Path)
    requires DistinctPaths(changes) && RightAboutBase(rules, base, changes) && DeletesComeFirst(changes)
    requires CollisionFree(Overlaid(base, changes).Keys)
    requires n < |changes| && changes[n].action == Some(Create)
    requires q in Overlaid(base, changes[..n])
    ensures !Clash(changes[n].path.value, q)
  {
    assert RightAbout(rules, base, changes[n]);
    OverlaidAt(base, changes, changes[n].path.value);
    StaysOrGoes(base, changes, n, q);
    if q !in Overlaid(base, changes) {
      var j :| n <= j < |changes| && changes[j].path == Some(q) && After(changes[j]).None?;
      assert RightAbout(rules, base, changes[j]);
      assert changes[j].action == Some(Delete);
      assert !MakesWay(changes[j], changes[n]);
    }
  }

  lemma StepTaken(rules: Rules, s: Progress, c: Change)
    requires RightAbout(rules, s.result, c) && c.path.value !in s.seen
    requires c.action == Some(Create) ==> forall q :: q in s.result ==> !Clash(c.path.value, q)
    requires s.bytes + Size(c) <= rules.maxPatchBytes
    ensures Step(rules, s, c).Ok?
  {
  }

  /** Being right about the base, a change is right about what the ones before it leave. */
  lemma StillRight(rules: Rules, base: Files, changes: seq<Change>, n: nat)
    requires DistinctPaths(changes) && RightAboutBase(rules, base, changes) && n < |changes|
    ensures RightAbout(rules, Overlaid(base, changes[..n]), changes[n]) && !Names(changes[..n], changes[n].path.value)
    ensures Bytes(changes[..n]) + Size(changes[n]) <= ContentBytes(changes)
  {
    var init, c := changes[..n], changes[n];
    assert !Names(init, c.path.value);
    assert RightAbout(rules, base, c);
    OneMoreChange(base, init, c);
    BytesGrow(changes, n + 1);
    BytesAreContents(rules, base, changes);
    assert init + [c] == changes[..n + 1];
  }

  lemma StepAccepts(rules: Rules, base: Files, changes: seq<Change>, n: nat, s: Progress)
    requires Acceptable(rules, base, changes) && n < |changes|
    requires Done(rules, base, changes[..n], s)
    ensures Step(rules, s, changes[n]).Ok?
  {
    StillRight(rules, base, changes, n);
    if changes[n].action == Some(Create) {
      forall q | q in s.result ensures !Clash(changes[n].path.value, q) {
        NothingInTheWay(rules, base, changes, n, q);
      }
    }
    StepTaken(rules, s, changes[n]);
  }

  lemma AttemptUnfolds(rules: Rules, base: Files, changes: seq<Change>, n: nat)
    requires n < |changes| && Attempt(rules, base, changes[..n]).Ok?
    ensures Attempt(rules, base, changes[..n + 1])
         == Step(rules, Attempt(rules, base, changes[..n]).value, changes[n])
  {
    assert changes[..n + 1][..n] == changes[..n];
  }

  lemma {:induction false} AcceptablePrefix(rules: Rules, base: Files, changes: seq<Change>, n: nat)
    requires Acceptable(rules, base, changes) && n <= |changes|
    ensures Attempt(rules, base, changes[..n]).Ok?
    decreases n
  {
    if n > 0 {
      AcceptablePrefix(rules, base, changes, n - 1);
      AttemptDoes(rules, base, changes[..n - 1]);
      StepAccepts(rules, base, changes, n - 1, Attempt(rules, base, changes[..n - 1]).value);
      AttemptUnfolds(rules, base, changes, n - 1);
    }
  }

  lemma MakesWayInTime(rules: Rules, base: Files, changes: seq<Change>, i: nat, j: nat)
    requires i < j < |changes| && Attempt(rules, base, changes[..i + 1]).Ok?
    requires DistinctPaths(changes) && RightAboutBase(rules, base, changes)
    ensures !MakesWay(changes[j], changes[i])
  {
    var init, q := changes[..i], changes[j].path.value;
    assert changes[..i + 1][..i] == init && changes[..i + 1][i] == changes[i];
    AttemptDoes(rules, base, init);
    assert RightAbout(rules, base, changes[j]);
    assert !Names(init, q);
    OverlaidAt(base, init, q);
    if MakesWay(changes[j], changes[i]) {
      assert q in Attempt(rules, base, init).value.result;
      StepFacts(rules, Attempt(rules, base, init).value, changes[i]);
    }
  }

  lemma {:induction false} AttemptPrefix(rules: Rules, base: Files, changes: seq<Change>, n: nat)
    requires Attempt(rules, base, changes).Ok? && n <= |changes|
    ensures Attempt(rules, base, changes[..n]).Ok?
    decreases |changes|
  {
    if n < |changes| {
      var init := changes[..|changes| - 1];
      AttemptPrefix(rules, base, init, n);
      assert init[..n] == changes[..n];
    } else {
      assert changes[..n] == changes;
    }
  }

  lemma AcceptedIsAcceptable(rules: Rules, base: Files, changes: seq<Change>)
    requires Plan(rules, base, changes).Ok?
    ensures Acceptable(rules, base, changes)
  {
    AttemptDoes(rules, base, changes);
    BytesAreContents(rules, base, changes);
    forall i, j | 0 <= i < j < |changes| ensures !MakesWay(changes[j], changes[i]) {
      AttemptPrefix(rules, base, changes, i + 1);
      MakesWayInTime(rules, base, changes, i, j);
    }
  }

  /**
   * Which proposals are accepted, as a condition on the proposal as a whole: the order of
   * the changes matters only where a file makes way for another.
   */
  lemma AcceptanceIsExact(rules: Rules, base: Files, changes: seq<Change>)
    requires CollisionFree(base.Keys)
    ensures Plan(rules, base, changes).Ok? <==> Acceptable(rules, base, changes)
  {
    if Acceptable(rules, base, changes) {
      AcceptablePrefix(rules, base, changes, |changes|);
      assert changes[..|changes|] == changes;
      AttemptDoes(rules, base, changes);
    } else if Plan(rules, base, changes).Ok? {
      AcceptedIsAcceptable(rules, base, changes);
    }
  }

  const A: Path := ["a"]
  const AB: Path := ["a", "b"]

  function DeleteOf(p: Path): Change {
    Change(Some(p), Some(Delete), None, None)
  }

  function CreateOf(p: Path): Change {
    Change(Some(p), Some(Create), Some([]), None)
  }

  /** Turning the file `a` into a directory: refused if the file `a/b` comes first, accepted if the deletion does. */
  lemma SwapNeedsDeletionFirst(rules: Rules)
    requires rules.maxChanges >= 2 && rules.maxFileCount >= 1
    ensures Plan(rules, map[A := []], [CreateOf(AB), DeleteOf(A)]) == Err(Conflict)
    ensures Plan(rules, map[A := []], [DeleteOf(A), CreateOf(AB)]).Ok?
  {
    assert Below(AB, A) && !Below(A, AB);
    CreateFirst(rules);
    DeleteFirst(rules);
  }

  lemma CreateFirst(rules: Rules)
    requires rules.maxChanges >= 2
    ensures Plan(rules, map[A := []], [CreateOf(AB), DeleteOf(A)]) == Err(Conflict)
  {
    var base, changes: seq<Change> := map[A := []], [CreateOf(AB), DeleteOf(A)];
    assert A in base && Clash(AB, A);
    assert changes[..0] == [];
    AttemptUnfolds(rules, base, changes, 0);
    ErrorSticks(rules, base, changes, 1);
  }

  lemma DeleteFirst(rules: Rules)
    requires rules.maxChanges >= 2 && rules.maxFileCount >= 1
    ensures Plan(rules, map[A := []], [DeleteOf(A), CreateOf(AB)]).Ok?
  {
    var base, changes: seq<Change> := map[A := []], [DeleteOf(A), CreateOf(AB)];
    assert changes[..0] == [] && changes[..2] == changes;
    AttemptUnfolds(rules, base, changes, 0);
    assert Attempt(rules, base, changes[..1]).value.result == map[];
    AttemptUnfolds(rules, base, changes, 1);
    var result := Attempt(rules, base, changes).value.result;
    assert result == map[AB := []];
    TotalTakesOut(result, AB);
    assert result - {AB} == map[];
  }

  lemma {:induction false} ErrorSticks(rules: Rules, base: Files, changes: seq<Change>, n: nat)
    requires n <= |changes| && Attempt(rules, base, changes[..n]).Err?
    ensures Attempt(rules, base, changes) == Attempt(rules, base, changes[..n])
    decreases |changes|
  {
    if n < |changes| {
      var init := changes[..|changes| - 1];
      assert init[..n] == changes[..n];
      ErrorSticks(rules, base, init, n);
    } else {
      assert changes[..n] == changes;
    }
  }

  /** A proposal that fails on a change fails with the first fault: all before it were taken. */
  lemma {:induction false} FirstFaultIsReported(rules: Rules, base: Files, changes: seq<Change>) returns (n: nat)
    requires Attempt(rules, base, changes).Err?
    ensures n < |changes| && Attempt(rules, base, changes[..n]).Ok?
    ensures var s, c := Attempt(rules, base, changes[..n]).value, changes[n];
            var fault := if c.path.None? then Some(Validation)
                         else Fault(rules, Lookup(s.result, c.path.value), c.path.value in s.seen,
                                    exists q :: q in s.result && Clash(c.path.value, q), c);
            Attempt(rules, base, changes) == Err(fault.GetOr(Validation))
    decreases |changes|
  {
    var last := |changes| - 1;
    if Attempt(rules, base, changes[..last]).Err? {
      n := FirstFaultIsReported(rules, base, changes[..last]);
      assert changes[..last][..n] == changes[..n];
    } else {
      n := last;
    }
  }

  // ---- taking a patch back ---------------------------------------------------------------------

  function UndoOne(p: Planned): Change {
    var action := if p.before.None? then Delete else if p.after.None? then Create else Update;
    Change(Some(p.path), Some(action), p.before, None)
  }

  /** The inverse of a plan: every change taken back, the last one first. */
  function Undo(plan: seq<Planned>): (changes: seq<Change>)
    ensures |changes| == |plan| && forall i :: 0 <= i < |plan| ==> changes[i] == UndoOne(plan[|plan| - 1 - i])
  {
    if plan == [] then [] else Undo(plan[1..]) + [UndoOne(plan[0])]
  }

  lemma SameLookups(f: Files, g: Files)
    requires forall p :: Lookup(f, p) == Lookup(g, p)
    ensures f == g
  {
    forall p ensures p in f <==> p in g {
      assert Lookup(f, p) == Lookup(g, p);
    }
    forall p | p in f ensures f[p] == g[p] {
      assert Lookup(f, p) == Lookup(g, p);
    }
  }

  /** What the undoing needs to know of an accepted plan. */
  ghost predicate Undoable(base: Files, result: Files, plan: seq<Planned>) {
    && (forall i, j :: 0 <= i < j < |plan| ==> plan[i].path != plan[j].path)
    && (forall i :: 0 <= i < |plan| ==>
          && plan[i].before == Lookup(base, plan[i].path)
          && plan[i].after == Lookup(result, plan[i].path)
          && plan[i].before != plan[i].after)
    && (forall p :: Lookup(base, p) != Lookup(result, p) ==> exists i :: 0 <= i < |plan| && plan[i].path == p)
  }

  lemma UndoOverlays(base: Files, result: Files, plan: seq<Planned>)
    requires Undoable(base, result, plan)
    ensures DistinctPaths(Undo(plan)) && Overlaid(result, Undo(plan)) == base
  {
    var undo, n := Undo(plan), |plan|;
    forall i, j | 0 <= i < j < n ensures undo[i].path != undo[j].path {
      assert plan[n - 1 - j].path != plan[n - 1 - i].path;
    }
    forall p ensures Lookup(Overlaid(result, undo), p) == Lookup(base, p) {
      OverlaidAt(result, undo, p);
      if i :| 0 <= i < n && plan[i].path == p {
        assert undo[n - 1 - i] == UndoOne(plan[i]);
        assert undo[n - 1 - i].path == Some(p);
      } else {
        assert !Names(undo, p);
      }
    }
    SameLookups(Overlaid(result, undo), base);
  }

  /**
   * Every accepted plan can be taken back: its inverse is acceptable for the result, as far
   * as the limit on a patch's size allows, and gives the base again.
   */
  lemma UndoRestores(rules: Rules, base: Files, changes: seq<Change>)
    requires ValidSet(rules, base) && Plan(rules, base, changes).Ok?
    requires ContentBytes(Undo(Plan(rules, base, changes).value.plan)) <= rules.maxPatchBytes
    ensures var s := Plan(rules, base, changes).value;
            var back := Plan(rules, s.result, Undo(s.plan));
            back.Ok? && back.value.result == base
  {
    var s := Plan(rules, base, changes).value;
    var undo := Undo(s.plan);
    AcceptedIsAcceptable(rules, base, changes);
    PlanIsUndoable(rules, base, changes);
    UndoOverlays(base, s.result, s.plan);
    assert RightAboutBase(rules, s.result, undo) by { UndoIsRight(rules, base, s.result, s.plan); }
    assert DeletesComeFirst(undo) by { UndoneInOrder(rules, base, changes); }
    assert |undo| == |changes| by { AttemptDoes(rules, base, changes); }
    AcceptanceIsExact(rules, s.result, undo);
    AttemptDoes(rules, s.result, undo);
  }

  lemma PlanIsUndoable(rules: Rules, base: Files, changes: seq<Change>)
    requires Plan(rules, base, changes).Ok?
    ensures Undoable(base, Plan(rules, base, changes).value.result, Plan(rules, base, changes).value.plan)
  {
    AcceptedPlansOverlay(rules, base, changes);
    var s := Plan(rules, base, changes).value;
    forall i, j | 0 <= i < j < |s.plan| ensures s.plan[i].path != s.plan[j].path {
      assert changes[i].path != changes[j].path;
    }
    forall p | Lookup(base, p) != Lookup(s.result, p) ensures exists i :: 0 <= i < |s.plan| && s.plan[i].path == p {
      var i :| 0 <= i < |changes| && changes[i].path == Some(p);
      assert s.plan[i].path == p;
    }
  }

  lemma UndoIsRight(rules: Rules, base: Files, result: Files, plan: seq<Planned>)
    requires WithinLimits(rules, base) && Undoable(base, result, plan)
    ensures RightAboutBase(rules, result, Undo(plan))
  {
    forall i | 0 <= i < |plan| ensures RightAbout(rules, result, Undo(plan)[i]) {
      UndoOneIsRight(rules, base, result, plan[|plan| - 1 - i]);
    }
  }

  lemma UndoOneIsRight(rules: Rules, base: Files, result: Files, p: Planned)
    requires WithinLimits(rules, base)
    requires p.before == Lookup(base, p.path) && p.after == Lookup(result, p.path) && p.before != p.after
    ensures RightAbout(rules, result, UndoOne(p))
  {
  }

  /** What is undone by a create was a delete, and the other way about. */
  lemma UndoSwaps(rules: Rules, base: Files, c: Change, p: Planned)
    requires RightAbout(rules, base, c) && c.action.Some?
    requires p == Planned(c.path.value, c.action.value, Lookup(base, c.path.value), After(c))
    ensures UndoOne(p).path == c.path
    ensures UndoOne(p).action == Some(Delete) ==> c.action == Some(Create)
    ensures UndoOne(p).action == Some(Create) ==> c.action == Some(Delete)
  {
  }

  lemma UndoPairInOrder(rules: Rules, base: Files, first: Change, p: Planned, second: Change, q: Planned)
    requires RightAbout(rules, base, first) && first.action.Some?
    requires RightAbout(rules, base, second) && second.action.Some?
    requires p == Planned(first.path.value, first.action.value, Lookup(base, first.path.value), After(first))
    requires q == Planned(second.path.value, second.action.value, Lookup(base, second.path.value), After(second))
    requires !MakesWay(second, first)
    ensures !MakesWay(UndoOne(p), UndoOne(q))
  {
    UndoSwaps(rules, base, first, p);
    UndoSwaps(rules, base, second, q);
  }

  /** Taking back in reverse order makes way for what was deleted, as the plan did for what it created. */
  lemma UndoneInOrder(rules: Rules, base: Files, changes: seq<Change>)
    requires Plan(rules, base, changes).Ok?
    ensures DeletesComeFirst(Undo(Plan(rules, base, changes).value.plan))
  {
    AcceptedIsAcceptable(rules, base, changes);
    AttemptDoes(rules, base, changes);
    PairsInOrder(rules, base, changes, Plan(rules, base, changes).value.plan);
  }

  lemma PairsInOrder(rules: Rules, base: Files, changes: seq<Change>, plan: seq<Planned>)
    requires WellNamed(changes) && RightAboutBase(rules, base, changes) && DeletesComeFirst(changes)
    requires Recorded(base, changes, plan)
    ensures DeletesComeFirst(Undo(plan))
  {
    var undo, n := Undo(plan), |plan|;
    forall i, j | 0 <= i < j < n ensures !MakesWay(undo[j], undo[i]) {
      var first, second := n - 1 - j, n - 1 - i;
      assert !MakesWay(changes[second], changes[first]);
      UndoPairInOrder(rules, base, changes[first], plan[first], changes[second], plan[second]);
    }
  }
}
