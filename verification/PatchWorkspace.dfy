/**
 * The private workspace a proposed patch is applied in
 * (src/github_integration/workspace.py, `LocalPatchWorkspace`).
 *
 * The fields are the directory tree under the workspace root: its regular files and its
 * directories. Sets are walked in any order the source's sorted or bottom-up order is one of.
 */
module PatchWorkspace {
  import opened Basics
  import opened PatchPlan

  /** The directories a set of files needs. */
  function Ancestors(paths: set<Path>): set<Path> {
    set p, k | p in paths && 1 <= k < |p| :: p[..k]
  }

  lemma AncestorsAreAbove(paths: set<Path>, d: Path)
    ensures d in Ancestors(paths) <==> exists p :: p in paths && Below(p, d)
  {
    if p :| p in paths && Below(p, d) {
      assert d == p[..|d|];
    }
  }

  predicate IsChild(p: Path, d: Path) {
    |p| == |d| + 1 && Below(p, d)
  }

  /** A file system tree: whatever is below the root has its directory, and no name is both. */
  ghost predicate IsTree(files: set<Path>, dirs: set<Path>) {
    && files !! dirs
    && forall p, d: Path :: (p in files || p in dirs) && Below(p, d) ==> d in dirs
  }

  ghost predicate HoldsFile(files: set<Path>, d: Path) {
    exists f :: f in files && Below(f, d)
  }

  lemma {:induction false} SomeDeepest(dirs: set<Path>)
    requires dirs != {}
    ensures exists d :: d in dirs && forall e :: e in dirs ==> |e| <= |d|
    decreases |dirs|
  {
    var x :| x in dirs;
    if dirs != {x} {
      SomeDeepest(dirs - {x});
      var d :| d in dirs - {x} && forall e :: e in dirs - {x} ==> |e| <= |d|;
      var deepest := if |d| < |x| then x else d;
      assert forall e :: e in dirs ==> e == x || e in dirs - {x};
      assert forall e :: e in dirs ==> |e| <= |deepest|;
    }
  }

  lemma OneLevelUp(path: Path, k: nat)
    requires 1 <= k < |path|
    ensures Ancestors({path[..k + 1]}) == Ancestors({path[..k]}) + {path[..k]}
    ensures Ancestors({path[..k]}) <= Ancestors({path})
  {
    forall d: Path
      ensures d in Ancestors({path[..k + 1]}) <==> d in Ancestors({path[..k]}) + {path[..k]}
      ensures d in Ancestors({path[..k]}) ==> d in Ancestors({path})
    {
      AncestorsAreAbove({path[..k + 1]}, d);
      AncestorsAreAbove({path[..k]}, d);
      AncestorsAreAbove({path}, d);
      assert |d| <= k ==> path[..k + 1][..|d|] == path[..|d|] && path[..k][..|d|] == path[..|d|];
    }
  }

  /** In a tree, a directory with nothing directly inside has nothing below. */
  lemma EmptyIsBare(files: set<Path>, dirs: set<Path>, d: Path, p: Path)
    requires IsTree(files, dirs) && (p in files || p in dirs) && Below(p, d)
    ensures exists c :: (c in files || c in dirs) && IsChild(c, d)
  {
    var c: Path := p[..|d| + 1];
    assert c[..|d|] == d;
    if |p| > |d| + 1 { assert Below(p, c); } else { assert c == p; }
    assert IsChild(c, d);
  }

  lemma BelowChild(f: Path, e: Path, d: Path)
    requires Below(f, e) && Below(e, d)
    ensures Below(f, d)
  {
    assert f[..|d|] == f[..|e|][..|d|];
  }

  /** Replacing one collision-free set of files by another meets nothing in the wrong shape. */
  lemma NeverUnsafe(current: set<Path>, resulting: set<Path>, blockers: set<Path>, r: Path, d: Path)
    requires CollisionFree(resulting) && r in resulting
    requires forall p :: p in blockers <==>
               p in current - resulting && (p in Ancestors(resulting) || exists q :: q in resulting && Below(p, q))
    ensures r !in Ancestors(current - blockers) + Ancestors(resulting)
    ensures Below(r, d) ==> d !in (current - blockers) + resulting
  {
    AncestorsAreAbove(current - blockers, r);
    AncestorsAreAbove(resulting, r);
    AncestorsAreAbove(resulting, d);
  }

  class Workspace {
    const rules: Rules
    var files: Files
    var dirs: set<Path>

    ghost predicate Tree()
      reads this
    {
      IsTree(files.Keys, dirs)
    }

    /** Exactly the files of an acceptable set, and exactly the directories they need. */
    ghost predicate Valid()
      reads this
    {
      ValidSet(rules, files) && dirs == Ancestors(files.Keys)
    }

    lemma ValidIsTree()
      requires CollisionFree(files.Keys) && dirs == Ancestors(files.Keys)
      ensures Tree()
    {
      forall p | p in files ensures p !in dirs {
        AncestorsAreAbove(files.Keys, p);
      }
      forall p, d: Path | (p in files || p in dirs) && Below(p, d) ensures d in dirs {
        AncestorsAreAbove(files.Keys, p);
        AncestorsAreAbove(files.Keys, d);
        if p !in files {
          var f :| f in files && Below(f, p);
          BelowChild(f, p, d);
        }
      }
    }

    constructor (rules: Rules)
      ensures this.rules == rules && files == map[] && dirs == {} && Valid()
    {
      this.rules := rules;
      files, dirs := map[], {};
    }

    // ---- the tree -----------------------------------------------------------------------

    method Unlink(path: Path) returns (ok: bool)
      modifies this`files
      ensures ok == (path in old(files)) && files == old(files) - {path}
    {
      ok := path in files;
      files := files - {path};
    }

    /** `_prune_empty_directories`: one bottom-up walk leaves no directory without a file. */
    method PruneEmptyDirectories()
      requires Tree()
      modifies this`dirs
      ensures dirs == Ancestors(files.Keys)
    {
      var todo := dirs;
      while todo != {}
        invariant Tree() && todo <= dirs
        invariant forall d :: d in dirs - todo ==> HoldsFile(files.Keys, d)
        invariant forall d, e :: d in dirs - todo && e in todo ==> !Below(e, d)
        decreases todo
      {
        SomeDeepest(todo);
        var d :| d in todo && forall e :: e in todo ==> !Below(e, d);
        var hasFile := exists f :: f in files && IsChild(f, d);
        var hasDirectory := exists e :: e in dirs && IsChild(e, d);
        if !hasFile && !hasDirectory {
          RemovalKeepsTree(d);
          dirs := dirs - {d};
        } else if !hasFile {
          var e :| e in dirs && IsChild(e, d);
          assert e in dirs - todo;
          var f :| f in files && Below(f, e);
          BelowChild(f, e, d);
        }
        todo := todo - {d};
      }
      assert dirs - todo == dirs;
      forall d: Path ensures d in dirs <==> d in Ancestors(files.Keys) {
        AncestorsAreAbove(files.Keys, d);
      }
    }

    lemma RemovalKeepsTree(d: Path)
      requires Tree() && forall c :: c in files || c in dirs ==> !IsChild(c, d)
      ensures IsTree(files.Keys, dirs - {d})
    {
      forall p, e: Path | (p in files || p in dirs - {d}) && Below(p, e) ensures e in dirs - {d} {
        if e == d { EmptyIsBare(files.Keys, dirs, d, p); }
      }
    }

    lemma MkdirKeepsTree(path: Path, k: nat)
      requires Tree() && 1 <= k < |path| && path[..k] !in files
      requires forall i :: 1 <= i < k ==> path[..i] in dirs
      ensures IsTree(files.Keys, dirs + {path[..k]})
    {
      forall p, e: Path | (p in files || p in dirs + {path[..k]}) && Below(p, e) ensures e in dirs + {path[..k]} {
        if p == path[..k] { assert e == path[..|e|]; }
      }
    }

    /** `_materialize_target`: make the parent directories unless something unsafe is there. */
    method MaterializeTarget(path: Path) returns (ok: bool)
      requires Tree()
      modifies this`dirs
      ensures Tree()
      ensures ok <==> path !in old(dirs) && forall d: Path :: Below(path, d) ==> d !in files
      ensures old(dirs) <= dirs <= old(dirs) + Ancestors({path})
      ensures ok ==> dirs == old(dirs) + Ancestors({path})
    {
      var k := 1;
      assert Ancestors({path[..1]}) == {};
      while k < |path|
        invariant 1 <= k <= |path| && Tree()
        invariant dirs == old(dirs) + Ancestors({path[..k]})
        invariant forall i :: 1 <= i < k ==> path[..i] in dirs
      {
        var d := path[..k];
        OneLevelUp(path, k);
        if d in files {
          assert Below(path, d);
          return false;
        }
        MkdirKeepsTree(path, k);
        dirs := dirs + {d};
        k := k + 1;
      }
      assert path[..k] == path;
      AncestorsAreAbove({path}, path);
      forall d: Path | Below(path, d) ensures d !in files {
        assert d == path[..|d|];
      }
      ok := path !in dirs;
    }

    // ---- committing -----------------------------------------------------------------------

    /** `_write_result_files`: from exactly the current files to exactly the resulting ones. */
    method WriteResultFiles(resulting: Files) returns (ok: bool)
      requires CollisionFree(files.Keys) && dirs == Ancestors(files.Keys)
      requires CollisionFree(resulting.Keys)
      modifies this
      ensures ok && files == resulting && dirs == Ancestors(resulting.Keys)
    {
      ValidIsTree();
      var current := files;
      var obsolete := current.Keys - resulting.Keys;
      var required := Ancestors(resulting.Keys);
      var blockers := set p | p in obsolete && (p in required || exists r :: r in resulting && Below(p, r));
      ok := ClearTheWay(blockers);
      if !ok { return; }
      ok := WriteAll(current, resulting, blockers);
      if !ok { return; }
      ok := UnlinkAll(obsolete - blockers);
      if !ok { return; }
      assert files == resulting;
      PruneEmptyDirectories();
    }

    /** Remove the files in the wrong shape, and then the directories only they needed. */
    method ClearTheWay(blockers: set<Path>) returns (ok: bool)
      requires Tree() && dirs == Ancestors(files.Keys) && blockers <= files.Keys
      modifies this
      ensures ok && Tree() && files == old(files) - blockers && dirs == Ancestors(files.Keys)
    {
      ok := UnlinkAll(blockers);
      if blockers != {} { PruneEmptyDirectories(); }
      ValidIsTree();
    }

    method UnlinkAll(paths: set<Path>) returns (ok: bool)
      requires Tree()
      modifies this`files
      ensures ok <==> paths <= old(files).Keys
      ensures ok ==> files == old(files) - paths && Tree()
    {
      var todo := paths;
      ok := true;
      while todo != {}
        invariant todo <= paths && paths - todo <= old(files).Keys
        invariant files == old(files) - (paths - todo) && Tree()
        decreases todo
      {
        var p :| p in todo;
        ok := Unlink(p);
        if !ok { return; }
        todo := todo - {p};
      }
    }

    /** The new and changed files, while the obsolete ones that block nothing are still there. */
    method WriteAll(current: Files, resulting: Files, blockers: set<Path>) returns (ok: bool)
      requires Tree() && CollisionFree(resulting.Keys)
      requires files == current - blockers && dirs == Ancestors(files.Keys)
      requires forall p :: p in blockers <==>
                 p in current.Keys - resulting.Keys
                 && (p in Ancestors(resulting.Keys) || exists q :: q in resulting && Below(p, q))
      modifies this
      ensures ok && Tree()
      ensures files.Keys == (current.Keys - blockers) + resulting.Keys
      ensures forall p :: p in resulting ==> files[p] == resulting[p]
    {
      var todo := resulting.Keys;
      ok := true;
      while todo != {}
        invariant Tree() && todo <= resulting.Keys
        invariant files.Keys == (current.Keys - blockers) + (resulting.Keys - todo)
        invariant forall p :: p in resulting && p !in todo ==> files[p] == resulting[p]
        invariant forall p :: p in todo && p in current ==> files[p] == current[p]
        invariant dirs <= Ancestors(current.Keys - blockers) + Ancestors(resulting.Keys)
        decreases todo
      {
        var r :| r in todo;
        if r !in current || current[r] != resulting[r] {
          forall d: Path ensures r !in dirs && (Below(r, d) ==> d !in files) {
            NeverUnsafe(current.Keys, resulting.Keys, blockers, r, d);
          }
          ok := MaterializeTarget(r);
          if !ok { return; }
          assert Ancestors({r}) <= Ancestors(resulting.Keys);
          WriteKeepsTree(r);
          files := files[r := resulting[r]];
        }
        todo := todo - {r};
      }
    }

    lemma WriteKeepsTree(r: Path)
      requires Tree() && r !in dirs && Ancestors({r}) <= dirs
      ensures IsTree(files.Keys + {r}, dirs)
    {
      forall d: Path | Below(r, d) ensures d in dirs {
        AncestorsAreAbove({r}, d);
      }
    }

    // ---- proposals ------------------------------------------------------------------------

    /** `_validate_file_set`. */
    method ValidateFileSet(someFiles: Files) returns (ok: bool)
      ensures ok == ValidSet(rules, someFiles)
    {
      if |someFiles| > rules.maxFileCount { return false; }
      var todo, total := someFiles, 0;
      while todo != map[]
        invariant todo.Keys <= someFiles.Keys && forall p :: p in todo ==> todo[p] == someFiles[p]
        invariant forall p :: p in someFiles && p !in todo ==> |someFiles[p]| <= rules.maxFileBytes
        invariant total + TotalBytes(todo) == TotalBytes(someFiles) && total <= rules.maxTotalBytes
        decreases |todo|
      {
        var p :| p in todo;
        TotalTakesOut(todo, p);
        if |todo[p]| > rules.maxFileBytes { return false; }
        total := total + |todo[p]|;
        if total > rules.maxTotalBytes { return false; }
        todo := todo - {p};
      }
      ok := NoCollisions(someFiles);
    }

    /** `_validate_no_file_directory_collisions`. */
    method NoCollisions(someFiles: Files) returns (ok: bool)
      ensures ok == CollisionFree(someFiles.Keys)
    {
      var todo := someFiles.Keys;
      while todo != {}
        invariant todo <= someFiles.Keys
        invariant forall p, q :: p in someFiles && p !in todo && q in someFiles ==> !Below(p, q)
        decreases todo
      {
        var p :| p in todo;
        var k := 1;
        while k < |p|
          invariant 1 <= k <= |p|
          invariant forall i :: 1 <= i < k ==> p[..i] !in someFiles
        {
          if p[..k] in someFiles {
            assert Below(p, p[..k]);
            return false;
          }
          k := k + 1;
        }
        assert forall q: Path :: Below(p, q) ==> q == p[..|q|] && 1 <= |q| < |p|;
        todo := todo - {p};
      }
      ok := true;
    }

    method PlanOne(s: Progress, c: Change) returns (r: Result<Progress>)
      ensures r == Step(rules, s, c)
    {
      if c.path.None? { return Err(Validation); }
      var p := c.path.value;
      var clash := exists q :: q in s.result && Clash(p, q);
      var fault := Fault(rules, Lookup(s.result, p), p in s.seen, clash, c);
      if fault.Some? { return Err(fault.value); }
      var bytes := s.bytes + Size(c);
      if bytes > rules.maxPatchBytes { return Err(Validation); }
      r := Ok(Progress(s.plan + [Planned(p, c.action.value, Lookup(s.result, p), After(c))],
                       Put(s.result, p, After(c)), s.seen + {p}, bytes));
    }

    method PlanAll(current: Files, changes: seq<Change>) returns (r: Result<Progress>)
      ensures r == Attempt(rules, current, changes)
    {
      r := Ok(Progress([], current, {}, 0));
      var i := 0;
      while i < |changes|
        invariant 0 <= i <= |changes|
        invariant r.Ok? && Attempt(rules, current, changes[..i]) == r
      {
        AttemptUnfolds(rules, current, changes, i);
        r := PlanOne(r.value, changes[i]);
        if r.Err? {
          ErrorSticks(rules, current, changes, i + 1);
          return;
        }
        i := i + 1;
      }
      assert changes[..i] == changes;
    }

    /** `_plan_changes`. */
    method PlanChanges(current: Files, changes: seq<Change>) returns (r: Result<Progress>)
      ensures r == Plan(rules, current, changes)
    {
      if changes == [] || |changes| > rules.maxChanges { return Err(Validation); }
      r := PlanAll(current, changes);
      if r.Ok? {
        var valid := ValidateFileSet(r.value.result);
        if !valid { r := Err(Validation); }
      }
    }

    /** The workspace's first contents, from `__init__`. */
    method Populate(base: Files) returns (ok: bool)
      requires Valid() && files == map[]
      modifies this
      ensures Valid() && ok == ValidSet(rules, base)
      ensures files == if ok then base else map[]
    {
      ok := ValidateFileSet(base);
      if ok { ok := WriteResultFiles(base); }
    }

    /** `apply`: all or nothing, and reading the workspace back never fails. */
    method Apply(changes: seq<Change>) returns (r: Result<seq<Planned>>)
      requires Valid()
      modifies this
      ensures Valid()
      ensures r.Err? ==> files == old(files) && dirs == old(dirs)
      ensures match Plan(rules, old(files), changes)
              case Err(e) => r == Err(e)
              case Ok(s) =>
                if rules.diffBytes(s.plan) > rules.maxDiffBytes then r == Err(Validation)
                else r == Ok(s.plan) && files == s.result
    {
      var current := files;
      var readable := ValidateFileSet(current);
      assert readable;
      var planned := PlanChanges(current, changes);
      if planned.Err? { return Err(planned.error); }
      var plan, resulting := planned.value.plan, planned.value.result;
      if rules.diffBytes(plan) > rules.maxDiffBytes { return Err(Validation); }
      var ok := WriteResultFiles(resulting);
      r := Ok(plan);
    }
  }
}
