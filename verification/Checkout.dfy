/** The coordinator's checkout: promotion as ordered passes of system calls, and rollback. */
module Checkout {
  import opened Common
  import opened FileTree
  import opened Inventory
  import opened Promotion
  import opened Rollback
  import opened PythonText
  import opened ScopePatterns

  /** How a system call or a pass ends: `Refused` by the system or a path check, or `Fault`, an
      I/O error that any call may run into. */
  datatype Signal = Done | Refused | Fault

  /** Paths by depth; the source breaks ties by name, here any tie-break will do. */
  ghost predicate ByDepth(q: seq<Path>, s: set<Path>) {
    && (forall p :: p in q <==> p in s)
    && (forall i, k | 0 <= i < k < |q| :: |q[i]| <= |q[k]| && q[i] != q[k])
  }

  lemma {:induction false} ShallowestExists(s: set<Path>)
    requires s != {}
    ensures exists m :: m in s && forall x | x in s :: |m| <= |x|
    decreases s
  {
    var m :| m in s;
    var rest := s - {m};
    assert s == rest + {m};
    if rest == {} {
      LeastOf(s, rest, m, m);
    } else {
      ShallowestExists(rest);
      var n :| n in rest && forall x | x in rest :: |n| <= |x|;
      LeastOf(s, rest, m, if |m| <= |n| then m else n);
    }
  }

  lemma LeastOf(s: set<Path>, rest: set<Path>, m: Path, least: Path)
    requires s == rest + {m} && least in s && |least| <= |m| && forall x | x in rest :: |least| <= |x|
    ensures exists m :: m in s && forall x | x in s :: |m| <= |x|
  {
    assert forall x | x in s :: |least| <= |x|;
  }

  method SortByDepth(s: set<Path>) returns (q: seq<Path>)
    ensures ByDepth(q, s)
  {
    var left := s;
    q := [];
    while left != {}
      invariant left <= s
      invariant forall p :: p in q <==> p in s - left
      invariant forall i, k | 0 <= i < k < |q| :: |q[i]| <= |q[k]| && q[i] != q[k]
      invariant forall i, x | 0 <= i < |q| && x in left :: |q[i]| <= |x|
      decreases left
    {
      ShallowestExists(left);
      var m :| m in left && forall x | x in left :: |m| <= |x|;
      assert m !in q;
      q := q + [m];
      left := left - {m};
    }
  }

  class Checkout {
    var tree: Tree

    /** How many system calls have failed so far; any call may. */
    var faults: nat

    /** What an interrupted write leaves in its file. */
    const torn: string
    const dirMode: nat
    const fileMode: nat

    method Call(op: Op) returns (r: Signal)
      requires WellFormed(tree)
      modifies this
      ensures WellFormed(tree)
      ensures r.Done? ==> Effect(old(tree), op) == Some(tree)
      ensures r.Refused? ==> Effect(old(tree), op).None? && tree == old(tree)
      ensures r.Fault? ==> tree == old(tree) || (op.Write? && Effect(old(tree), op.(bytes := torn)) == Some(tree))
      ensures faults == old(faults) + (if r.Fault? then 1 else 0)
    {
      if * {
        faults := faults + 1;
        if op.Write? && Effect(tree, op.(bytes := torn)).Some? {
          EffectIsLocal(tree, op.(bytes := torn));
          tree := Effect(tree, op.(bytes := torn)).value;
        }
        return Fault;
      }
      var next := Effect(tree, op);
      if next.None? {
        return Refused;
      }
      EffectIsLocal(tree, op);
      tree := next.value;
      return Done;
    }

    /** `_remove_target`: unlink a file or link, rmdir a directory, ignore an absent path. */
    method RemoveTarget(p: Path) returns (r: Signal)
      requires WellFormed(tree) && p != []
      modifies this
      ensures WellFormed(tree)
      ensures r.Done? ==> tree == old(tree) - {p}
      ensures !r.Done? ==> tree == old(tree)
      ensures r.Refused? ==> p in tree && tree[p].Directory? && HasChild(tree, p)
      ensures faults == old(faults) + (if r.Fault? then 1 else 0)
    {
      if p !in tree {
        return Done;
      }
      r := Call(if tree[p].Directory? then Rmdir(p) else Unlink(p));
    }

    /** `mkdir(parents=True, exist_ok=True)`. */
    method MakeDirectories(p: Path) returns (r: Signal)
      requires WellFormed(tree)
      modifies this
      ensures WellFormed(tree)
      ensures forall q | q in old(tree) :: q in tree && tree[q] == old(tree)[q]
      ensures forall q | q in tree && q !in old(tree) :: q <= p && tree[q] == Directory(dirMode)
      ensures r.Done? ==> IsDirectory(tree, p)
      ensures r.Refused? ==> exists q :: q <= p && q in old(tree) && !old(tree)[q].Directory?
      ensures IsDirectory(old(tree), p) ==> r.Done? && tree == old(tree)
      ensures p != [] && p !in old(tree) && IsDirectory(old(tree), Parent(p)) ==>
                r != Refused && tree == if r.Done? then old(tree)[p := Directory(dirMode)] else old(tree)
      ensures faults == old(faults) + (if r.Fault? then 1 else 0)
      decreases |p|
    {
      if p == [] || (p in tree && tree[p].Directory?) {
        return Done;
      }
      if p in tree {
        return Refused;
      }
      r := MakeDirectories(Parent(p));
      if r.Done? {
        r := Call(Mkdir(p, dirMode));
      }
    }

    // ----- Apply -----

    /** Deletions, deepest first. */
    method DeletePass(j: Job) returns (r: Signal)
      requires j.Checked() && tree == j.target
      modifies this
      ensures r != Refused && j.Between(tree)
      ensures r.Done? ==> tree == j.AfterDeletes()
      ensures faults == old(faults) + (if r.Fault? then 1 else 0)
    {
      StartIsBetween(j);
      var q := SortByDepth(j.Deleted());
      SortedPathsAre(q, j.Deleted());
      assert j.AfterDeletes() == j.target - j.Deleted();
      hide *;
      assert j.target - {} == j.target;
      for i := |q| downto 0
        invariant j.Between(tree)
        invariant tree == j.target - Rest(q, i)
        invariant faults == old(faults)
      {
        ghost var before := tree;
        BetweenIsWellFormed(j, tree);
        DeletionIsReady(j, q, i, tree);
        if !Safe(tree, q[i]) {
          return Refused;
        }
        r := RemoveTarget(q[i]);
        if !r.Done? {
          return;
        }
        RemovalKeepsBetween(j, before, q[i]);
        RestStep(q, i);
        MinusOne(j.target, Rest(q, i + 1), q[i]);
      }
      return Done;
    }

    /** Directories, shallowest first; a file or link in the way is removed. */
    method DirectoryPass(j: Job) returns (r: Signal)
      requires j.Checked() && dirMode == j.dirMode
      requires j.Framed(tree) && j.Near(j.AfterDeletes(), tree) && (j.Anchored() ==> j.Between(tree))
      modifies this
      ensures j.Framed(tree) && (j.Anchored() ==> r != Refused && j.Between(tree))
      ensures r.Done? ==> j.Near(j.AfterDirectories(), tree)
      ensures faults == old(faults) + (if r.Fault? then 1 else 0)
    {
      assert j.Anchored() ==> j.Ready();
      hide *;
      var q := SortByDepth(j.Directories());
      DirectoryPassEnds(j, q);
      for i := 0 to |q|
        invariant j.Framed(tree) && (j.Anchored() ==> j.Between(tree))
        invariant j.Near(j.AfterDeletes() + j.Made(First(q, i)), tree)
        invariant faults == old(faults)
      {
        ghost var before := tree;
        FramedIsWellFormed(j, tree);
        DirectoryIsPlanned(j, q, i);
        if j.Anchored() { DirectoryIsReady(j, q, i, tree); }
        if !Safe(tree, q[i]) {
          return Refused;
        }
        r := EnsureDirectory(j, q[i]);
        if !r.Done? {
          return;
        }
        FramedIsWellFormed(j, tree);
        DirectoryMade(j, q, i, before, tree);
      }
      return Done;
    }

    method EnsureDirectory(j: Job, p: Path) returns (r: Signal)
      requires j.Framed(tree) && WellFormed(tree) && p in j.changed && p in j.After() && p != [] && dirMode == j.dirMode
      modifies this
      ensures j.Framed(tree)
      ensures r.Done? ==> j.Grown(old(tree), tree, p, DirectoryAt(old(tree), p, dirMode))
      ensures old(j.Between(tree)) && IsDirectory(old(tree), Parent(p)) ==> r != Refused && j.Between(tree)
      ensures faults == old(faults) + (if r.Fault? then 1 else 0)
    {
      hide Job.Between, Job.Framed, WellFormed, HasChild;
      if p in tree && !tree[p].Directory? {
        r := RemoveTarget(p);
        if !r.Done? {
          return;
        }
        FrameKept(j, old(tree), tree);
        if j.Between(old(tree)) { RemovalKeepsBetween(j, old(tree), p); }
        StillADirectory(old(tree), p);
      }
      ghost var cleared := tree;
      r := MakeDirectories(p);
      FrameGrows(j, cleared, tree, p);
      if j.Between(cleared) && IsDirectory(cleared, Parent(p)) && r.Done? && p !in cleared {
        DirectoryKeepsBetween(j, cleared, p, dirMode);
      }
    }

    /** Files, shallowest first: whatever is there is removed, then content and mode are copied. */
    method FilePass(j: Job) returns (r: Signal)
      requires j.Checked() && dirMode == j.dirMode
      requires j.Framed(tree) && j.Near(j.AfterDirectories(), tree) && (j.Anchored() ==> j.Between(tree))
      modifies this
      ensures j.Framed(tree) && (j.Anchored() ==> r != Refused && j.Between(tree))
      ensures r.Done? ==> j.Near(j.AfterFiles(), tree)
      ensures faults == old(faults) + (if r.Fault? then 1 else 0)
    {
      assert j.Anchored() ==> j.Ready();
      hide *;
      var q := SortByDepth(j.Files());
      FilePassEnds(j, q);
      for i := 0 to |q|
        invariant j.Framed(tree) && (j.Anchored() ==> j.Between(tree))
        invariant j.Near(j.AfterDirectories() + j.Copied(First(q, i)), tree)
        invariant faults == old(faults)
      {
        ghost var before := tree;
        FramedIsWellFormed(j, tree);
        FileIsPlanned(j, q, i);
        if j.Anchored() { FileIsReady(j, q, i, tree); }
        if !Safe(tree, q[i]) {
          return Refused;
        }
        r := CopyFile(j, q[i]);
        if !r.Done? {
          return;
        }
        FramedIsWellFormed(j, tree);
        FileCopied(j, q, i, before, tree);
      }
      return Done;
    }

    method CopyFile(j: Job, p: Path) returns (r: Signal)
      requires j.Framed(tree) && WellFormed(tree) && p in j.Files() && p in j.changed && p in j.After() && p != []
      requires p in j.worker && j.worker[p].File? && dirMode == j.dirMode
      modifies this
      ensures j.Framed(tree)
      ensures r.Done? ==> j.Grown(old(tree), tree, p, j.worker[p])
      ensures old(j.Between(tree)) && old(OpenFor(tree, p)) ==> r != Refused && j.Between(tree)
      ensures faults == old(faults) + (if r.Fault? then 1 else 0)
    {
      hide Job.Between, Job.Framed, Job.Grown, HasChild, WellFormed, Job.Files;
      r := RemoveTarget(p);
      if !r.Done? {
        return;
      }
      FrameKept(j, old(tree), tree);
      if j.Between(old(tree)) { RemovalKeepsBetween(j, old(tree), p); }
      StillADirectory(old(tree), p);
      ghost var cleared := tree;
      r := MakeDirectories(Parent(p));
      FrameGrows(j, cleared, tree, p);
      if !r.Done? {
        return;
      }
      ghost var ready := tree;
      r := WriteFile(j, p);
      FileGrown(j, old(tree), ready, p, j.worker[p]);
    }

    method WriteFile(j: Job, p: Path) returns (r: Signal)
      requires j.Framed(tree) && WellFormed(tree) && p in j.Files() && p in j.changed && p != []
      requires p in j.worker && j.worker[p].File? && p !in tree && IsDirectory(tree, Parent(p))
      modifies this
      ensures j.Framed(tree) && r != Refused
      ensures r.Done? ==> tree == old(tree)[p := j.worker[p]]
      ensures old(j.Between(tree)) ==> j.Between(tree)
      ensures faults == old(faults) + (if r.Fault? then 1 else 0)
    {
      hide Job.Between, Job.Framed, WellFormed, Job.Files;
      var write := Write(p, j.worker[p].bytes, fileMode);
      r := Call(write);
      FrameKept(j, old(tree), tree);
      if r.Done? {
        if j.Between(old(tree)) { CallKeepsBetween(j, old(tree), write); }
      } else {
        if j.Between(old(tree)) && tree != old(tree) { CallKeepsBetween(j, old(tree), write.(bytes := torn)); }
        return;
      }
      ghost var written := tree;
      r := Call(Chmod(p, j.worker[p].mode));
      FrameKept(j, written, tree);
      if j.Between(written) && r.Done? {
        CallKeepsBetween(j, written, Chmod(p, j.worker[p].mode));
      }
    }

    /** Directory modes last, deepest first. */
    method ModePass(j: Job) returns (r: Signal)
      requires j.Checked() && j.Framed(tree) && j.Near(j.AfterFiles(), tree) && (j.Anchored() ==> j.Between(tree))
      modifies this
      ensures j.Framed(tree) && (j.Anchored() ==> r != Refused && j.Between(tree))
      ensures r.Done? ==> j.Near(j.Promoted(), tree)
      ensures faults == old(faults) + (if r.Fault? then 1 else 0)
    {
      var q := SortByDepth(j.Directories());
      hide *;
      SortedPathsAre(q, j.Directories());
      NothingCopied(j, j.AfterFiles());
      PassesBuildPromoted(j);
      for i := |q| downto 0
        invariant j.Framed(tree) && (j.Anchored() ==> j.Between(tree))
        invariant j.Near(j.AfterFiles() + j.Copied(Rest(q, i)), tree)
        invariant faults == old(faults)
      {
        ghost var before := tree;
        FramedIsWellFormed(j, tree);
        ModeIsReady(j, q, i, tree);
        ModeEffect(tree, q[i], j.worker[q[i]].mode);
        if !Safe(tree, q[i]) {
          return Refused;
        }
        r := Call(Chmod(q[i], j.worker[q[i]].mode));
        if !r.Done? {
          return;
        }
        OneNodeMoved(before, q[i], tree[q[i]]);
        FrameKept(j, before, tree);
        if j.Anchored() { CallKeepsBetween(j, before, Chmod(q[i], j.worker[q[i]].mode)); }
        ModeSet(j, q, i, before);
      }
      return Done;
    }

    /** The four ordered passes: complete unless a system call fails, and wherever they stop the
        frame is kept. With every changed path anchored they are never refused. */
    method ApplyStagedChanges(j: Job) returns (r: Signal)
      requires j.Checked() && tree == j.target && dirMode == j.dirMode
      modifies this
      ensures j.Framed(tree) && (j.Anchored() ==> r != Refused && j.Between(tree))
      ensures r.Done? ==> j.Near(j.Promoted(), tree)
      ensures faults == old(faults) + (if r.Fault? then 1 else 0)
    {
      hide *;
      r := DeletePass(j);
      BetweenIsFramed(j, tree);
      if !r.Done? { return; }
      SameIsNear(j, tree);
      r := DirectoryPass(j);
      if !r.Done? { return; }
      r := FilePass(j);
      if !r.Done? { return; }
      r := ModePass(j);
    }

    // ----- Rollback -----

    /** Puts the coordinator's node back at a path that has been cleared. */
    method PlaceNode(j: Job, ghost s: Tree, ghost done: set<Path>, p: Path) returns (r: Signal)
      requires Revertible(j, s) && Progress(j, s, done, {p}, tree) && Next(j, done, p)
      requires p != [] && p in j.target && p !in tree
      modifies this
      ensures WellFormed(tree) && Reverting(j, s, done, tree)
      ensures r.Done? ==> Progress(j, s, done, {p}, tree) && Find(tree, p) == Find(j.target, p)
      ensures r.Refused? && j.Between(s) ==> j.Blocked(s)
      ensures faults == old(faults) + (if r.Fault? then 1 else 0)
    {
      hide Revertible, Progress, Reverting, Next, WellFormed, Job.Between, Job.Blocked, HasChild;
      ProgressIsWellFormed(j, s, done, {p}, tree);
      ghost var before := tree;
      r := MakeDirectories(Parent(p));
      if r.Refused? {
        ghost var q :| q <= Parent(p) && q in before && !before[q].Directory?;
        ProgressBarred(j, s, done, before, p, q);
      }
      ProgressParents(j, s, done, before, tree, p);
      ProgressIsWellFormed(j, s, done, {p}, tree);
      if !r.Done? {
        return;
      }
      ghost var ready := tree;
      r := MakeNode(p, j.target[p]);
      NextIsChanged(j, done, p);
      ProgressTouch(j, s, done, {p}, ready, tree, p);
      ProgressIsWellFormed(j, s, done, {p}, tree);
    }

    /** Makes an absent path the given node; below a directory nothing can refuse this. */
    method MakeNode(p: Path, node: Node) returns (r: Signal)
      requires WellFormed(tree) && p != [] && p !in tree && IsDirectory(tree, Parent(p))
      modifies this
      ensures WellFormed(tree) && r != Refused
      ensures r.Done? ==> tree == old(tree)[p := node]
      ensures forall x | x != p :: Find(tree, x) == Find(old(tree), x)
      ensures faults == old(faults) + (if r.Fault? then 1 else 0)
    {
      hide WellFormed, HasChild;
      match node {
        case Directory(mode) =>
          r := Call(Mkdir(p, dirMode));
          if r.Done? { r := Call(Chmod(p, mode)); }
        case File(bytes, mode) =>
          r := Call(Write(p, bytes, fileMode));
          if r.Done? { r := Call(Chmod(p, mode)); }
        case Symlink(target) =>
          r := Call(MakeLink(p, target));
      }
    }

    /** Leaves a directory where one is wanted, with the wanted mode, and nothing elsewhere. */
    method ClearPath(p: Path, wanted: Option<Node>) returns (r: Signal)
      requires WellFormed(tree) && p != []
      modifies this
      ensures WellFormed(tree)
      ensures forall x | x != p :: Find(tree, x) == Find(old(tree), x)
      ensures r.Done? ==> Find(tree, p) == if WantsDirectory(wanted) && IsDirectory(old(tree), p) then wanted else None
      ensures r.Refused? ==> !WantsDirectory(wanted) && HasChild(old(tree), p)
      ensures faults == old(faults) + (if r.Fault? then 1 else 0)
    {
      hide WellFormed, HasChild;
      if WantsDirectory(wanted) && p in tree && tree[p].Directory? {
        r := Call(Chmod(p, wanted.value.mode));
      } else {
        r := RemoveTarget(p);
      }
    }

    /** Restores one path to its backed-up kind, content and mode. */
    method RestorePath(j: Job, ghost s: Tree, ghost done: set<Path>, p: Path) returns (r: Signal)
      requires Revertible(j, s) && Progress(j, s, done, {}, tree) && Next(j, done, p)
      modifies this
      ensures Reverting(j, s, done, tree)
      ensures r.Done? ==> Progress(j, s, done + {p}, {}, tree)
      ensures r.Refused? && j.Between(s) ==> j.Blocked(s)
      ensures faults == old(faults) + (if r.Fault? then 1 else 0)
    {
      NextIsNamed(j, s, done, p);
      hide Revertible, Progress, Reverting, Next, WellFormed, Job.Between, Job.Blocked, HasChild;
      ProgressIsSafe(j, s, done, tree, p);
      ProgressIsWellFormed(j, s, done, {}, tree);
      NextIsChanged(j, done, p);
      if !Safe(tree, p) {
        return Refused;
      }
      var wanted := Find(j.target, p);
      ghost var before := tree;
      r := ClearPath(p, wanted);
      ProgressTouch(j, s, done, {}, before, tree, p);
      ProgressIsWellFormed(j, s, done, {p}, tree);
      if !r.Done? {
        return;
      }
      if Find(tree, p) != wanted {
        r := PlaceNode(j, s, done, p);
        if !r.Done? {
          return;
        }
      }
      ProgressRestored(j, s, done, tree, p);
    }

    /** Rollback, deepest path first. It moves nothing outside the changed set, and when it completes
        every changed path is the coordinator's again. From a state of an anchored promotion it
        restores the whole tree, and is refused only if the state is blocked. */
    method RestoreTargetState(j: Job) returns (r: Signal)
      requires Revertible(j, tree)
      modifies this
      ensures WellFormed(tree) && forall x | x !in j.changed :: Find(tree, x) == Find(old(tree), x)
      ensures r.Done? ==> forall x | x in j.changed :: Find(tree, x) == Find(j.target, x)
      ensures r.Done? && old(j.Between(tree)) ==> tree == j.target && !old(j.Blocked(tree))
      ensures r.Refused? && old(j.Between(tree)) ==> old(j.Blocked(tree))
      ensures faults == old(faults) + (if r.Fault? then 1 else 0)
    {
      hide *;
      ghost var s := tree;
      var q := SortByDepth(j.changed);
      SortedPathsAre(q, j.changed);
      ProgressStarts(j, s);
      for i := |q| downto 0
        invariant Progress(j, s, Rest(q, i), {}, tree)
        invariant faults == old(faults)
      {
        NextInOrder(j, q, i);
        r := RestorePath(j, s, Rest(q, i + 1), q[i]);
        if !r.Done? {
          RevertingKeepsFrame(j, s, Rest(q, i + 1), tree);
          return;
        }
        RestStep(q, i);
      }
      ProgressEnds(j, s, tree);
      return Done;
    }

    // ----- Promotion -----

    /** The whole promotion: scope check, pre-checks, the passes, the final comparison, rollback. */
    method Promote(worker: Tree, before: Snapshot, patterns: seq<string>, task: Path) returns (v: Verdict)
      requires WellFormed(tree) && WellFormed(worker)
      modifies this
      ensures var j := JobFor(old(tree), worker, before, dirMode);
              var outside := OutOfScope(j, before, patterns, task);
              var failed := faults - old(faults);
              && j.Framed(tree)
              && (v.Violations? <==> outside != {})
              && (v.Violations? ==> v.paths == outside)
              && (v.Rejected? <==> outside == {} && !PreChecked(j, before))
              && (v.Violations? || v.Rejected? ==> tree == old(tree))
              && (v.Promoted? ==> j.Near(j.Promoted(), tree) && SameOutsideTasks(SnapshotOf(tree), j.After()))
              && (v.RolledBack? ==> j.Near(old(tree), tree))
              && (v.RolledBack? ==> forall p | p in j.changed :: Find(tree, p) == Find(old(tree), p))
              && (j.Implied() == {} ==> (v.Promoted? ==> tree == j.Promoted()) && (v.RolledBack? ==> tree == old(tree)))
              && (j.Anchored() && v.RollbackFailed? && !j.ReplacesFullDirectory() ==>
                    failed == 2 || (failed == 1 && !ModesAgree(j, before)))
              && (j.Anchored() && failed == 0 && outside == {} && PreChecked(j, before) ==>
                    && (v.Promoted? <==> ModesAgree(j, before))
                    && (v.RollbackFailed? <==> !ModesAgree(j, before) && j.ReplacesFullDirectory()))
    {
      var j := JobFor(tree, worker, before, dirMode);
      var outside := OutOfScope(j, before, patterns, task);
      StartIsBetween(j);
      BetweenIsFramed(j, tree);
      if outside != {} {
        return Violations(outside);
      }
      if !PreChecked(j, before) {
        return Rejected;
      }
      PreChecksCheck(j, before);
      FinalCheckMeansModesAgree(j, before);
      if j.Anchored() { AnchoredImpliesNothing(j); }
      hide *;
      var r := ApplyStagedChanges(j);
      if r.Done? { ExactOutcome(j, j.Promoted(), tree); }
      if r.Done? && SameOutsideTasks(SnapshotOf(tree), SnapshotOf(worker)) {
        return Verdict.Promoted;
      }
      if j.Anchored() { StoppedState(j, tree); }
      CheckedIsRevertible(j, tree);
      ghost var stopped := tree;
      r := RestoreTargetState(j);
      FrameKept(j, stopped, tree);
      if !r.Done? {
        return RollbackFailed;
      }
      RolledBackIsNear(j, tree);
      ExactOutcome(j, j.target, tree);
      return RolledBack;
    }
  }

  // ----- Promotion: what it checks and reports -----

  datatype Verdict = Violations(paths: set<Path>) | Rejected | Promoted | RolledBack | RollbackFailed

  function JobFor(target: Tree, worker: Tree, before: Snapshot, dirMode: nat): Job {
    Job(target, worker, ChangedPaths(before, SnapshotOf(worker)), dirMode)
  }

  predicate IsDirectoryEntry(j: Job, before: Snapshot, p: Path) {
    if p in j.After() then j.After()[p].DirectoryEntry? else p in before && before[p].DirectoryEntry?
  }

  predicate Allowed(patterns: seq<string>, p: Path, directory: bool) {
    exists i :: 0 <= i < |patterns| && PatternAllows(Join(p), patterns[i], directory)
  }

  /** Changed paths that are the promoted job's own packet or match no allowed pattern. */
  function OutOfScope(j: Job, before: Snapshot, patterns: seq<string>, task: Path): set<Path> {
    set p | p in j.changed && (p == task || !Allowed(patterns, p, IsDirectoryEntry(j, before, p)))
  }

  /** The checks made before the first change. */
  predicate PreChecked(j: Job, before: Snapshot) {
    && j.SourcesSupported() && j.RemovalsPlanned() && j.PathsSafe()
    && SameContentOutsideTasks(SnapshotOf(j.target), before)
  }

  lemma PreChecksCheck(j: Job, before: Snapshot)
    requires PreChecked(j, before) && WellFormed(j.target) && WellFormed(j.worker)
    ensures j.Checked() && (j.Anchored() ==> j.Ready())
    ensures SameContentOutsideTasks(SnapshotOf(j.target), before)
  {
  }

  lemma CheckedIsRevertible(j: Job, s: Tree)
    requires j.Checked() && j.Framed(s)
    ensures Revertible(j, s)
  {
  }

  /** Without an implied directory the tree is known exactly wherever it is known to be near. */
  lemma ExactOutcome(j: Job, base: Tree, t: Tree)
    requires j.Near(base, t)
    ensures j.Implied() == {} ==> t == base
  {
    if j.Implied() == {} { NearIsSame(j, base, t); }
  }

  lemma RolledBackIsNear(j: Job, t: Tree)
    requires j.Framed(t) && forall x | x in j.changed :: Find(t, x) == Find(j.target, x)
    ensures j.Near(j.target, t)
  {
    forall x ensures j.NearAt(j.target, t, x) {
      assert x in j.changed ==> Find(t, x) == Find(j.target, x);
    }
  }

  /** The stopped state of an anchored promotion is blocked only where a full directory is
      replaced, and always where it is and the passes are done. */
  lemma StoppedState(j: Job, s: Tree)
    requires j.Ready() && j.Between(s)
    ensures j.Blocked(s) ==> j.ReplacesFullDirectory()
    ensures s == j.Promoted() && j.ReplacesFullDirectory() ==> j.Blocked(s)
  {
    if j.Blocked(s) { BlockedOnlyByReplacement(j, s); }
    if j.ReplacesFullDirectory() { ReplacementBlocksRollback(j); }
  }

  /** Whatever a completed promotion changed was in the changed set, in scope, and not the job's own
      packet, but for implied directories. */
  lemma PromotionStaysInScope(j: Job, before: Snapshot, patterns: seq<string>, task: Path, t: Tree, p: Path)
    requires OutOfScope(j, before, patterns, task) == {} && j.Near(j.Promoted(), t)
    requires Find(t, p) != Find(j.target, p) && Segments(p)
    ensures p !in j.changed ==> p in j.Implied()
    ensures p in j.changed ==> p != task
    ensures p in j.changed ==>
              exists i :: 0 <= i < |patterns| && Covers(patterns[i], p, IsDirectoryEntry(j, before, p))
  {
    assert p !in OutOfScope(j, before, patterns, task);
    assert j.NearAt(j.Promoted(), t, p);
    if p !in j.changed {
      PromotedFrame(j, p);
    } else {
      var directory := IsDirectoryEntry(j, before, p);
      assert Allowed(patterns, p, directory);
      var i :| 0 <= i < |patterns| && PatternAllows(Join(p), patterns[i], directory);
      PatternsMeanSegments(p, patterns[i], directory);
    }
  }

  // ----- Order of the rollback -----

  lemma RevertingKeepsFrame(j: Job, s: Tree, done: set<Path>, t: Tree)
    requires Reverting(j, s, done, t)
    ensures WellFormed(t) && forall x | x !in j.changed :: Find(t, x) == Find(s, x)
  {
  }

  lemma NextIsNamed(j: Job, s: Tree, done: set<Path>, p: Path)
    requires Revertible(j, s) && Next(j, done, p)
    ensures p != []
  {
  }

  lemma NextIsChanged(j: Job, done: set<Path>, p: Path)
    requires Next(j, done, p)
    ensures p in j.changed && p !in done
  {
  }

  lemma NextInOrder(j: Job, q: seq<Path>, i: nat)
    requires ByDepth(q, j.changed) && i < |q|
    ensures Next(j, Rest(q, i + 1), q[i])
  {
    assert q[i] in q;
    forall x | x in j.changed && |x| > |q[i]| ensures x in Rest(q, i + 1) {
      assert x in q;
    }
    forall x | x in Rest(q, i + 1) ensures |x| >= |q[i]| && x in j.changed && x != q[i] {
      var k :| i + 1 <= k < |q| && q[k] == x;
      assert q[k] in q;
    }
  }

  // ----- Why no pass is refused -----

  ghost function Rest(q: seq<Path>, i: nat): set<Path>
    requires i <= |q|
  {
    set k | i <= k < |q| :: q[k]
  }

  lemma FirstStep(q: seq<Path>, i: nat)
    requires i < |q|
    ensures First(q, i + 1) == First(q, i) + {q[i]}
  {
  }

  lemma RestStep(q: seq<Path>, i: nat)
    requires i < |q|
    ensures Rest(q, i) == Rest(q, i + 1) + {q[i]}
  {
  }

  lemma NothingCopied(j: Job, t: Tree)
    ensures t + j.Copied({}) == t
  {
  }

  lemma MinusOne(t: Tree, gone: set<Path>, p: Path)
    ensures t - gone - {p} == t - (gone + {p})
  {
  }

  lemma OverlayOne(base: Tree, over: Tree, p: Path, n: Node)
    ensures base + over[p := n] == (base + over)[p := n]
  {
  }

  lemma CopiedOneMore(j: Job, done: set<Path>, p: Path)
    requires p in j.worker
    ensures j.Copied(done + {p}) == j.Copied(done)[p := j.worker[p]]
  {
  }

  ghost function First(q: seq<Path>, i: nat): set<Path>
    requires i <= |q|
  {
    set k | 0 <= k < i :: q[k]
  }

  lemma SortedPathsAre(q: seq<Path>, s: set<Path>)
    requires ByDepth(q, s)
    ensures Rest(q, 0) == s && First(q, |q|) == s && First(q, 0) == {} && Rest(q, |q|) == {}
    ensures forall i | 0 <= i < |q| :: q[i] in s
  {
    forall i | 0 <= i < |q| ensures q[i] in s { assert q[i] in q; }
  }

  /** The directory pass begins with nothing made and ends with every directory made. */
  lemma DirectoryPassEnds(j: Job, q: seq<Path>)
    requires ByDepth(q, j.Directories())
    ensures j.AfterDeletes() + j.Made(First(q, 0)) == j.AfterDeletes()
    ensures j.AfterDeletes() + j.Made(First(q, |q|)) == j.AfterDirectories()
  {
    SortedPathsAre(q, j.Directories());
    hide ByDepth, First, Job.AfterDeletes;
    assert j.Made({}) == map[];
  }

  lemma FilePassEnds(j: Job, q: seq<Path>)
    requires ByDepth(q, j.Files())
    ensures j.AfterDirectories() + j.Copied(First(q, 0)) == j.AfterDirectories()
    ensures j.AfterDirectories() + j.Copied(First(q, |q|)) == j.AfterFiles()
  {
    SortedPathsAre(q, j.Files());
    hide ByDepth, First, Job.AfterDirectories;
    assert j.Copied({}) == map[];
  }

  lemma FramedIsWellFormed(j: Job, s: Tree)
    requires j.Framed(s)
    ensures WellFormed(s)
  {
  }

  lemma OneNodeMoved(s: Tree, p: Path, n: Node)
    ensures forall x | x != p :: Find(s[p := n], x) == Find(s, x)
  {
  }

  lemma FileGrown(j: Job, s: Tree, u: Tree, p: Path, n: Node)
    requires p != []
    requires forall q | q in s - {p} :: q in u && u[q] == s[q]
    requires forall q | q in u && q !in s - {p} :: q <= Parent(p) && u[q] == Directory(j.dirMode)
    ensures j.Grown(s, u[p := n], p, n)
  {
  }

  predicate WantsDirectory(wanted: Option<Node>) { wanted.Some? && wanted.value.Directory? }

  /** The directory at `p`, or a new one. */
  function DirectoryAt(s: Tree, p: Path, mode: nat): Node {
    if p in s && s[p].Directory? then s[p] else Directory(mode)
  }

  /** A file can be put at `p`. */
  ghost predicate OpenFor(s: Tree, p: Path)
    requires p != []
  {
    IsDirectory(s, Parent(p)) && (p in s && s[p].Directory? ==> !HasChild(s, p))
  }

  lemma BetweenIsWellFormed(j: Job, s: Tree)
    requires j.Between(s)
    ensures WellFormed(s)
  {
  }

  lemma ModeEffect(s: Tree, p: Path, mode: nat)
    requires p != [] && p in s && s[p].Directory?
    ensures Effect(s, Chmod(p, mode)) == Some(s[p := s[p].(mode := mode)])
  {
  }

  lemma StillADirectory(s: Tree, p: Path)
    requires p != []
    ensures IsDirectory(s, Parent(p)) ==> IsDirectory(s - {p}, Parent(p))
  {
  }

  lemma RemovalKeepsBetween(j: Job, s: Tree, p: Path)
    requires j.Between(s) && p in j.changed && WellFormed(s - {p})
    ensures j.Between(s - {p})
  {
    forall x | x !in j.changed ensures Find(s - {p}, x) == Find(j.target, x) {
      assert Find(s, x) == Find(j.target, x);
    }
    forall x | x in s - {p} && s[x].Symlink? ensures Find(s - {p}, x) == Find(j.target, x) {
      assert Find(s, x) == Find(j.target, x);
    }
  }

  lemma DirectoryKeepsBetween(j: Job, s: Tree, p: Path, mode: nat)
    requires j.Between(s) && p in j.changed && WellFormed(s[p := Directory(mode)])
    ensures j.Between(s[p := Directory(mode)])
  {
    var u := s[p := Directory(mode)];
    forall x | x !in j.changed ensures Find(u, x) == Find(j.target, x) {
      assert Find(s, x) == Find(j.target, x);
    }
    forall x | x in u && u[x].Symlink? ensures Find(u, x) == Find(j.target, x) {
      assert Find(s, x) == Find(j.target, x);
    }
  }

  /** The next deletion has an approved path, and nothing is left below it. */
  lemma DeletionIsReady(j: Job, q: seq<Path>, i: nat, s: Tree)
    requires j.Checked() && ByDepth(q, j.Deleted()) && i < |q|
    requires s == j.target - Rest(q, i + 1)
    ensures q[i] in j.changed && q[i] != [] && Safe(s, q[i])
    ensures q[i] in s && s[q[i]].Directory? ==> !HasChild(s, q[i])
  {
    var p := q[i];
    assert p in q && p in j.Deleted();
    if p in s && s[p].Directory? {
      assert j.OnlyPlannedBelow(p);
      forall c | c in s && c != [] ensures Parent(c) != p {
        assert c in j.Deleted() ==> c in q;
      }
    }
  }

  /** Above a path that the worker has, the passes leave nothing but directories. */
  lemma NeededDirectories(j: Job, s: Tree, p: Path)
    requires j.Ready() && p in j.changed && p in j.After()
    requires forall x | x !in j.changed :: Find(s, x) == Find(j.target, x)
    requires forall x | x in j.Directories() && |x| < |p| :: x in s && s[x].Directory?
    ensures Safe(s, p) && IsDirectory(s, Parent(p))
  {
    forall k | 0 < k < |p| ensures IsDirectory(s, p[..k]) {
      var a := p[..k];
      AncestorsAreDirectories(j.worker, p, a);
      if a in j.changed {
        assert a in j.Directories();
      } else {
        assert Find(s, a) == Find(j.target, a);
      }
    }
  }

  lemma DirectoryIsPlanned(j: Job, q: seq<Path>, i: nat)
    requires j.Checked() && ByDepth(q, j.Directories()) && i < |q|
    ensures q[i] in j.changed && q[i] in j.After() && q[i] != []
  {
    assert q[i] in q;
  }

  /** What is shallower is made already. */
  lemma ShallowerIsMade(j: Job, q: seq<Path>, i: nat)
    requires ByDepth(q, j.Directories()) && i < |q|
    ensures forall x | x in j.Directories() && |x| < |q[i]| :: x in First(q, i)
  {
    forall x | x in j.Directories() && |x| < |q[i]| ensures x in First(q, i) {
      assert x in q;
      var k :| 0 <= k < |q| && q[k] == x;
      assert k < i;
    }
  }

  lemma DirectoryIsReady(j: Job, q: seq<Path>, i: nat, s: Tree)
    requires j.Ready() && j.Between(s) && ByDepth(q, j.Directories()) && i < |q|
    requires j.Near(j.AfterDeletes() + j.Made(First(q, i)), s)
    ensures q[i] != [] && Safe(s, q[i]) && IsDirectory(s, Parent(q[i]))
  {
    AnchoredImpliesNothing(j);
    NearIsSame(j, j.AfterDeletes() + j.Made(First(q, i)), s);
    ShallowerIsMade(j, q, i);
    assert q[i] in q && q[i] in j.Directories();
    hide ByDepth, First, Job.Near, Job.Implied;
    NeededDirectories(j, s, q[i]);
  }

  /** Above a path the worker has, what is missing although every shallower directory is made is
      an implied directory. */
  lemma MissingIsImplied(j: Job, base: Tree, p: Path)
    requires j.Checked() && p in j.changed && p in j.After()
    requires forall x | x in j.Directories() && |x| < |p| :: x in base
    requires forall x | x !in j.changed && x in j.target :: x in base
    ensures forall k | 0 < k < |p| && p[..k] !in base :: p[..k] in j.Implied()
  {
    forall k | 0 < k < |p| && p[..k] !in base ensures p[..k] in j.Implied() {
      var x := p[..k];
      AncestorsAreDirectories(j.worker, p, x);
      assert x in j.changed && x in j.After() ==> x in j.Directories();
    }
  }

  lemma DirectoryMade(j: Job, q: seq<Path>, i: nat, s: Tree, u: Tree)
    requires j.Checked() && ByDepth(q, j.Directories()) && i < |q| && WellFormed(u)
    requires j.Near(j.AfterDeletes() + j.Made(First(q, i)), s)
    requires j.Grown(s, u, q[i], DirectoryAt(s, q[i], j.dirMode))
    ensures j.Near(j.AfterDeletes() + j.Made(First(q, i + 1)), u)
  {
    var p, base := q[i], j.AfterDeletes() + j.Made(First(q, i));
    DirectoryIsPlanned(j, q, i);
    NotYetMade(j, q, i);
    ShallowerIsMade(j, q, i);
    FirstStep(q, i);
    MadeOneMore(j, First(q, i), p);
    var n := DirectoryAt(j.target, p, j.dirMode);
    assert n == DirectoryAt(s, p, j.dirMode) by { NodeIsNear(j, base, s, p); }
    hide ByDepth, First, Job.Near, Job.Grown, WellFormed;
    MissingIsImplied(j, base, p);
    hide *;
    NearGrows(j, base, s, u, p, n);
    OverlayOne(j.AfterDeletes(), j.Made(First(q, i)), p, n);
  }

  /** A directory is made where it was missing, or implied and made already: the same node. */
  lemma NodeIsNear(j: Job, base: Tree, s: Tree, p: Path)
    requires j.Near(base, s) && Find(base, p) == Find(j.target, p)
    ensures DirectoryAt(s, p, j.dirMode) == DirectoryAt(j.target, p, j.dirMode)
  {
    assert j.NearAt(base, s, p);
  }

  lemma NotYetMade(j: Job, q: seq<Path>, i: nat)
    requires ByDepth(q, j.Directories()) && i < |q|
    ensures q[i] !in j.Made(First(q, i))
    ensures Find(j.AfterDeletes(), q[i]) == Find(j.target, q[i])
  {
    assert q[i] in q && q[i] in j.Directories() && q[i] !in j.Deleted();
  }

  lemma MadeOneMore(j: Job, done: set<Path>, p: Path)
    ensures j.Made(done + {p}) ==
              j.Made(done)[p := DirectoryAt(j.target, p, j.dirMode)]
  {
  }

  lemma FileIsPlanned(j: Job, q: seq<Path>, i: nat)
    requires j.Checked() && ByDepth(q, j.Files()) && i < |q|
    ensures q[i] in j.Files() && q[i] in j.changed && q[i] in j.After() && q[i] != []
    ensures q[i] in j.worker && j.worker[q[i]].File?
    ensures q[i] !in First(q, i) && First(q, i) <= j.Files()
  {
    assert q[i] in q;
    forall x | x in First(q, i) ensures x in j.Files() && x != q[i] { assert x in q; }
  }

  lemma FileIsReady(j: Job, q: seq<Path>, i: nat, s: Tree)
    requires j.Ready() && j.Between(s) && ByDepth(q, j.Files()) && i < |q|
    requires j.Near(j.AfterDirectories() + j.Copied(First(q, i)), s)
    ensures q[i] != [] && Safe(s, q[i]) && OpenFor(s, q[i])
  {
    var p := q[i];
    AnchoredImpliesNothing(j);
    NearIsSame(j, j.AfterDirectories() + j.Copied(First(q, i)), s);
    FileIsPlanned(j, q, i);
    hide First, ByDepth, Job.Near, Job.Implied;
    DirectoriesAreMade(j, First(q, i), s);
    NeededDirectories(j, s, p);
    hide Safe;
    FileHasNoChildren(j, First(q, i), p, s);
  }

  lemma DirectoriesAreMade(j: Job, done: set<Path>, s: Tree)
    requires s == j.AfterDirectories() + j.Copied(done) && forall x | x in done :: x in j.Files()
    ensures forall x | x in j.Directories() :: x in s && s[x].Directory?
  {
    forall x | x in j.Directories() ensures x in s && s[x].Directory? {
      assert x !in j.Files();
      assert x in j.Made(j.Directories());
    }
  }

  lemma FileHasNoChildren(j: Job, done: set<Path>, p: Path, s: Tree)
    requires j.Ready() && s == j.AfterDirectories() + j.Copied(done) && p in j.Files() && p !in done
    requires forall x | x in done :: x in j.Files()
    ensures p in s && s[p].Directory? ==> !HasChild(s, p)
  {
    if p in s && s[p].Directory? {
      KeptDirectory(j, done, p, s);
      forall c | c in s && c != [] ensures Parent(c) != p {
        NothingBelowFile(j, p, c);
      }
    }
  }

  lemma KeptDirectory(j: Job, done: set<Path>, p: Path, s: Tree)
    requires j.Ready() && s == j.AfterDirectories() + j.Copied(done) && p in j.Files() && p !in done
    requires p in s && s[p].Directory?
    ensures p in j.target && j.target[p].Directory? && j.OnlyPlannedBelow(p)
  {
    assert p !in j.Directories();
  }

  lemma NothingBelowFile(j: Job, p: Path, c: Path)
    requires j.Ready() && p in j.Files() && c != []
    ensures Parent(c) == p ==> c !in j.worker && c !in j.Directories() && c !in j.Files()
  {
  }

  lemma FileCopied(j: Job, q: seq<Path>, i: nat, s: Tree, u: Tree)
    requires j.Checked() && ByDepth(q, j.Files()) && i < |q| && q[i] in j.worker && WellFormed(u)
    requires j.Near(j.AfterDirectories() + j.Copied(First(q, i)), s) && j.Grown(s, u, q[i], j.worker[q[i]])
    ensures j.Near(j.AfterDirectories() + j.Copied(First(q, i + 1)), u)
  {
    var p, base := q[i], j.AfterDirectories() + j.Copied(First(q, i));
    FileIsPlanned(j, q, i);
    FirstStep(q, i);
    hide ByDepth, First, Job.Near, Job.Grown, WellFormed;
    DirectoriesAreMade(j, First(q, i), base);
    MissingIsImplied(j, base, p);
    hide *;
    NearGrows(j, base, s, u, p, j.worker[p]);
    CopiedOneMore(j, First(q, i), p);
    OverlayOne(j.AfterDirectories(), j.Copied(First(q, i)), p, j.worker[p]);
  }

  lemma ModeIsReady(j: Job, q: seq<Path>, i: nat, s: Tree)
    requires j.Checked() && WellFormed(s) && ByDepth(q, j.Directories()) && i < |q|
    requires j.Near(j.AfterFiles() + j.Copied(Rest(q, i + 1)), s)
    ensures q[i] in j.changed && q[i] != [] && q[i] in j.worker && j.worker[q[i]].Directory?
    ensures q[i] in s && s[q[i]].Directory? && Safe(s, q[i])
    ensures Find(s, q[i]) == Find(j.AfterFiles() + j.Copied(Rest(q, i + 1)), q[i])
  {
    var p, base := q[i], j.AfterFiles() + j.Copied(Rest(q, i + 1));
    assert p in q && p in j.Directories();
    assert p !in j.Files();
    assert p in j.Made(j.Directories());
    assert j.NearAt(base, s, p);
    PresentIsSafe(s, p);
  }

  lemma NearStays(j: Job, base: Tree, s: Tree, p: Path, n: Node)
    requires j.Near(base, s)
    ensures j.Near(base[p := n], s[p := n])
  {
    var over, u := base[p := n], s[p := n];
    forall x ensures j.NearAt(over, u, x) { assert j.NearAt(base, s, x); }
  }

  lemma ModeSet(j: Job, q: seq<Path>, i: nat, s: Tree)
    requires i < |q| && q[i] in j.worker && j.worker[q[i]].Directory?
    requires j.Near(j.AfterFiles() + j.Copied(Rest(q, i + 1)), s)
    requires q[i] in s && s[q[i]].Directory?
    ensures j.Near(j.AfterFiles() + j.Copied(Rest(q, i)), s[q[i] := s[q[i]].(mode := j.worker[q[i]].mode)])
  {
    hide *;
    RestStep(q, i);
    CopiedOneMore(j, Rest(q, i + 1), q[i]);
    OverlayOne(j.AfterFiles(), j.Copied(Rest(q, i + 1)), q[i], j.worker[q[i]]);
    NearStays(j, j.AfterFiles() + j.Copied(Rest(q, i + 1)), s, q[i], j.worker[q[i]]);
  }

  // ----- A promotion that cannot be rolled back -----

  /** The coordinator's directory `d` holds the file `x`, and the file `m` stands beside it. */
  function FullDirectory(d: Path, x: Path, m: Path, mode: nat): Tree {
    map[d := Directory(1), x := File("x", 1), m := File("m", mode)]
  }

  /** The worker has made `d` a file. */
  function Replaced(d: Path, m: Path): Tree { map[d := File("d", 1), m := File("m", 1)] }

  /** At the baseline `m` had mode 1; the coordinator has since given it mode 2. */
  function Baseline(d: Path, x: Path, m: Path): Snapshot { SnapshotOf(FullDirectory(d, x, m, 1)) }

  function FullDirectoryJob(d: Path, x: Path, m: Path, dirMode: nat): Job {
    JobFor(FullDirectory(d, x, m, 2), Replaced(d, m), Baseline(d, x, m), dirMode)
  }

  ghost predicate Inventoried(p: Path) { p != [] && !Ignored(p) && !TaskPacket(p) }

  ghost predicate Placed(d: Path, x: Path, m: Path) {
    && Inventoried(d) && Inventoried(x) && Inventoried(m)
    && Parent(d) == [] && Parent(m) == [] && Parent(x) == d && d != m
  }

  lemma FullDirectoryPlan(d: Path, x: Path, m: Path, dirMode: nat)
    requires Placed(d, x, m)
    ensures var j := FullDirectoryJob(d, x, m, dirMode);
            && j.changed == {d, x} && j.Deleted() == {x} && j.Directories() == {} && j.Files() == {d}
  {
    hide Ignored, TaskPacket, Canonical;
    assert |x| == |d| + 1 && |m| == |d|;
  }

  lemma FullDirectoryTrees(d: Path, x: Path, m: Path, mode: nat)
    requires Placed(d, x, m)
    ensures WellFormed(FullDirectory(d, x, m, mode)) && WellFormed(Replaced(d, m))
  {
    hide Ignored, TaskPacket;
  }

  /** `x` is the only path with a directory above it. */
  lemma FullDirectoryChecks(d: Path, x: Path, m: Path, dirMode: nat)
    requires Placed(d, x, m)
    ensures var j := FullDirectoryJob(d, x, m, dirMode);
            j.SourcesSupported() && j.RemovalsPlanned() && j.PathsSafe() && j.Anchored()
  {
    hide Ignored, TaskPacket, Canonical, ChangedPaths, Job.Deleted, Job.Directories, Job.Files;
    var j := FullDirectoryJob(d, x, m, dirMode);
    assert |x| == |d| + 1 && |m| == |d|;
    FullDirectoryPlan(d, x, m, dirMode);
    FullDirectoryTrees(d, x, m, 2);
    PresentIsSafe(j.target, d);
    PresentIsSafe(j.target, x);
    hide Safe, WellFormed;
    assert j.OnlyPlannedBelow(d);
  }

  lemma FullDirectoryContent(d: Path, x: Path, m: Path)
    requires Placed(d, x, m)
    ensures SameContentOutsideTasks(SnapshotOf(FullDirectory(d, x, m, 2)), Baseline(d, x, m))
    ensures m in Baseline(d, x, m) && m in SnapshotOf(FullDirectory(d, x, m, 2))
    ensures ModeOf(SnapshotOf(FullDirectory(d, x, m, 2))[m]) != ModeOf(Baseline(d, x, m)[m])
  {
    hide Ignored, TaskPacket, Canonical;
    assert |x| == |d| + 1 && |m| == |d|;
  }

  /** Every check before the first change passes, yet the modes of `m` differ and the file to be
      put at `d` bars the way back to `x`. */
  lemma FullDirectoryIsNotRolledBack(d: Path, x: Path, m: Path, dirMode: nat)
    requires Placed(d, x, m)
    ensures var j, before := FullDirectoryJob(d, x, m, dirMode), Baseline(d, x, m);
            && WellFormed(j.target) && WellFormed(j.worker) && j.Anchored()
            && PreChecked(j, before) && !ModesAgree(j, before) && j.ReplacesFullDirectory()
  {
    FullDirectoryPlan(d, x, m, dirMode);
    FullDirectoryTrees(d, x, m, 2);
    FullDirectoryChecks(d, x, m, dirMode);
    FullDirectoryContent(d, x, m);
    assert Under(x, d) && |m| == |d| && m != x;
    hide Ignored, SnapshotOf, ChangedPaths, Job.Deleted, Job.Directories, Job.Files, Job.SourcesSupported,
         Job.RemovalsPlanned, Job.PathsSafe, Job.Anchored, WellFormed, SameContentOutsideTasks, ModeOf;
  }

  lemma LettersAreInventoried(p: Path)
    requires p == ["d"] || p == ["d", "x"] || p == ["m"]
    ensures Inventoried(p)
  {
    assert |p[0]| == 1 && |p[|p| - 1]| == 1;
    assert CodexIndex(p) == |p| by {
      assert p[1..] == [] || p[1..] == ["x"];
    }
    forall i | 0 <= i < |p| ensures p[i] !in IGNORED_LOCAL_DIRS {
      assert |p[i]| == 1;
    }
  }

  lemma LettersArePlaced()
    ensures Placed(["d"], ["d", "x"], ["m"])
  {
    LettersAreInventoried(["d"]);
    LettersAreInventoried(["d", "x"]);
    LettersAreInventoried(["m"]);
    hide Inventoried;
    assert Parent(["d"]) == [] && Parent(["m"]) == [] && Parent(["d", "x"]) == ["d"];
    assert ["d"][0] != ["m"][0];
  }

  lemma SubtreePattern()
    ensures PureParts("d/**") == ["d", "**"] && Split(StripSlashes("d/**"[..1])) == ["d"]
  {
    SplitSlashFree("d");
    SplitSlashFree("**");
    SplitAtSlash("d", "**");
    assert "d" + "/" + "**" == "d/**";
    assert Split("d/**") == ["d", "**"];
    KeptSegments(["d", "**"]);
    assert "d/**"[..1] == "d";
    assert StripSlashes("d") == "d";
  }

  lemma SubtreeIsAllowed(p: Path, directory: bool)
    requires p == ["d"] || p == ["d", "x"]
    ensures Allowed(["d/**"], p, directory)
  {
    SubtreePattern();
    assert "d/**"[1..] == "/**";
    assert "d/**"[0] == 'd' && "**"[0] == '*';
    assert Covers("d/**", p, directory);
    PatternsMeanSegments(p, "d/**", directory);
    assert ["d/**"][0] == "d/**";
  }

  lemma FullDirectoryIsInScope(dirMode: nat)
    ensures var j := FullDirectoryJob(["d"], ["d", "x"], ["m"], dirMode);
            OutOfScope(j, Baseline(["d"], ["d", "x"], ["m"]), ["d/**"], ["t"]) == {}
  {
    var d, x, m := ["d"], ["d", "x"], ["m"];
    var j, before := FullDirectoryJob(d, x, m, dirMode), Baseline(d, x, m);
    LettersArePlaced();
    FullDirectoryPlan(d, x, m, dirMode);
    assert d[0] != ["t"][0] && x[0] != ["t"][0];
    SubtreeIsAllowed(d, IsDirectoryEntry(j, before, d));
    SubtreeIsAllowed(x, IsDirectoryEntry(j, before, x));
    hide Placed, FullDirectoryJob, Baseline, Allowed, IsDirectoryEntry;
  }

  /** Promoting such a worker: unless a system call fails, the run ends with the failed rollback. */
  method PromoteOverFullDirectory(checkout: Checkout) returns (v: Verdict)
    requires checkout.tree == FullDirectory(["d"], ["d", "x"], ["m"], 2)
    modifies checkout
    ensures checkout.faults == old(checkout.faults) ==> v == RollbackFailed
  {
    LettersArePlaced();
    FullDirectoryIsNotRolledBack(["d"], ["d", "x"], ["m"], checkout.dirMode);
    FullDirectoryIsInScope(checkout.dirMode);
    hide *;
    v := checkout.Promote(Replaced(["d"], ["m"]), Baseline(["d"], ["d", "x"], ["m"]), ["d/**"], ["t"]);
  }
}
