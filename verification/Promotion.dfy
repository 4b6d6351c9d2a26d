/**
 Promotion of a worker's tree into the coordinator's checkout: what the pre-checks
 establish, which tree the apply passes must build, and which states rollback may meet.
 */
module Promotion {
  import opened Common
  import opened FileTree
  import opened Inventory

  // ----- A planned promotion -----

  /** The coordinator's tree, the worker's tree, the paths to change, and the mode `mkdir` gives. */
  datatype Job = Job(target: Tree, worker: Tree, changed: set<Path>, dirMode: nat) {

    function After(): Snapshot { SnapshotOf(worker) }

    function Deleted(): set<Path> { set p | p in changed && p !in After() }

    function Directories(): set<Path> { set p | p in changed && p in After() && After()[p].DirectoryEntry? }

    function Files(): set<Path> { set p | p in changed && p in After() && After()[p].FileEntry? }

    /** `_validate_source_entries`: only directories and regular files are promoted. */
    predicate SourcesSupported() {
      forall p | p in changed && p in After() :: !After()[p].SymlinkEntry?
    }

    /** Everything the coordinator has below `p` is planned for deletion. */
    predicate OnlyPlannedBelow(p: Path) {
      forall q | q in target && Under(q, p) :: q in Deleted()
    }

    /** `_validate_removal_targets`: no directory is removed or replaced by a file together with
        content the plan does not delete. */
    predicate RemovalsPlanned() {
      forall p | p in Deleted() + Files() ::
        Safe(target, p) && (p in target && target[p].Directory? ==> OnlyPlannedBelow(p))
    }

    predicate PathsSafe() {
      forall p | p in changed :: p != [] && Safe(target, p)
    }

    /** The directories a changed path needs are changed with it or already there. */
    predicate Anchored() {
      forall p, k | p in changed && p in After() && 0 < k < |p| ::
        if p[..k] in changed then p[..k] in After() else IsDirectory(target, p[..k])
    }

    /** What the pre-checks establish. */
    ghost predicate Checked() {
      WellFormed(target) && WellFormed(worker) && SourcesSupported() && RemovalsPlanned() && PathsSafe()
    }

    ghost predicate Ready() { Checked() && Anchored() }

    /** Directories made on the way to a changed path of the worker although they are not in its
        inventory: neither changed nor the coordinator's, or planned for deletion. */
    function Implied(): set<Path> {
      set p, k | p in changed && p in After() && 0 < k < |p| &&
                 (if p[..k] in changed then p[..k] !in After() else p[..k] !in target) :: p[..k]
    }

    /** At `p` the tree is `base`, but for an implied directory, newly made. */
    ghost predicate NearAt(base: Tree, s: Tree, p: Path) {
      Find(s, p) == Find(base, p) || (p in Implied() && p !in base && Find(s, p) == Some(Directory(dirMode)))
    }

    ghost predicate Near(base: Tree, s: Tree) {
      forall p :: NearAt(base, s, p)
    }

    /** `u` is `s` with a node at `p`, and directories newly made where the way to it had none. */
    ghost predicate Grown(s: Tree, u: Tree, p: Path, n: Node) {
      && Find(u, p) == Some(n)
      && (forall x | x in s && x != p :: x in u && u[x] == s[x])
      && (forall x | x in u && x !in s && x != p :: Under(p, x) && u[x] == Directory(dirMode))
    }

    /** Nothing outside the changed set is lost or altered, and nothing but implied directories is new. */
    ghost predicate Framed(s: Tree) {
      WellFormed(s) && forall p | p !in changed :: NearAt(target, s, p)
    }

    // ----- The passes -----

    function AfterDeletes(): Tree { target - Deleted() }

    /** The directories among `done`, made or found. */
    function Made(done: set<Path>): Tree {
      map p | p in done :: if p in target && target[p].Directory? then target[p] else Directory(dirMode)
    }

    function Copied(done: set<Path>): Tree { map p | p in done && p in worker :: worker[p] }

    function AfterDirectories(): Tree { AfterDeletes() + Made(Directories()) }

    function AfterFiles(): Tree { AfterDirectories() + Copied(Files()) }

    /** The coordinator's tree with the changed paths taken from the worker. */
    function Promoted(): Tree {
      map p | p in target.Keys + worker.Keys && (if p in changed then p in After() else p in target) ::
        if p in changed then worker[p] else target[p]
    }

    // ----- States the passes may stop in -----

    /** Nothing outside the changed set has moved, no symbolic link is new, and files are only
        where the coordinator had no directory or the worker has a file. */
    ghost predicate Between(s: Tree) {
      && WellFormed(s)
      && (forall p | p !in changed :: Find(s, p) == Find(target, p))
      && (forall p | p in s && s[p].Symlink? :: Find(s, p) == Find(target, p))
      && (forall p | p in s && !s[p].Directory? :: p in Files() || (p in target && !target[p].Directory?))
    }

    /** A path to restore lies below something that is no longer a directory. */
    ghost predicate Blocked(s: Tree) {
      exists p, q :: p in changed && p in target && Under(p, q) && q in s && !s[q].Directory?
    }

    /** A directory of the coordinator with changed content is replaced by a file. */
    ghost predicate ReplacesFullDirectory() {
      exists p, q :: p in changed && p in target && q in Files() && Under(p, q)
    }
  }

  /** With every changed path anchored no directory is implied. */
  lemma AnchoredImpliesNothing(j: Job)
    requires j.Anchored()
    ensures j.Implied() == {}
  {
  }

  /** Without implied directories, near means equal. */
  lemma NearIsSame(j: Job, base: Tree, s: Tree)
    requires j.Implied() == {} && j.Near(base, s)
    ensures s == base
  {
    forall p ensures Find(s, p) == Find(base, p) { assert j.NearAt(base, s, p); }
    SameTree(s, base);
  }

  lemma SameIsNear(j: Job, s: Tree)
    ensures j.Near(s, s)
  {
  }

  lemma BetweenIsFramed(j: Job, s: Tree)
    requires j.Between(s)
    ensures j.Framed(s)
  {
  }

  /** Changing changed paths only keeps the frame. */
  lemma FrameKept(j: Job, s: Tree, u: Tree)
    requires j.Framed(s) && WellFormed(u) && forall p | p !in j.changed :: Find(u, p) == Find(s, p)
    ensures j.Framed(u)
  {
    forall p | p !in j.changed ensures j.NearAt(j.target, u, p) { assert j.NearAt(j.target, s, p); }
  }

  /** So does making directories on the way to a changed path of the worker. */
  lemma FrameGrows(j: Job, s: Tree, u: Tree, p: Path)
    requires j.Framed(s) && WellFormed(u) && p in j.changed && p in j.After()
    requires forall q | q in s :: q in u && u[q] == s[q]
    requires forall q | q in u && q !in s :: q <= p && u[q] == Directory(j.dirMode)
    ensures j.Framed(u)
  {
    forall q | q !in j.changed ensures j.NearAt(j.target, u, q) {
      assert j.NearAt(j.target, s, q);
      assert |q| == |p| && q <= p ==> q == p;
      if q in u && q !in s {
        assert q == p[..|q|] && q != [];
      }
    }
  }

  /** Where the way to `p` lacks only implied directories, growing `p` stays near. */
  lemma NearGrows(j: Job, base: Tree, s: Tree, u: Tree, p: Path, n: Node)
    requires j.Near(base, s) && WellFormed(u) && j.Grown(s, u, p, n)
    requires forall k | 0 < k < |p| && p[..k] !in base :: p[..k] in j.Implied()
    ensures j.Near(base[p := n], u)
  {
    hide Job.Implied;
    var over := base[p := n];
    forall x ensures j.NearAt(over, u, x) {
      assert j.NearAt(base, s, x);
      if x != p && x in u && x !in s {
        assert x != [] && x == p[..|x|];
      }
    }
  }

  lemma StartIsBetween(j: Job)
    requires WellFormed(j.target)
    ensures j.Between(j.target)
  {
  }

  /** One system call on a changed path keeps the state recoverable. */
  lemma CallKeepsBetween(j: Job, s: Tree, op: Op)
    requires j.Between(s) && op.path in j.changed && !op.MakeLink? && Effect(s, op).Some?
    requires op.Write? ==> op.path in j.Files()
    ensures j.Between(Effect(s, op).value)
  {
    EffectIsLocal(s, op);
    var u := Effect(s, op).value;
    forall p | p !in j.changed ensures Find(u, p) == Find(j.target, p) {
      assert Find(s, p) == Find(j.target, p);
    }
    forall p | p in u && u[p].Symlink? ensures Find(u, p) == Find(j.target, p) {
      assert p in s && s[p] == u[p];
    }
  }

  /** The last pass builds exactly the promoted tree. */
  lemma PassesBuildPromoted(j: Job)
    requires j.Checked()
    ensures j.AfterFiles() + j.Copied(j.Directories()) == j.Promoted()
  {
    var built := j.AfterFiles() + j.Copied(j.Directories());
    forall p ensures Find(built, p) == Find(j.Promoted(), p) { BuiltAt(j, p); }
    SameTree(built, j.Promoted());
  }

  lemma SameTree(a: Tree, b: Tree)
    requires forall p :: Find(a, p) == Find(b, p)
    ensures a == b
  {
    forall p ensures p in a <==> p in b { assert Find(a, p) == Find(b, p); }
    forall p | p in a ensures a[p] == b[p] { assert Find(a, p) == Find(b, p); }
    assert a.Keys == b.Keys;
  }

  lemma BuiltAt(j: Job, p: Path)
    requires j.Checked()
    ensures Find(j.AfterFiles() + j.Copied(j.Directories()), p) == Find(j.Promoted(), p)
  {
    if p in j.changed {
      assert p in j.After() ==> p in j.Files() || p in j.Directories();
    } else {
      assert p !in j.Files() && p !in j.Directories() && p !in j.Deleted();
    }
  }

  // ----- What a promotion achieves -----

  /** The mode of an entry that has one. */
  function ModeOf(e: Entry): nat {
    if e.SymlinkEntry? then 0 else e.mode
  }

  /** Unchanged paths outside all task packets have the baseline's modes. */
  ghost predicate ModesAgree(j: Job, before: Snapshot) {
    forall p | p in before && p in SnapshotOf(j.target) && p !in j.changed && !TaskPacket(p) ::
      ModeOf(SnapshotOf(j.target)[p]) == ModeOf(before[p])
  }

  /** With the coordinator's content at the baseline, the final comparison of the promoted tree
      with the worker's result succeeds exactly when modes agree on unchanged paths. */
  lemma FinalCheckMeansModesAgree(j: Job, before: Snapshot)
    requires j.changed == ChangedPaths(before, j.After())
    requires SameContentOutsideTasks(SnapshotOf(j.target), before)
    ensures SameOutsideTasks(SnapshotOf(j.Promoted()), j.After()) <==> ModesAgree(j, before)
  {
    var now, after, was := SnapshotOf(j.Promoted()), j.After(), SnapshotOf(j.target);
    forall p | !TaskPacket(p)
      ensures SameEntry(now, after, p) <==>
                (p !in j.changed && p in before && p in was ==> ModeOf(was[p]) == ModeOf(before[p]))
    {
      UnchangedEntry(j, before, p);
    }
    if SameOutsideTasks(now, after) {
      forall p | p in before && p in was && p !in j.changed && !TaskPacket(p)
        ensures ModeOf(was[p]) == ModeOf(before[p])
      {
        assert p in now.Keys + after.Keys by { NotChanged(before, after, p); }
        assert SameEntry(now, after, p);
      }
    }
  }

  lemma NotChanged(before: Snapshot, after: Snapshot, p: Path)
    requires p !in ChangedPaths(before, after)
    ensures Find(before, p) == Find(after, p)
  {
  }

  lemma UnchangedEntry(j: Job, before: Snapshot, p: Path)
    requires j.changed == ChangedPaths(before, j.After()) && !TaskPacket(p)
    requires SameContentOutsideTasks(SnapshotOf(j.target), before)
    ensures var now, was := SnapshotOf(j.Promoted()), SnapshotOf(j.target);
            SameEntry(now, j.After(), p) <==>
              (p !in j.changed && p in before && p in was ==> ModeOf(was[p]) == ModeOf(before[p]))
  {
    var now, was := SnapshotOf(j.Promoted()), SnapshotOf(j.target);
    if p in j.changed {
      assert SameEntry(now, j.After(), p);
    } else {
      NotChanged(before, j.After(), p);
      assert Find(now, p) == Find(was, p);
      assert p in was || p in before ==> SameContentAt(was, before, p);
    }
  }

  /** Outside the changed set the promoted tree is the coordinator's own, ignored and untracked
      files included. */
  lemma PromotedFrame(j: Job, p: Path)
    requires p !in j.changed
    ensures Find(j.Promoted(), p) == Find(j.target, p)
  {
  }

  /** The anchoring of changed paths follows from the content check when the worker's inventory
      has every parent and no task packet changes. */
  lemma {:induction false} ContentCheckAnchors(j: Job, before: Snapshot)
    requires WellFormed(j.target) && WellFormed(j.worker) && ParentClosed(j.After())
    requires j.changed == ChangedPaths(before, j.After())
    requires SameContentOutsideTasks(SnapshotOf(j.target), before)
    requires forall p | p in j.changed :: !TaskPacket(p)
    ensures j.Anchored()
  {
    forall p, k | p in j.changed && p in j.After() && 0 < k < |p|
      ensures if p[..k] in j.changed then p[..k] in j.After() else IsDirectory(j.target, p[..k])
    {
      PrefixInventoried(j.After(), p, k);
      assert TaskPacket(p[..k]) ==> TaskPacket(p);
      if p[..k] !in j.changed {
        UnchangedDirectory(j, before, p[..k]);
      }
    }
  }

  lemma UnchangedDirectory(j: Job, before: Snapshot, q: Path)
    requires j.changed == ChangedPaths(before, j.After()) && q !in j.changed && !TaskPacket(q)
    requires SameContentOutsideTasks(SnapshotOf(j.target), before)
    requires q in j.After() && j.After()[q].DirectoryEntry?
    ensures IsDirectory(j.target, q)
  {
    NotChanged(before, j.After(), q);
    assert SameContentAt(SnapshotOf(j.target), before, q);
  }

  lemma {:induction false} PrefixInventoried(s: Snapshot, p: Path, k: nat)
    requires ParentClosed(s) && p in s && 0 < k < |p|
    ensures p[..k] in s && s[p[..k]].DirectoryEntry?
    decreases |p|
  {
    if k == |p| - 1 {
      assert p[..k] == Parent(p);
    } else {
      PrefixInventoried(s, Parent(p), k);
      assert Parent(p)[..k] == p[..k];
    }
  }

  // ----- Rollback -----

  /** From every state the passes can stop in, rollback is blocked only if a directory with
      changed content is being replaced by a file. */
  lemma BlockedOnlyByReplacement(j: Job, s: Tree)
    requires WellFormed(j.target) && j.Between(s) && j.Blocked(s)
    ensures j.ReplacesFullDirectory()
  {
    var p, q :| p in j.changed && p in j.target && Under(p, q) && q in s && !s[q].Directory?;
    AncestorsAreDirectories(j.target, p, q);
  }

  /** When such a replacement is planned, the promoted tree itself is a state rollback cannot
      leave. */
  lemma ReplacementBlocksRollback(j: Job)
    requires j.Ready() && j.ReplacesFullDirectory()
    ensures j.Blocked(j.Promoted())
  {
    var p, q :| p in j.changed && p in j.target && q in j.Files() && Under(p, q);
    assert q in j.Promoted() && j.Promoted()[q].File?;
  }
}
