/** Rollback: the state it works on, path by path, deepest first. */
module Rollback {
  import opened Common
  import opened FileTree
  import opened Inventory
  import opened Promotion

  /** Everything above `p` that rollback finds in the stopped state `s` is a directory. */
  ghost predicate Open(s: Tree, p: Path) {
    forall a | a in s && Under(p, a) :: s[a].Directory?
  }

  /** A path not yet restored is as the passes left it, or a directory made again on the way to
      something below it. */
  predicate Untouched(j: Job, s: Tree, t: Tree, x: Path) {
    || Find(t, x) == Find(s, x)
    || (x !in s && x in j.target && j.target[x].Directory? && x in t && t[x].Directory?)
  }

  /** `t` is what rollback has made of the stopped state `s` when the paths `done` are restored
      and `busy` is being worked on. */
  ghost predicate Restoring(j: Job, s: Tree, done: set<Path>, busy: set<Path>, t: Tree) {
    && WellFormed(t)
    && (forall x | x !in j.changed :: Find(t, x) == Find(j.target, x))
    && (forall x | x in done :: Find(t, x) == Find(j.target, x))
    && (forall x | x in j.changed - done - busy :: Untouched(j, s, t, x))
    && (forall x | x in done && x in j.target :: Open(s, x))
  }

  /** `p` is the next path: everything deeper is restored, nothing shallower is. */
  ghost predicate Next(j: Job, done: set<Path>, p: Path) {
    && p in j.changed && p !in done && done <= j.changed
    && (forall x | x in j.changed && |x| > |p| :: x in done)
    && (forall x | x in done :: |x| >= |p|)
  }

  ghost predicate Context(j: Job, s: Tree) {
    WellFormed(j.target) && j.PathsSafe() && j.Between(s)
  }

  lemma RestoringStarts(j: Job, s: Tree)
    requires Context(j, s)
    ensures Restoring(j, s, {}, {}, s)
  {
  }

  lemma RestoringEnds(j: Job, s: Tree, t: Tree)
    requires Context(j, s) && Restoring(j, s, j.changed, {}, t)
    ensures t == j.target && !j.Blocked(s)
  {
    forall x ensures Find(t, x) == Find(j.target, x) { }
    SameTree(t, j.target);
    forall p, q | p in j.changed && p in j.target && Under(p, q) && q in s ensures s[q].Directory? {
      assert Open(s, p);
    }
  }

  lemma NextIsSafe(j: Job, s: Tree, done: set<Path>, t: Tree, p: Path)
    requires Context(j, s) && Restoring(j, s, done, {}, t) && Next(j, done, p)
    ensures p != [] && Safe(t, p)
  {
    forall k | 0 < k < |p| ensures !(p[..k] in t && t[p[..k]].Symlink?) {
      var a := p[..k];
      assert !(a in j.target && j.target[a].Symlink?);
      if a in j.changed {
        assert a !in done;
        assert Untouched(j, s, t, a);
      } else {
        assert Find(t, a) == Find(j.target, a);
      }
    }
  }

  /** Where the coordinator had no directory, nothing is left below by the time it is restored. */
  lemma NothingLeftBelow(j: Job, s: Tree, done: set<Path>, t: Tree, p: Path)
    requires Context(j, s) && Restoring(j, s, done, {}, t) && Next(j, done, p)
    requires !IsDirectory(j.target, p)
    ensures !HasChild(t, p)
  {
    forall c | c in t && c != [] ensures Parent(c) != p {
      assert c !in j.changed || |c| > |p| ==> Find(t, c) == Find(j.target, c);
    }
  }

  /** Changing `p` alone keeps the rest of the rollback's account. */
  lemma TouchOnly(j: Job, s: Tree, done: set<Path>, busy: set<Path>, t: Tree, u: Tree, p: Path)
    requires Restoring(j, s, done, busy, t) && busy <= {p} && p in j.changed && p !in done
    requires WellFormed(u) && forall x | x != p :: Find(u, x) == Find(t, x)
    ensures Restoring(j, s, done, {p}, u)
  {
    forall x | x in j.changed - done - {p} ensures Untouched(j, s, u, x) {
      assert Untouched(j, s, t, x);
    }
  }

  /** A directory missing above a path of the coordinator is one it had and the passes removed. */
  lemma MissingParent(j: Job, s: Tree, done: set<Path>, t: Tree, p: Path, q: Path)
    requires Context(j, s) && Restoring(j, s, done, {p}, t) && Next(j, done, p) && p in j.target
    requires q != [] && Under(p, q) && q !in t
    ensures q in j.changed && q !in done && q !in s && q in j.target && j.target[q].Directory?
  {
    AncestorsAreDirectories(j.target, p, q);
    assert Find(t, q) != Find(j.target, q);
    assert Untouched(j, s, t, q);
  }

  /** Directories made again above a path of the coordinator are ones it had. */
  lemma ParentsMade(j: Job, s: Tree, done: set<Path>, t: Tree, u: Tree, p: Path)
    requires Context(j, s) && Restoring(j, s, done, {p}, t) && Next(j, done, p) && p in j.target
    requires WellFormed(u)
    requires forall q | q in t :: q in u && u[q] == t[q]
    requires forall q | q in u && q !in t :: q <= Parent(p) && u[q].Directory?
    ensures Restoring(j, s, done, {p}, u) && Find(u, p) == Find(t, p)
  {
    forall q | q in u && q !in t
      ensures q in j.changed && q !in done && q !in s && q in j.target && j.target[q].Directory?
    {
      assert Under(p, q);
      MissingParent(j, s, done, t, p, q);
    }
    hide *;
    GrowthKeeps(j, s, done, t, u, p);
    assert p in u ==> p in t;
    SameNode(t, u, p);
  }

  lemma SameNode(t: Tree, u: Tree, p: Path)
    requires p in u <==> p in t
    requires p in t ==> u[p] == t[p]
    ensures Find(u, p) == Find(t, p)
  {
  }

  lemma GrowthKeeps(j: Job, s: Tree, done: set<Path>, t: Tree, u: Tree, p: Path)
    requires Restoring(j, s, done, {p}, t) && WellFormed(u)
    requires forall q | q in t :: q in u && u[q] == t[q]
    requires forall q | q in u && q !in t ::
               q in j.changed && q !in done && q !in s && q in j.target && j.target[q].Directory? && u[q].Directory?
    ensures Restoring(j, s, done, {p}, u)
  {
    hide Open, WellFormed;
    forall x | x in t || x !in u ensures Find(u, x) == Find(t, x) { }
    forall x | x in j.changed - done - {p} ensures Untouched(j, s, u, x) {
      assert Untouched(j, s, t, x);
    }
  }

  /** If the way to a path of the coordinator is barred, it was barred in the stopped state. */
  lemma BarredMeansBlocked(j: Job, s: Tree, done: set<Path>, t: Tree, p: Path, q: Path)
    requires Context(j, s) && Restoring(j, s, done, {p}, t) && Next(j, done, p) && p in j.target
    requires q <= Parent(p) && q in t && !t[q].Directory?
    ensures j.Blocked(s)
  {
    assert q != [];
    assert Under(p, q);
    AncestorsAreDirectories(j.target, p, q);
    assert Find(t, q) != Find(j.target, q);
    assert Untouched(j, s, t, q);
  }

  /** A path whose node is the coordinator's again counts as restored. */
  lemma PathRestored(j: Job, s: Tree, done: set<Path>, t: Tree, p: Path)
    requires Context(j, s) && Restoring(j, s, done, {p}, t) && Next(j, done, p)
    requires Find(t, p) == Find(j.target, p)
    ensures Restoring(j, s, done + {p}, {}, t)
  {
    if p in j.target {
      forall a | a in s && Under(p, a) ensures s[a].Directory? {
        assert p in t;
        AncestorsAreDirectories(t, p, a);
        AncestorsAreDirectories(j.target, p, a);
        if a in j.changed { assert Untouched(j, s, t, a); }
      }
      assert Open(s, p);
    }
    forall x | x in j.changed - (done + {p}) - {} ensures Untouched(j, s, t, x) {
      assert x in j.changed - done - {p};
    }
  }

  // ----- Rollback that may fail on the way -----

  /** What holds of a rollback wherever it stops: it has moved nothing outside the changed set, and
      the paths `done` are restored. */
  ghost predicate Reverting(j: Job, s: Tree, done: set<Path>, t: Tree) {
    && WellFormed(t)
    && (forall x | x !in j.changed :: Find(t, x) == Find(s, x))
    && (forall x | x in done :: Find(t, x) == Find(j.target, x))
  }

  ghost predicate Revertible(j: Job, s: Tree) { WellFormed(j.target) && j.PathsSafe() && j.Framed(s) }

  /** The account of a rollback; the full one where no directory was implied. */
  ghost predicate Progress(j: Job, s: Tree, done: set<Path>, busy: set<Path>, t: Tree) {
    Reverting(j, s, done, t) && (j.Between(s) ==> Restoring(j, s, done, busy, t))
  }

  lemma ProgressIsWellFormed(j: Job, s: Tree, done: set<Path>, busy: set<Path>, t: Tree)
    requires Progress(j, s, done, busy, t)
    ensures WellFormed(t) && Reverting(j, s, done, t)
  {
  }

  lemma ProgressStarts(j: Job, s: Tree)
    requires Revertible(j, s)
    ensures Progress(j, s, {}, {}, s)
  {
    if j.Between(s) { RestoringStarts(j, s); }
  }

  lemma ProgressEnds(j: Job, s: Tree, t: Tree)
    requires Revertible(j, s) && Progress(j, s, j.changed, {}, t)
    ensures WellFormed(t) && forall x :: Find(t, x) == if x in j.changed then Find(j.target, x) else Find(s, x)
    ensures j.Between(s) ==> t == j.target && !j.Blocked(s)
  {
    if j.Between(s) { RestoringEnds(j, s, t); }
  }

  lemma ProgressIsSafe(j: Job, s: Tree, done: set<Path>, t: Tree, p: Path)
    requires Revertible(j, s) && Progress(j, s, done, {}, t) && Next(j, done, p)
    ensures j.Between(s) ==> Safe(t, p)
    ensures j.Between(s) && !IsDirectory(j.target, p) ==> !HasChild(t, p)
  {
    if j.Between(s) {
      NextIsSafe(j, s, done, t, p);
      if !IsDirectory(j.target, p) { NothingLeftBelow(j, s, done, t, p); }
    }
  }

  lemma RevertingTouch(j: Job, s: Tree, done: set<Path>, t: Tree, u: Tree, p: Path)
    requires Reverting(j, s, done, t) && p in j.changed && p !in done
    requires WellFormed(u) && forall x | x != p :: Find(u, x) == Find(t, x)
    ensures Reverting(j, s, done, u)
  {
  }

  lemma ProgressTouch(j: Job, s: Tree, done: set<Path>, busy: set<Path>, t: Tree, u: Tree, p: Path)
    requires Progress(j, s, done, busy, t) && busy <= {p} && p in j.changed && p !in done
    requires WellFormed(u) && forall x | x != p :: Find(u, x) == Find(t, x)
    ensures Progress(j, s, done, {p}, u)
  {
    hide Reverting, Restoring, WellFormed, Job.Between;
    RevertingTouch(j, s, done, t, u, p);
    if j.Between(s) { TouchOnly(j, s, done, busy, t, u, p); }
  }

  lemma RevertingParents(j: Job, s: Tree, done: set<Path>, t: Tree, u: Tree, p: Path)
    requires Revertible(j, s) && Reverting(j, s, done, t) && Next(j, done, p) && p in j.target && WellFormed(u)
    requires forall q | q in t :: q in u && u[q] == t[q]
    requires forall q | q in u && q !in t :: q <= Parent(p)
    ensures Reverting(j, s, done, u)
  {
    forall q | q in u && q !in t ensures q in j.changed && q !in done {
      assert Under(p, q);
      AncestorsAreDirectories(j.target, p, q);
      assert q !in j.changed ==> j.NearAt(j.target, s, q) && Find(t, q) == Find(s, q);
    }
    forall q | q !in j.changed ensures Find(u, q) == Find(s, q) { assert Find(t, q) == Find(s, q); }
  }

  lemma ProgressParents(j: Job, s: Tree, done: set<Path>, t: Tree, u: Tree, p: Path)
    requires Revertible(j, s) && Progress(j, s, done, {p}, t) && Next(j, done, p) && p in j.target && WellFormed(u)
    requires forall q | q in t :: q in u && u[q] == t[q]
    requires forall q | q in u && q !in t :: q <= Parent(p) && u[q].Directory?
    ensures Progress(j, s, done, {p}, u) && Find(u, p) == Find(t, p)
  {
    assert |Parent(p)| < |p|;
    assert p in u ==> p in t;
    hide Reverting, Restoring, WellFormed, Job.Between, Next;
    RevertingParents(j, s, done, t, u, p);
    if j.Between(s) { ParentsMade(j, s, done, t, u, p); }
  }

  lemma ProgressBarred(j: Job, s: Tree, done: set<Path>, t: Tree, p: Path, q: Path)
    requires Revertible(j, s) && Progress(j, s, done, {p}, t) && Next(j, done, p) && p in j.target
    requires q <= Parent(p) && q in t && !t[q].Directory?
    ensures j.Between(s) ==> j.Blocked(s)
  {
    if j.Between(s) { BarredMeansBlocked(j, s, done, t, p, q); }
  }

  lemma ProgressRestored(j: Job, s: Tree, done: set<Path>, t: Tree, p: Path)
    requires Revertible(j, s) && Progress(j, s, done, {p}, t) && Next(j, done, p)
    requires Find(t, p) == Find(j.target, p)
    ensures Progress(j, s, done + {p}, {}, t)
  {
    if j.Between(s) { PathRestored(j, s, done, t, p); }
  }
}
