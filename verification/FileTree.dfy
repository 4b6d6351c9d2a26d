/** A file tree and the system calls that change it, each of which the system may refuse. */
module FileTree {
  import opened Common

  /** Segments below the root; the root itself is the empty path and not in the tree. */
  type Path = seq<string>

  datatype Node = File(bytes: string, mode: nat) | Directory(mode: nat) | Symlink(target: string)

  type Tree = map<Path, Node>

  function Parent(p: Path): Path
    requires p != []
  {
    p[..|p| - 1]
  }

  /** `p` lies strictly below `q`. */
  predicate Under(p: Path, q: Path) { q < p }

  predicate IsDirectory(t: Tree, p: Path) {
    p == [] || (p in t && t[p].Directory?)
  }

  /** Every path hangs from a directory. */
  ghost predicate WellFormed(t: Tree) {
    forall p | p in t :: p != [] && IsDirectory(t, Parent(p))
  }

  lemma {:induction false} AncestorsAreDirectories(t: Tree, p: Path, q: Path)
    requires WellFormed(t) && p in t && Under(p, q)
    ensures IsDirectory(t, q)
    decreases |p|
  {
    if |q| == |p| - 1 {
      assert q == Parent(p);
    } else {
      assert Parent(p) in t;
      AncestorsAreDirectories(t, Parent(p), q);
    }
  }

  /** No directory on the way to `p` is a symbolic link: `_safe_target` accepts the path. */
  predicate Safe(t: Tree, p: Path) {
    forall k | 0 < k < |p| :: !(p[..k] in t && t[p[..k]].Symlink?)
  }

  lemma PresentIsSafe(t: Tree, p: Path)
    requires WellFormed(t) && p in t
    ensures Safe(t, p)
  {
    forall k | 0 < k < |p| ensures !(p[..k] in t && t[p[..k]].Symlink?) {
      AncestorsAreDirectories(t, p, p[..k]);
    }
  }

  predicate HasChild(t: Tree, p: Path) {
    exists c :: c in t && c != [] && Parent(c) == p
  }

  // ----- System calls -----

  datatype Op =
    | Unlink(path: Path)
    | Rmdir(path: Path)
    | Mkdir(path: Path, mode: nat)
    | Write(path: Path, bytes: string, mode: nat)  // a new file gets `mode`, an old one keeps its own
    | Chmod(path: Path, mode: nat)
    | MakeLink(path: Path, target: string)

  function Effect(t: Tree, op: Op): Option<Tree> {
    var p := op.path;
    if p == [] then None else
    match op
    case Unlink(_) => if p in t && !t[p].Directory? then Some(t - {p}) else None
    case Rmdir(_) => if p in t && t[p].Directory? && !HasChild(t, p) then Some(t - {p}) else None
    case Mkdir(_, mode) => if p !in t && IsDirectory(t, Parent(p)) then Some(t[p := Directory(mode)]) else None
    case Write(_, bytes, mode) =>
      if !IsDirectory(t, Parent(p)) then None
      else if p !in t then Some(t[p := File(bytes, mode)])
      else if t[p].File? then Some(t[p := File(bytes, t[p].mode)])
      else None
    case Chmod(_, mode) =>
      if p !in t || t[p].Symlink? then None else Some(t[p := t[p].(mode := mode)])
    case MakeLink(_, target) =>
      if p !in t && IsDirectory(t, Parent(p)) then Some(t[p := Symlink(target)]) else None
  }

  /** A system call keeps the tree well formed and changes nothing but its own path. */
  lemma EffectIsLocal(t: Tree, op: Op)
    requires WellFormed(t) && Effect(t, op).Some?
    ensures var u := Effect(t, op).value;
            WellFormed(u) && forall p | p != op.path :: (p in u <==> p in t) && (p in t ==> u[p] == t[p])
  {
    var u := Effect(t, op).value;
    forall p | p in u ensures p != [] && IsDirectory(u, Parent(p)) {
      if p in t { assert IsDirectory(t, Parent(p)); }
      if p in t && Parent(p) == op.path && !IsDirectory(u, Parent(p)) {
        assert HasChild(t, op.path);
      }
    }
  }
}
