/** Inventories of a checkout: what a snapshot records and how two snapshots are compared. */
module Inventory {
  import opened Common
  import opened FileTree

  const IGNORED_LOCAL_DIRS: set<string> :=
    {".git", ".token-saver", "graphify-out", "__pycache__", ".mypy_cache", ".ruff_cache", ".pytest_cache"}
  const IGNORED_CODEX_DIRS: set<string> := {"checkpoints", "worker-smoke"}
  const IGNORED_TOOL_STATE_PATHS: set<Path> :=
    {[".opencode", "package.json"], [".opencode", "package-lock.json"],
     [".codex", "tasks", ".worker-promotion.lock"]}

  /** The position of the first `.codex` segment, or the length. */
  function CodexIndex(p: Path): (i: nat)
    ensures i <= |p|
  {
    if p == [] || p[0] == ".codex" then 0 else 1 + CodexIndex(p[1..])
  }

  predicate Ignored(p: Path) {
    || (exists i :: 0 <= i < |p| && p[i] in IGNORED_LOCAL_DIRS)
    || p == [".opencode"]
    || p in IGNORED_TOOL_STATE_PATHS
    || [".opencode", "node_modules"] <= p
    || (CodexIndex(p) + 1 < |p| && p[CodexIndex(p) + 1] in IGNORED_CODEX_DIRS)
  }

  /** File bytes with every line ending as a line feed, unless the file is binary. */
  function Canonical(bytes: string): string {
    if '\0' in bytes then bytes else LineFeeds(bytes)
  }

  function LineFeeds(s: string): string {
    if s == "" then ""
    else if s[0] == '\r' then "\n" + LineFeeds(if |s| > 1 && s[1] == '\n' then s[2..] else s[1..])
    else [s[0]] + LineFeeds(s[1..])
  }

  /** Inventory entries; the content digest is ideal, so an entry holds the canonical content. */
  datatype Entry = FileEntry(content: string, mode: nat) | DirectoryEntry(mode: nat) | SymlinkEntry(target: string)

  type Snapshot = map<Path, Entry>

  function EntryOf(n: Node): Entry {
    match n
    case File(bytes, mode) => FileEntry(Canonical(bytes), mode)
    case Directory(mode) => DirectoryEntry(mode)
    case Symlink(target) => SymlinkEntry(target)
  }

  function SnapshotOf(t: Tree): Snapshot {
    map p | p in t && !Ignored(p) :: EntryOf(t[p])
  }

  function Find<K, V>(m: map<K, V>, k: K): Option<V> {
    if k in m then Some(m[k]) else None
  }

  function ChangedPaths(before: Snapshot, after: Snapshot): set<Path> {
    set p | p in before.Keys + after.Keys && Find(before, p) != Find(after, p)
  }

  /** Coordinator-local task packets, which content comparisons leave out. */
  predicate TaskPacket(p: Path) { [".codex", "tasks"] <= p }

  /** An entry without its mode. */
  function Content(e: Entry): Entry {
    match e
    case FileEntry(c, _) => FileEntry(c, 0)
    case DirectoryEntry(_) => DirectoryEntry(0)
    case SymlinkEntry(_) => e
  }

  predicate SameEntry(a: Snapshot, b: Snapshot, p: Path) {
    Find(a, p) == Find(b, p)
  }

  predicate SameContentAt(a: Snapshot, b: Snapshot, p: Path) {
    && (p in a <==> p in b)
    && (p in a ==> Content(a[p]) == Content(b[p]))
  }

  predicate SameOutsideTasks(a: Snapshot, b: Snapshot) {
    forall p | p in a.Keys + b.Keys && !TaskPacket(p) :: SameEntry(a, b, p)
  }

  predicate SameContentOutsideTasks(a: Snapshot, b: Snapshot) {
    forall p | p in a.Keys + b.Keys && !TaskPacket(p) :: SameContentAt(a, b, p)
  }

  // ----- Inventories whose parents are inventoried -----

  ghost predicate ParentClosed(s: Snapshot) {
    forall p | p in s && |p| > 1 :: Parent(p) in s && s[Parent(p)].DirectoryEntry?
  }

  lemma {:induction false} CodexIndexOfPrefix(p: Path, k: nat)
    requires k <= |p|
    ensures CodexIndex(p[..k]) == if CodexIndex(p) < k then CodexIndex(p) else k
  {
    if k > 0 && p[0] != ".codex" {
      assert p[..k][1..] == p[1..][..k - 1];
      CodexIndexOfPrefix(p[1..], k - 1);
    }
  }

  /** Skipped by name alone: what lies below is judged on its own. */
  predicate SkippedByName(p: Path) {
    p == [".opencode"] || p in IGNORED_TOOL_STATE_PATHS
  }

  lemma OnlyNamedSkips(p: Path)
    requires |p| > 1 && !Ignored(p)
    ensures Ignored(Parent(p)) <==> SkippedByName(Parent(p))
  {
    var q := Parent(p);
    CodexIndexOfPrefix(p, |p| - 1);
    assert forall i | 0 <= i < |q| :: q[i] == p[i];
  }

  /** An inventory lacks the parent of one of its paths exactly when it reaches below a path that
      is skipped by name: `.opencode`, its package files, or the promotion lock. */
  lemma WhenInventoriesAreClosed(t: Tree)
    requires WellFormed(t)
    ensures ParentClosed(SnapshotOf(t)) <==>
              forall p | p in SnapshotOf(t) && |p| > 1 :: !SkippedByName(Parent(p))
  {
    var s := SnapshotOf(t);
    hide Ignored, SkippedByName;
    forall p | p in s && |p| > 1
      ensures (Parent(p) in s && s[Parent(p)].DirectoryEntry?) <==> !SkippedByName(Parent(p))
    {
      OnlyNamedSkips(p);
      assert IsDirectory(t, Parent(p));
    }
  }
}
