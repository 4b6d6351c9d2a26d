/**
 What inventories see and promotion carries, stated on the trees themselves: two files have one
 inventory entry exactly when their modes agree and their texts have the same lines.
 */
module InventoryContent {
  import opened Common
  import opened FileTree
  import opened PythonText
  import opened Inventory
  import opened Promotion
  import opened ScopePatterns
  import opened Checkout

  // ----- Lines -----

  predicate Break(c: char) { c == '\r' || c == '\n' }

  /** The length of the first line: up to the first line ending, or to the end. */
  function FirstLine(s: string): (n: nat)
    ensures n <= |s| && (forall i | 0 <= i < n :: !Break(s[i])) && (n < |s| ==> Break(s[n]))
  {
    if s == "" || Break(s[0]) then 0 else 1 + FirstLine(s[1..])
  }

  /** What follows the line ending at `n`. */
  function AfterEnding(s: string, n: nat): (rest: string)
    requires n < |s|
    ensures |rest| < |s|
  {
    if s[n] == '\r' && n + 1 < |s| && s[n + 1] == '\n' then s[n + 2..] else s[n + 1..]
  }

  /** The lines of a text, ended by CRLF, CR or LF; the last one has no ending. */
  function Lines(s: string): seq<string>
    decreases |s|
  {
    var n := FirstLine(s);
    if n == |s| then [s]
    else [s[..n]] + Lines(AfterEnding(s, n))
  }

  predicate SameText(a: string, b: string) {
    a == b || ('\0' !in a && '\0' !in b && Lines(a) == Lines(b))
  }

  function Joined(lines: seq<string>): string
    requires lines != []
  {
    if |lines| == 1 then lines[0] else lines[0] + "\n" + Joined(lines[1..])
  }

  lemma OrdinaryFirst(s: string)
    requires s != "" && !Break(s[0])
    ensures LineFeeds(s) == [s[0]] + LineFeeds(s[1..])
  {
  }

  lemma {:induction false} LineFeedsSkips(s: string, n: nat)
    requires n <= |s| && forall i | 0 <= i < n :: !Break(s[i])
    ensures LineFeeds(s) == s[..n] + LineFeeds(s[n..])
  {
    hide LineFeeds;
    if n == 0 {
      assert s[0..] == s;
    } else {
      OrdinaryFirst(s);
      LineFeedsSkips(s[1..], n - 1);
      assert s[1..][n - 1..] == s[n..];
      assert s[..n] == [s[0]] + s[1..][..n - 1];
    }
  }

  lemma JoinedStep(first: string, rest: seq<string>)
    requires rest != []
    ensures Joined([first] + rest) == first + "\n" + Joined(rest)
  {
    assert ([first] + rest)[1..] == rest;
  }

  lemma LinesBegin(s: string)
    ensures var n := FirstLine(s);
            Lines(s) == if n == |s| then [s] else [s[..n]] + Lines(AfterEnding(s, n))
  {
  }

  lemma OneLine(s: string)
    ensures LineFeeds("") == "" && Joined([s]) == s
  {
  }

  /** Normalized text is the lines with line feeds between them. */
  lemma {:induction false} LineFeedsJoinsLines(s: string)
    ensures Lines(s) != [] && LineFeeds(s) == Joined(Lines(s))
    decreases |s|
  {
    hide *;
    var n := FirstLine(s);
    LineFeedsSkips(s, n);
    LinesBegin(s);
    if n == |s| {
      OneLine(s);
      assert s[n..] == "" && s[..n] == s;
    } else {
      var rest := AfterEnding(s, n);
      LineFeedsJoinsLines(rest);
      AfterBreak(s, n);
      JoinedStep(s[..n], Lines(rest));
      assert s[..n] + ("\n" + LineFeeds(rest)) == s[..n] + "\n" + LineFeeds(rest);
    }
  }

  lemma AfterBreak(s: string, n: nat)
    requires n < |s| && Break(s[n])
    ensures LineFeeds(s[n..]) ==
              "\n" + LineFeeds(AfterEnding(s, n))
  {
    var t := s[n..];
    assert t[1..] == s[n + 1..];
    if |t| > 1 { assert t[2..] == s[n + 2..] && t[1] == s[n + 1]; }
  }

  predicate Unbroken(s: string) {
    forall i | 0 <= i < |s| :: !Break(s[i])
  }

  lemma LinesOfOne(s: string)
    requires Unbroken(s)
    ensures Lines(s) == [s]
  {
  }

  lemma LinesStep(first: string, rest: string)
    requires Unbroken(first)
    ensures Lines(first + "\n" + rest) == [first] + Lines(rest)
  {
    var s := first + "\n" + rest;
    assert forall i | 0 <= i < |first| :: s[i] == first[i];
    assert s[|first|] == '\n';
    assert FirstLine(s) == |first|;
    assert s[|first| + 1..] == rest && s[..|first|] == first;
  }

  /** Lines joined by line feeds split into the same lines. */
  lemma {:induction false} LinesOfJoined(lines: seq<string>)
    requires lines != [] && forall k | 0 <= k < |lines| :: Unbroken(lines[k])
    ensures Lines(Joined(lines)) == lines
  {
    hide Lines, Unbroken;
    if |lines| == 1 {
      LinesOfOne(lines[0]);
    } else {
      LinesOfJoined(lines[1..]);
      LinesStep(lines[0], Joined(lines[1..]));
    }
  }

  lemma {:induction false} LinesAreUnbroken(s: string)
    ensures Lines(s) != [] && forall k | 0 <= k < |Lines(s)| :: Unbroken(Lines(s)[k])
    decreases |s|
  {
    var n := FirstLine(s);
    if n < |s| {
      LinesAreUnbroken(AfterEnding(s, n));
    }
  }

  lemma {:induction false} LineFeedsKeepsNul(s: string)
    ensures '\0' in LineFeeds(s) <==> '\0' in s
    decreases |s|
  {
    if s != "" {
      var rest := if s[0] == '\r' && |s| > 1 && s[1] == '\n' then s[2..] else s[1..];
      LineFeedsKeepsNul(rest);
      assert s == [s[0]] + s[1..];
      if s[0] == '\r' && |s| > 1 && s[1] == '\n' { assert s == ['\r', '\n'] + s[2..]; }
    }
  }

  /** Two files have the same content and mode in an inventory exactly when their modes agree and
      they hold the same bytes, or both are text and split into the same lines. */
  lemma SameFileEntries(a: string, b: string, m: nat, n: nat)
    ensures EntryOf(File(a, m)) == EntryOf(File(b, n)) <==> m == n && SameText(a, b)
  {
    LineFeedsKeepsNul(a);
    LineFeedsKeepsNul(b);
    LineFeedsJoinsLines(a);
    LineFeedsJoinsLines(b);
    LinesAreUnbroken(a);
    LinesAreUnbroken(b);
    LinesOfJoined(Lines(a));
    LinesOfJoined(Lines(b));
  }

  // ----- Skipped paths -----

  /** Below a version control, cache or tool directory, one of the tool state paths, below the tool's
      modules, or checkpoints and smoke runs of the first `.codex` directory. */
  ghost predicate Skipped(p: Path) {
    || ".git" in p || ".token-saver" in p || "graphify-out" in p || "__pycache__" in p
    || ".mypy_cache" in p || ".ruff_cache" in p || ".pytest_cache" in p
    || p == [".opencode"] || p == [".opencode", "package.json"] || p == [".opencode", "package-lock.json"]
    || p == [".codex", "tasks", ".worker-promotion.lock"]
    || (|p| >= 2 && p[0] == ".opencode" && p[1] == "node_modules")
    || exists i {:trigger p[i]} ::
         && 0 <= i < |p| - 1 && p[i] == ".codex" && ".codex" !in p[..i]
         && (p[i + 1] == "checkpoints" || p[i + 1] == "worker-smoke")
  }

  lemma {:induction false} CodexIndexIsFirst(p: Path)
    ensures ".codex" !in p[..CodexIndex(p)]
    ensures CodexIndex(p) < |p| ==> p[CodexIndex(p)] == ".codex"
  {
    if p != [] && p[0] != ".codex" {
      CodexIndexIsFirst(p[1..]);
      assert p[..CodexIndex(p)] == [p[0]] + p[1..][..CodexIndex(p[1..])];
    }
  }

  /** Inventories leave out exactly the skipped paths. */
  lemma IgnoredIsSkipped(p: Path)
    ensures Ignored(p) <==> Skipped(p)
  {
    CodexIndexIsFirst(p);
    var c := CodexIndex(p);
    if Skipped(p) && p != [] {
      assert |p| >= 2 ==> p[..2] == [p[0], p[1]];
      forall s | s in IGNORED_LOCAL_DIRS && s in p ensures Ignored(p) {
        var i :| 0 <= i < |p| && p[i] == s;
      }
    }
  }

  // ----- Changed paths -----

  /** Two nodes an inventory does not tell apart. */
  predicate Alike(m: Node, n: Node) {
    match m
    case File(a, x) => n.File? && n.mode == x && SameText(a, n.bytes)
    case Directory(x) => n.Directory? && n.mode == x
    case Symlink(t) => n.Symlink? && n.target == t
  }

  /** The worker added, removed or altered what an inventory records at `p`. */
  ghost predicate Altered(base: Tree, worker: Tree, p: Path) {
    && !Skipped(p)
    && (p in base || p in worker)
    && !(p in base && p in worker && Alike(base[p], worker[p]))
  }

  lemma AlikeEntries(m: Node, n: Node)
    ensures EntryOf(m) == EntryOf(n) <==> Alike(m, n)
  {
    if m.File? && n.File? { SameFileEntries(m.bytes, n.bytes, m.mode, n.mode); }
  }

  /** Comparing the inventories of two trees finds exactly the altered paths. */
  lemma ChangedIsAltered(base: Tree, worker: Tree, p: Path)
    ensures p in ChangedPaths(SnapshotOf(base), SnapshotOf(worker)) <==> Altered(base, worker, p)
  {
    IgnoredIsSkipped(p);
    hide Ignored, Skipped, Alike, EntryOf;
    if p in base && p in worker { AlikeEntries(base[p], worker[p]); }
  }

  /** A promoted tree holds the worker's very node at every altered path and the coordinator's own
      at every other, but for directories implied on the way to an altered path. */
  lemma PromotionCarriesEdits(target: Tree, base: Tree, worker: Tree, dirMode: nat, t: Tree, p: Path)
    requires var j := JobFor(target, worker, SnapshotOf(base), dirMode); j.Near(j.Promoted(), t)
    ensures var wanted := if Altered(base, worker, p) then Find(worker, p) else Find(target, p);
            || Find(t, p) == wanted
            || (wanted == None && Find(t, p) == Some(Directory(dirMode)) &&
                exists q :: Under(q, p) && q in worker && Altered(base, worker, q))
  {
    var j := JobFor(target, worker, SnapshotOf(base), dirMode);
    ChangedIsAltered(base, worker, p);
    PromotedNode(j, p);
    assert j.NearAt(j.Promoted(), t, p);
    if p in j.Implied() {
      var q, k :| q in j.changed && q in j.After() && 0 < k < |q| && q[..k] == p;
      ChangedIsAltered(base, worker, q);
      assert Under(q, p) by { assert q[..|p|] == p; }
    }
  }

  lemma PromotedNode(j: Job, p: Path)
    requires p in j.changed ==> !Ignored(p)
    ensures Find(j.Promoted(), p) == if p in j.changed then Find(j.worker, p) else Find(j.target, p)
  {
    hide Ignored;
  }

  // ----- What is refused -----

  /** The kind a changed path is matched with: the worker's, or for a deleted path the baseline's. */
  predicate ChangedDirectory(base: Tree, worker: Tree, p: Path) {
    if p in worker then worker[p].Directory? else p in base && base[p].Directory?
  }

  /** The violations are exactly the altered paths that are the task packet itself or that no pattern
      covers. */
  lemma ViolationsExactly(target: Tree, base: Tree, worker: Tree, dirMode: nat, patterns: seq<string>, task: Path,
                          p: Path)
    requires Segments(p)
    ensures p in OutOfScope(JobFor(target, worker, SnapshotOf(base), dirMode), SnapshotOf(base), patterns, task) <==>
              && Altered(base, worker, p)
              && (p == task || forall i | 0 <= i < |patterns| ::
                                 !Covers(patterns[i], p, ChangedDirectory(base, worker, p)))
  {
    var j, before := JobFor(target, worker, SnapshotOf(base), dirMode), SnapshotOf(base);
    var directory := ChangedDirectory(base, worker, p);
    ChangedIsAltered(base, worker, p);
    IgnoredIsSkipped(p);
    forall i | 0 <= i < |patterns|
      ensures PatternAllows(Join(p), patterns[i], directory) <==> Covers(patterns[i], p, directory)
    {
      PatternsMeanSegments(p, patterns[i], directory);
    }
    hide Ignored, Skipped, Alike, PatternAllows, Covers, Join, Segments, Canonical, ChangedPaths;
    if p in j.changed { assert IsDirectoryEntry(j, before, p) == directory; }
  }

  /** The coordinator's node is the baseline's, modes aside. */
  predicate SameButMode(m: Node, n: Node) {
    match m
    case File(a, _) => n.File? && SameText(a, n.bytes)
    case Directory(_) => n.Directory?
    case Symlink(t) => n.Symlink? && n.target == t
  }

  /** An altered path can be promoted: no link replaces or precedes it, and a directory of the
      coordinator that goes away holds nothing but what the worker deleted. */
  ghost predicate Promotable(target: Tree, base: Tree, worker: Tree, p: Path) {
    && p != []
    && (p in worker ==> !worker[p].Symlink?)
    && (forall k | 0 < k < |p| :: !(p[..k] in target && target[p[..k]].Symlink?))
    && (p in target && target[p].Directory? && !(p in worker && worker[p].Directory?) ==>
          forall q | q in target && p < q :: q !in worker && Altered(base, worker, q))
  }

  /** The coordinator's content is the baseline's at `p`, unless `p` is skipped or a task packet. */
  ghost predicate Untouched(target: Tree, base: Tree, p: Path) {
    Skipped(p) || [".codex", "tasks"] <= p ||
    ((p in target <==> p in base) && (p in target && p in base ==> SameButMode(target[p], base[p])))
  }

  lemma SameContents(m: Node, n: Node)
    ensures Content(EntryOf(m)) == Content(EntryOf(n)) <==> SameButMode(m, n)
  {
    if m.File? && n.File? { SameFileEntries(m.bytes, n.bytes, 0, 0); }
  }

  lemma UntouchedContent(target: Tree, base: Tree)
    ensures SameContentOutsideTasks(SnapshotOf(target), SnapshotOf(base)) <==>
              forall p :: Untouched(target, base, p)
  {
    forall p
      ensures Untouched(target, base, p) <==> TaskPacket(p) || SameContentAt(SnapshotOf(target), SnapshotOf(base), p)
    {
      IgnoredIsSkipped(p);
      if p in target && p in base { SameContents(target[p], base[p]); }
      hide Ignored, Skipped, SameButMode, EntryOf, Content;
    }
    hide Untouched, SnapshotOf, TaskPacket;
  }

  lemma PromotablePath(target: Tree, base: Tree, worker: Tree, dirMode: nat, p: Path)
    requires Altered(base, worker, p)
    ensures var j := JobFor(target, worker, SnapshotOf(base), dirMode);
            Promotable(target, base, worker, p) <==>
              && p != [] && Safe(target, p)
              && (p in j.After() ==> !j.After()[p].SymlinkEntry?)
              && (p in target && target[p].Directory? && (p in j.After() ==> !j.After()[p].DirectoryEntry?) ==>
                    j.OnlyPlannedBelow(p))
  {
    var j := JobFor(target, worker, SnapshotOf(base), dirMode);
    IgnoredIsSkipped(p);
    forall q ensures q in j.Deleted() <==> q !in worker && Altered(base, worker, q) {
      ChangedIsAltered(base, worker, q);
      IgnoredIsSkipped(q);
      hide Ignored, Skipped, Alike, ChangedPaths, EntryOf;
    }
    hide Ignored, Skipped, Alike, ChangedPaths, Job.Deleted, Canonical;
  }

  /** A promotion in scope is rejected exactly when some altered path cannot be promoted or the
      coordinator's content is no longer the baseline's. */
  lemma PreChecksExactly(target: Tree, base: Tree, worker: Tree, dirMode: nat)
    ensures PreChecked(JobFor(target, worker, SnapshotOf(base), dirMode), SnapshotOf(base)) <==>
              && (forall p | Altered(base, worker, p) :: Promotable(target, base, worker, p))
              && (forall p :: Untouched(target, base, p))
  {
    var j := JobFor(target, worker, SnapshotOf(base), dirMode);
    forall p
      ensures p in j.changed <==> Altered(base, worker, p)
      ensures Altered(base, worker, p) ==>
                (Promotable(target, base, worker, p) <==>
                   && p != [] && Safe(target, p)
                   && (p in j.After() ==> !j.After()[p].SymlinkEntry?)
                   && (p in target && target[p].Directory? && (p in j.After() ==> !j.After()[p].DirectoryEntry?) ==>
                         j.OnlyPlannedBelow(p)))
    {
      ChangedIsAltered(base, worker, p);
      if Altered(base, worker, p) { PromotablePath(target, base, worker, dirMode, p); }
    }
    UntouchedContent(target, base);
    hide Ignored, Skipped, Alike, Altered, Promotable, Untouched, ChangedPaths, Canonical, Safe, SnapshotOf,
      Job.OnlyPlannedBelow, SameContentOutsideTasks;
  }

  /** The final comparison of a promotion: alike nodes everywhere but below skipped names and task
      packets, modes included. */
  lemma SameInventories(t: Tree, worker: Tree)
    ensures SameOutsideTasks(SnapshotOf(t), SnapshotOf(worker)) <==>
              forall p :: Skipped(p) || [".codex", "tasks"] <= p ||
                          ((p in t <==> p in worker) && (p in t && p in worker ==> Alike(t[p], worker[p])))
  {
    var a, b := SnapshotOf(t), SnapshotOf(worker);
    forall p
      ensures Skipped(p) || (p !in t && p !in worker) || !Altered(t, worker, p) <==> SameEntry(a, b, p)
    {
      IgnoredIsSkipped(p);
      if p in t && p in worker { AlikeEntries(t[p], worker[p]); }
      hide Ignored, Skipped, Alike, EntryOf;
    }
    hide Skipped, Alike, SnapshotOf;
  }

  // ----- What the modes decide -----

  predicate SameMode(m: Node, n: Node) {
    (m.Symlink? || n.Symlink?) || m.mode == n.mode
  }

  /** With the coordinator's content at the baseline, the promoted tree passes the final comparison
      exactly when every path that the worker did not alter has its baseline mode. */
  lemma ModesDecide(target: Tree, base: Tree, worker: Tree, dirMode: nat)
    requires forall p :: Untouched(target, base, p)
    ensures var j := JobFor(target, worker, SnapshotOf(base), dirMode);
            SameOutsideTasks(SnapshotOf(j.Promoted()), SnapshotOf(worker)) <==>
              forall p | p in base && p in target ::
                Skipped(p) || [".codex", "tasks"] <= p || Altered(base, worker, p) || SameMode(target[p], base[p])
  {
    var j := JobFor(target, worker, SnapshotOf(base), dirMode);
    UntouchedContent(target, base);
    FinalCheckMeansModesAgree(j, SnapshotOf(base));
    forall p | p in base && p in target && !Skipped(p)
      ensures p in SnapshotOf(base) && p in SnapshotOf(target)
      ensures p in j.changed <==> Altered(base, worker, p)
      ensures !([".codex", "tasks"] <= p) ==>
                (ModeOf(SnapshotOf(target)[p]) == ModeOf(SnapshotOf(base)[p]) <==> SameMode(target[p], base[p]))
    {
      IgnoredIsSkipped(p);
      ChangedIsAltered(base, worker, p);
      assert Untouched(target, base, p);
      hide Ignored, Skipped, Alike, Altered, ChangedPaths, Canonical, SameText;
    }
    forall p | p in SnapshotOf(base) ensures !Skipped(p) { IgnoredIsSkipped(p); }
    hide Ignored, Skipped, Alike, Altered, Untouched, ChangedPaths, SameMode, ModeOf, EntryOf, SameOutsideTasks,
      SameContentOutsideTasks;
  }
}
