/** How often a rotation is logged when it and its recoveries are interrupted. */
module VaultRotationLog {
  import opened Common
  import opened Listing
  import opened VaultModel
  import opened VaultInvariant
  import opened VaultRecovery
  import opened VaultCalls
  import opened VaultTheorems

  // ----- Entries -----

  function Entry(r: Record, id: Id, t: Time): Event { EventOf(RotatedEvent, r, Some(Rotation(id)), t) }

  /** The rotation's events: each made at one of the clock readings, no two with the same status. */
  predicate Entries(events: seq<Event>, r: Record, id: Id, readings: set<Time>) {
    && (forall i | 0 <= i < |events| ::
          events[i].recordedAt in readings && events[i] == Entry(r, id, events[i].recordedAt))
    && (forall i, k | 0 <= i < k < |events| :: events[i].status != events[k].status)
  }

  /** The rotation's id is new to the log. */
  predicate Unlogged(audit: seq<Event>, id: Id) {
    forall i | 0 <= i < |audit| :: audit[i].operation != Some(Rotation(id))
  }

  predicate HasStatus(events: seq<Event>, s: Status) { exists i :: 0 <= i < |events| && events[i].status == s }

  function More(events: seq<Event>, r: Record, id: Id, t: Time): seq<Event> {
    if HasStatus(events, r.Status(t)) then events else events + [Entry(r, id, t)]
  }

  /** The log finds the rotation's event exactly when it holds one with the present status. */
  lemma LoggedByStatus(audit: seq<Event>, events: seq<Event>, r: Record, id: Id, readings: set<Time>, t: Time)
    requires Unlogged(audit, id) && Entries(events, r, id, readings)
    ensures Logged(audit + events, RotatedEvent, r, Rotation(id), t) <==> HasStatus(events, r.Status(t))
  {
    var all := audit + events;
    assert forall i | 0 <= i < |audit| :: all[i] == audit[i];
    if Logged(all, RotatedEvent, r, Rotation(id), t) {
      var i :| 0 <= i < |all| && Records(all[i], RotatedEvent, r, Rotation(id), t);
      assert i >= |audit| && all[i] == events[i - |audit|];
    }
    if HasStatus(events, r.Status(t)) {
      var i :| 0 <= i < |events| && events[i].status == r.Status(t);
      assert all[|audit| + i] == events[i];
      assert Records(all[|audit| + i], RotatedEvent, r, Rotation(id), t);
    }
  }

  lemma EntriesGrow(audit: seq<Event>, events: seq<Event>, r: Record, id: Id, readings: set<Time>, t: Time)
    requires Unlogged(audit, id) && Entries(events, r, id, readings)
    ensures LoggedOnce(audit + events, RotatedEvent, r, Rotation(id), t) == audit + More(events, r, id, t)
    ensures Entries(More(events, r, id, t), r, id, readings + {t}) && More(events, r, id, t) != []
  {
    LoggedByStatus(audit, events, r, id, readings, t);
    hide Logged, Unlogged;
    assert audit + events + [Entry(r, id, t)] == audit + (events + [Entry(r, id, t)]);
  }

  lemma EntriesWiden(events: seq<Event>, r: Record, id: Id, readings: set<Time>, more: set<Time>)
    requires Entries(events, r, id, readings) && readings <= more
    ensures Entries(events, r, id, more)
  {
  }

  predicate OneStatus(r: Record, readings: set<Time>) {
    forall t, v | t in readings && v in readings :: r.Status(t) == r.Status(v)
  }

  /** A replacement is active or expired, so there are at most two events, and one only while its
      status is the same at every reading. */
  lemma FewEntries(events: seq<Event>, r: Record, id: Id, readings: set<Time>)
    requires Entries(events, r, id, readings) && r.revokedAt.None? && r.destroyedAt.None?
    ensures |events| <= 2
    ensures OneStatus(r, readings) ==> |events| <= 1
  {
    forall i | 0 <= i < |events| ensures events[i].status == Active || events[i].status == Expired {
      assert events[i].status == r.Status(events[i].recordedAt);
    }
    assert |events| > 1 ==> events[0].status != events[1].status;
    if |events| > 2 {
      TwoStatuses(events[0].status, events[1].status, events[2].status);
      assert false;
    }
  }

  lemma TwoStatuses(a: Status, b: Status, c: Status)
    requires {a, b, c} <= {Active, Expired}
    ensures a == b || a == c || b == c
  {
    assert a in {a, b, c} && b in {a, b, c} && c in {a, b, c};
  }

  // ----- One roll-forward -----

  lemma {:induction false} RecordsOnly(d: Disk, ws: seq<Write>)
    requires forall w | w in ws :: w.PutRecord?
    ensures Play(d, ws).audit == d.audit && Play(d, ws).journals == d.journals
    decreases |ws|
  {
    if ws != [] {
      assert ws[0].PutRecord?;
      RecordsOnly(Apply(d, ws[0]), ws[1..]);
    }
  }

  lemma AppendedOnce(d: Disk, r: Record, id: Id, wall: Time)
    ensures var ws := AppendOnce(d.audit, RotatedEvent, r, Rotation(id), wall);
            Play(d, ws) == d.(audit := LoggedOnce(d.audit, RotatedEvent, r, Rotation(id), wall)) && |ws| <= 1
  {
    hide Logged;
    assert Play(d, []) == d;
    var e := EventOf(RotatedEvent, r, Some(Rotation(id)), wall);
    assert [Append(e)][1..] == [];
    assert Play(d, [Append(e)]) == Play(Apply(d, Append(e)), []);
  }

  /** What an interrupted roll-forward leaves of the log and the journal. */
  lemma ForwardCut(d: Disk, id: Id, wall: Time, m: nat)
    requires id in d.journals && d.journals[id].oldRef in d.records && m <= |ForwardWrites(d, id, wall)|
    ensures var r, ws := d.journals[id].replacement, ForwardWrites(d, id, wall);
            var e, logged := Play(d, ws[..m]), LoggedOnce(d.audit, RotatedEvent, r, Rotation(id), wall);
            && (e.audit == d.audit || e.audit == logged)
            && (m + 1 >= |ws| ==> e.audit == logged)
            && (m == |ws| ==> e.journals == d.journals - {id})
            && (m < |ws| ==> e.journals == d.journals)
  {
    var j, ws := d.journals[id], ForwardWrites(d, id, wall);
    var puts := PublishWrites(d, j) + RevokeWrites(d, j);
    var log := AppendOnce(d.audit, RotatedEvent, j.replacement, Rotation(id), wall);
    assert forall w | w in puts :: w.PutRecord?;
    assert ws == puts + log + [DropJournal(id)];
    hide PublishWrites, RevokeWrites, ForwardWrites, AppendOnce, LoggedOnce;
    var e := Play(d, puts);
    RecordsOnly(d, puts);
    AppendedOnce(e, j.replacement, id, wall);
    if m <= |puts| {
      assert ws[..m] == puts[..m];
      RecordsOnly(d, puts[..m]);
    } else {
      PlayAppend(d, puts, log);
      if m < |ws| {
        assert ws[..m] == puts + log;
      } else {
        assert ws[..m] == (puts + log) + [DropJournal(id)];
        PlayAppend(d, puts + log, [DropJournal(id)]);
        PlayTwo(Play(d, puts + log), DropJournal(id), DropJournal(id));
      }
    }
  }

  /** With its blob written, recovery rolls the pending rotation forward. */
  lemma RecoveryRollsForward(d: Disk, id: Id, wall: Time)
    requires Inv(d) && id in d.journals && d.journals[id].replacement.ref in d.blobs
    ensures d.journals[id].oldRef in d.records && Recovery(d, wall).writes == ForwardWrites(d, id, wall)
  {
    var j := d.journals[id];
    assert JournalOk(d, id, j);
    OneJournal(d, id);
    SortedSingleton(id);
    assert JournalPlan(d, id, wall) == Go(ForwardWrites(d, id, wall));
    hide ForwardWrites, JournalPlan;
    var ws := ForwardWrites(d, id, wall);
    assert RecoveryPlan(Play(d, ws), [id][1..], wall) == Go([]);
    assert ws + [] == ws;
  }

  // ----- Along the recoveries -----

  /** The rotation of journal `j` is committed, and of its log entries `events` are made. */
  ghost predicate Underway(d: Disk, audit: seq<Event>, id: Id, j: Journal, events: seq<Event>) {
    && Inv(d) && j.replacement.ref in d.blobs && d.audit == audit + events
    && (d.journals == map[id := j] || (d.journals == map[] && events != []))
  }

  lemma AttemptLogs(d: Disk, audit: seq<Event>, id: Id, j: Journal, events: seq<Event>, readings: set<Time>,
                    wall: Time, m: nat) returns (after: seq<Event>)
    requires Underway(d, audit, id, j, events) && Unlogged(audit, id) && Entries(events, j.replacement, id, readings)
    requires m <= |Recovery(d, wall).writes|
    ensures var e := Play(d, Recovery(d, wall).writes[..m]);
            && Underway(e, audit, id, j, after) && Entries(after, j.replacement, id, readings + {wall})
            && (m == |Recovery(d, wall).writes| ==> e.journals == map[])
  {
    var ws := Recovery(d, wall).writes;
    var e := Play(d, ws[..m]);
    RecoveryIsQuiet(d, wall);
    StepsPrefix(d, ws, m);
    RecoveryWritesOnly(d, Sorted(d.journals.Keys), wall);
    RecoveryWritesLeave(d, ws[..m]);
    EntriesWiden(events, j.replacement, id, readings, readings + {wall});
    after := events;
    if d.journals != map[] {
      RecoveryRollsForward(d, id, wall);
      ForwardCut(d, id, wall, m);
      EntriesGrow(audit, events, j.replacement, id, readings, wall);
      hide Inv, Recovery, Play, ForwardWrites, Entries, Quiet, LoggedOnce, Steps, Still, Settled, More, Unlogged;
      if e.audit != d.audit || m == |ws| { after := More(events, j.replacement, id, wall); }
    } else {
      NothingPending(d, wall);
    }
  }

  lemma NothingPending(d: Disk, wall: Time)
    requires d.journals == map[]
    ensures Recovery(d, wall).writes == []
  {
  }

  function Readings(crashes: seq<Crash>): set<Time> {
    set i | 0 <= i < |crashes| :: crashes[i].wall
  }

  lemma {:induction false} RecoveriesLog(d: Disk, audit: seq<Event>, id: Id, j: Journal, events: seq<Event>,
                                         readings: set<Time>, crashes: seq<Crash>) returns (after: seq<Event>)
    requires Underway(d, audit, id, j, events) && Unlogged(audit, id) && Entries(events, j.replacement, id, readings)
    ensures Underway(CrashedRecoveries(d, crashes), audit, id, j, after)
    ensures Entries(after, j.replacement, id, readings + Readings(crashes))
    decreases |crashes|
  {
    hide Underway, Unlogged, Entries, Recovery, Play;
    if crashes == [] {
      after := events;
      assert readings + Readings(crashes) == readings;
    } else {
      var ws := Recovery(d, crashes[0].wall).writes;
      var m := Min(crashes[0].life, |ws|);
      var between := AttemptLogs(d, audit, id, j, events, readings, crashes[0].wall, m);
      after := RecoveriesLog(Play(d, ws[..m]), audit, id, j, between, readings + {crashes[0].wall}, crashes[1..]);
      assert readings + {crashes[0].wall} + Readings(crashes[1..]) == readings + Readings(crashes) by {
        assert crashes == [crashes[0]] + crashes[1..];
        ReadingsStep(crashes);
      }
    }
  }

  lemma ReadingsStep(crashes: seq<Crash>)
    requires crashes != []
    ensures Readings(crashes) == {crashes[0].wall} + Readings(crashes[1..])
  {
    forall t | t in Readings(crashes) ensures t in {crashes[0].wall} + Readings(crashes[1..]) {
      var i :| 0 <= i < |crashes| && crashes[i].wall == t;
      if i > 0 { assert crashes[1..][i - 1] == crashes[i]; }
    }
    forall t | t in Readings(crashes[1..]) ensures t in Readings(crashes) {
      var i :| 0 <= i < |crashes[1..]| && crashes[1..][i].wall == t;
      assert crashes[i + 1] == crashes[1..][i];
    }
  }

  // ----- Before the commit -----

  ghost predicate Uncommitted(d: Disk) {
    Inv(d) && NoneWritten(d)
  }

  predicate NoneWritten(d: Disk) {
    forall id | id in d.journals :: d.journals[id].replacement.ref !in d.blobs
  }

  lemma UncommittedPlan(d: Disk, wall: Time)
    requires Uncommitted(d)
    ensures forall w | w in Recovery(d, wall).writes :: w.DropJournal?
  {
    if d.journals == map[] {
      NothingPending(d, wall);
    } else {
      var id :| id in d.journals;
      assert JournalOk(d, id, d.journals[id]);
      OneJournal(d, id);
      SortedSingleton(id);
      assert JournalPlan(d, id, wall) == Go([DropJournal(id)]);
      assert RecoveryPlan(Play(d, [DropJournal(id)]), [id][1..], wall) == Go([]);
    }
  }

  lemma {:induction false} DropsOnly(d: Disk, ws: seq<Write>)
    requires forall w | w in ws :: w.DropJournal?
    ensures var e := Play(d, ws);
            && e.audit == d.audit && e.blobs == d.blobs
            && forall id | id in e.journals :: id in d.journals && e.journals[id] == d.journals[id]
    decreases |ws|
  {
    if ws != [] {
      assert ws[0].DropJournal?;
      DropsOnly(Apply(d, ws[0]), ws[1..]);
    }
  }

  lemma UncommittedRecovery(d: Disk, wall: Time, m: nat)
    requires Uncommitted(d) && m <= |Recovery(d, wall).writes|
    ensures var e := Play(d, Recovery(d, wall).writes[..m]); Uncommitted(e) && e.audit == d.audit
  {
    var ws := Recovery(d, wall).writes;
    RecoveryIsQuiet(d, wall);
    StepsPrefix(d, ws, m);
    UncommittedPlan(d, wall);
    hide Inv, Recovery, Quiet, Steps, Play;
    DropsOnly(d, ws[..m]);
  }

  lemma {:induction false} UncommittedRecoveries(d: Disk, crashes: seq<Crash>)
    requires Uncommitted(d)
    ensures Uncommitted(CrashedRecoveries(d, crashes)) && CrashedRecoveries(d, crashes).audit == d.audit
    decreases |crashes|
  {
    hide Uncommitted, Recovery;
    if crashes != [] {
      var ws := Recovery(d, crashes[0].wall).writes;
      var m := Min(crashes[0].life, |ws|);
      UncommittedRecovery(d, crashes[0].wall, m);
      UncommittedRecoveries(Play(d, ws[..m]), crashes[1..]);
    }
  }

  lemma JournalledOnly(d: Disk, c: Call)
    requires c.Rotate? && Fresh(d, c) && c.ref in d.records && d.journals == map[]
    ensures var e := Apply(d, PutJournal(c.rotationId, RotationJournal(d.records[c.ref], c)));
            NoneWritten(e) && NoneWritten(d) && e.audit == d.audit
  {
  }

  lemma FirstWrite(d: Disk, c: Call, wall: Time)
    requires c.Rotate? && RotatePlan(d, c, wall).failure.None?
    ensures c.ref in d.records && |RotatePlan(d, c, wall).writes| >= 3
    ensures RotatePlan(d, c, wall).writes[0] == PutJournal(c.rotationId, RotationJournal(d.records[c.ref], c))
  {
    hide Logged;
  }

  lemma FirstPrefix(d: Disk, w: Write, ws: seq<Write>, k: nat)
    requires ws != [] && ws[0] == w && k < 2
    ensures Play(d, ws[..k]) == if k == 0 then d else Apply(d, w)
  {
    assert ws[..k] == if k == 0 then [] else [w];
    PlayTwo(d, w, w);
  }

  lemma BeforeCommit(d: Disk, c: Call, wall: Time, k: nat)
    requires Inv(d) && d.journals == map[] && c.Rotate? && Fresh(d, c)
    requires RotatePlan(d, c, wall).failure.None? && k <= |RotatePlan(d, c, wall).writes| && k < 2
    ensures var e := Play(d, RotatePlan(d, c, wall).writes[..k]); Uncommitted(e) && e.audit == d.audit
  {
    var ws := RotatePlan(d, c, wall).writes;
    RotateIsAtomic(d, c, wall);
    FirstWrite(d, c, wall);
    JournalledOnly(d, c);
    hide Inv, RotatePlan, Steps, OneCommit, RotationJournal, Apply, Play, NoneWritten, Fresh;
    StepsPrefix(d, ws, k);
    FirstPrefix(d, ws[0], ws, k);
  }

  // ----- The theorem -----

  /** Once committed, an interrupted rotation has done what an interrupted recovery of it would do. */
  lemma CommitIsUnderway(d: Disk, c: Call, wall: Time, k: nat)
    requires Inv(d) && d.journals == map[] && c.Rotate? && Fresh(d, c)
    requires RotatePlan(d, c, wall).failure.None? && 2 <= k <= |RotatePlan(d, c, wall).writes|
    ensures c.ref in d.records
    ensures var ws, f := RotatePlan(d, c, wall).writes, Committed(d, c);
            var j := RotationJournal(d.records[c.ref], c);
            && Underway(f, d.audit, c.rotationId, j, []) && f.journals == map[c.rotationId := j]
            && |Recovery(f, wall).writes| == |ws| - 2
            && Play(d, ws[..k]) == Play(f, Recovery(f, wall).writes[..k - 2])
  {
    hide Inv, RotatePlan, Play, ForwardWrites, Recovery, Settled, RotationJournal, Committed, Fresh;
    RotationPhases(d, c, wall);
    var j, f := RotationJournal(d.records[c.ref], c), Committed(d, c);
    CommittedDisk(d, c);
    RecoveryRollsForward(f, c.rotationId, wall);
    RotationTail(d, PutJournal(c.rotationId, j), PutBlob(c.newRef, j.digest.of), ForwardWrites(f, c.rotationId, wall), k);
    assert d.audit + [] == d.audit;
  }

  lemma CommittedDisk(d: Disk, c: Call)
    requires c.Rotate? && c.ref in d.records && d.journals == map[]
    ensures var j := RotationJournal(d.records[c.ref], c);
            && Committed(d, c).journals == map[c.rotationId := j] && Committed(d, c).audit == d.audit
            && j.replacement == Replacement(d.records[c.ref], c)
            && j.replacement.revokedAt.None? && j.replacement.destroyedAt.None?
  {
  }

  /** The log after a rotation that dies after `k` writes, recoveries that die too, and one that completes. */
  ghost function LogAfter(d: Disk, c: Call, wall: Time, k: nat, crashes: seq<Crash>, last: Time): seq<Event>
    requires c.Rotate? && k <= |RotatePlan(d, c, wall).writes|
  {
    LogRecovered(Play(d, RotatePlan(d, c, wall).writes[..k]), crashes, last)
  }

  ghost function LogRecovered(d: Disk, crashes: seq<Crash>, last: Time): seq<Event> {
    var e := CrashedRecoveries(d, crashes);
    Play(e, Recovery(e, last).writes).audit
  }

  lemma CommittedIsLogged(d: Disk, audit: seq<Event>, id: Id, j: Journal, wall: Time, m: nat,
                          crashes: seq<Crash>, last: Time)
    returns (events: seq<Event>)
    requires Underway(d, audit, id, j, []) && Unlogged(audit, id) && m <= |Recovery(d, wall).writes|
    ensures LogRecovered(Play(d, Recovery(d, wall).writes[..m]), crashes, last) == audit + events && events != []
    ensures Entries(events, j.replacement, id, {wall, last} + Readings(crashes))
  {
    assert Entries([], j.replacement, id, {});
    hide Inv, Play, Recovery, Unlogged, Entries, CrashedRecoveries, Readings;
    var first := AttemptLogs(d, audit, id, j, [], {}, wall, m);
    var f := Play(d, Recovery(d, wall).writes[..m]);
    var later := RecoveriesLog(f, audit, id, j, first, {} + {wall}, crashes);
    var e := CrashedRecoveries(f, crashes);
    var p := Recovery(e, last).writes;
    assert p[..|p|] == p;
    events := AttemptLogs(e, audit, id, j, later, {} + {wall} + Readings(crashes), last, |p|);
    assert {} + {wall} + Readings(crashes) + {last} == {wall, last} + Readings(crashes);
    assert id in map[id := j];
  }

  lemma UncommittedIsNotLogged(d: Disk, crashes: seq<Crash>, last: Time)
    requires Uncommitted(d)
    ensures LogRecovered(d, crashes, last) == d.audit
  {
    hide Uncommitted, Recovery;
    UncommittedRecoveries(d, crashes);
    var e := CrashedRecoveries(d, crashes);
    var p := Recovery(e, last).writes;
    assert p[..|p|] == p;
    UncommittedRecovery(e, last, |p|);
  }

  /** A rotation that dies after `k` writes, then any number of recoveries that die too, then one that
      completes.  Before its commit nothing is logged.  From then on the log gains at least one event
      and never two with the same status of the replacement, hence at most two, and exactly one while
      that status is the same at every clock reading. */
  lemma RotationIsLogged(d: Disk, c: Call, wall: Time, k: nat, crashes: seq<Crash>, last: Time)
    returns (events: seq<Event>)
    requires Inv(d) && d.journals == map[] && c.Rotate? && Fresh(d, c) && Unlogged(d.audit, c.rotationId)
    requires RotatePlan(d, c, wall).failure.None? && k <= |RotatePlan(d, c, wall).writes|
    ensures c.ref in d.records
    ensures LogAfter(d, c, wall, k, crashes, last) == d.audit + events
    ensures k < 2 <==> events == []
    ensures var r, readings := Replacement(d.records[c.ref], c), {wall, last} + Readings(crashes);
            && Entries(events, r, c.rotationId, readings) && |events| <= 2
            && (k >= 2 && OneStatus(r, readings) ==> |events| == 1)
  {
    RotationPhases(d, c, wall);
    CommittedDisk(d, c);
    hide Inv, RotatePlan, Play, Recovery, Unlogged, Fresh, CrashedRecoveries, Committed, RotationJournal, Replacement,
         ForwardWrites, Underway, Uncommitted, LogRecovered, Readings, OneStatus, Settled;
    if k < 2 {
      BeforeCommit(d, c, wall, k);
      UncommittedIsNotLogged(Play(d, RotatePlan(d, c, wall).writes[..k]), crashes, last);
      events := [];
      assert d.audit + [] == d.audit;
    } else {
      var j := RotationJournal(d.records[c.ref], c);
      CommitIsUnderway(d, c, wall, k);
      events := CommittedIsLogged(Committed(d, c), d.audit, c.rotationId, j, wall, k - 2, crashes, last);
      hide Entries;
      FewEntries(events, j.replacement, c.rotationId, {wall, last} + Readings(crashes));
    }
  }

  /** Everything but the removal of the journal. */
  lemma AlmostDone(d: Disk, audit: seq<Event>, id: Id, j: Journal, wall: Time)
    requires Underway(d, audit, id, j, []) && d.journals == map[id := j] && Unlogged(audit, id)
    ensures var ws := Recovery(d, wall).writes;
            |ws| >= 1 &&
            var e := Play(d, ws[..|ws| - 1]);
            Underway(e, audit, id, j, [Entry(j.replacement, id, wall)]) && e.journals == map[id := j]
  {
    var ws := Recovery(d, wall).writes;
    RecoveryRollsForward(d, id, wall);
    LastWrite(d, id, wall);
    RecoveryIsQuiet(d, wall);
    StepsPrefix(d, ws, |ws| - 1);
    ForwardWritesOnly(d, id, wall);
    EntriesGrow(audit, [], j.replacement, id, {}, wall);
    ForwardCut(d, id, wall, |ws| - 1);
    hide Inv, Recovery, Quiet, Steps, Play, ForwardWrites, LoggedOnce, Settled;
    RecoveryWritesLeave(d, ws[..|ws| - 1]);
    assert [] + [Entry(j.replacement, id, wall)] == [Entry(j.replacement, id, wall)];
  }

  lemma LoggedBySecond(d: Disk, audit: seq<Event>, id: Id, j: Journal, wall: Time, last: Time)
    requires Underway(d, audit, id, j, [Entry(j.replacement, id, wall)]) && d.journals == map[id := j]
    requires Unlogged(audit, id)
    ensures Play(d, Recovery(d, last).writes).audit ==
              audit + More([Entry(j.replacement, id, wall)], j.replacement, id, last)
  {
    var p := Recovery(d, last).writes;
    RecoveryRollsForward(d, id, last);
    assert p[..|p|] == p;
    ForwardCut(d, id, last, |p|);
    EntriesGrow(audit, [Entry(j.replacement, id, wall)], j.replacement, id, {wall}, last);
    hide Inv, Recovery, Play, ForwardWrites, LoggedOnce, Settled, More;
  }

  lemma LoggedAgain(d: Disk, audit: seq<Event>, id: Id, j: Journal, wall: Time, last: Time)
    requires Underway(d, audit, id, j, []) && d.journals == map[id := j] && Unlogged(audit, id)
    ensures var ws, r := Recovery(d, wall).writes, j.replacement;
            && ws != []
            && LogRecovered(Play(d, ws[..|ws| - 1]), [], last) == audit + TwoReadings(r, id, wall, last)
  {
    var ws, r := Recovery(d, wall).writes, j.replacement;
    hide Recovery, Play, Unlogged, Underway;
    AlmostDone(d, audit, id, j, wall);
    LoggedBySecond(Play(d, ws[..|ws| - 1]), audit, id, j, wall, last);
    var one := [Entry(r, id, wall)];
    assert one + [Entry(r, id, last)] == [Entry(r, id, wall), Entry(r, id, last)];
    assert one[0].status == r.Status(wall);
  }

  /** The instant before the journal is removed. */
  lemma LastInstant(d: Disk, c: Call, wall: Time)
    requires Inv(d) && d.journals == map[] && c.Rotate? && Fresh(d, c)
    requires RotatePlan(d, c, wall).failure.None?
    ensures c.ref in d.records && RotatePlan(d, c, wall).writes != []
    ensures var ws, f := RotatePlan(d, c, wall).writes, Committed(d, c);
            var j, rest := RotationJournal(d.records[c.ref], c), Recovery(f, wall).writes;
            && Underway(f, d.audit, c.rotationId, j, []) && f.journals == map[c.rotationId := j]
            && rest != [] && Play(d, ws[..|ws| - 1]) == Play(f, rest[..|rest| - 1])
  {
    FirstWrite(d, c, wall);
    hide Inv, RotatePlan, Play, Recovery, Fresh, Committed, RotationJournal, ForwardWrites, Underway, Settled;
    var k := |RotatePlan(d, c, wall).writes| - 1;
    CommitIsUnderway(d, c, wall, k);
    assert k - 2 == |Recovery(Committed(d, c), wall).writes| - 1;
  }

  /** Killed just before it removes its journal, a rotation is logged once more by the next recovery
      exactly when the replacement's status has changed in between. */
  lemma RotationIsLoggedAgain(d: Disk, c: Call, wall: Time, last: Time)
    requires Inv(d) && d.journals == map[] && c.Rotate? && Fresh(d, c) && Unlogged(d.audit, c.rotationId)
    requires RotatePlan(d, c, wall).failure.None?
    ensures c.ref in d.records && RotatePlan(d, c, wall).writes != []
    ensures LogAfter(d, c, wall, |RotatePlan(d, c, wall).writes| - 1, [], last) ==
              d.audit + TwoReadings(Replacement(d.records[c.ref], c), c.rotationId, wall, last)
  {
    LastInstant(d, c, wall);
    CommittedDisk(d, c);
    hide Inv, RotatePlan, Play, Recovery, Unlogged, Fresh, Committed, RotationJournal, Replacement, ForwardWrites,
         Underway, LogRecovered, Settled, TwoReadings;
    LoggedAgain(Committed(d, c), d.audit, c.rotationId, RotationJournal(d.records[c.ref], c), wall, last);
  }

  function TwoReadings(r: Record, id: Id, wall: Time, last: Time): seq<Event> {
    if r.Status(wall) == r.Status(last) then [Entry(r, id, wall)] else [Entry(r, id, wall), Entry(r, id, last)]
  }

  lemma LastWrite(d: Disk, id: Id, wall: Time)
    requires id in d.journals && d.journals[id].oldRef in d.records
    ensures |ForwardWrites(d, id, wall)| >= 1
  {
  }
}
