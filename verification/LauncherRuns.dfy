/** What the update protocol guarantees at every position of every run, with any number
    of crashes between any two durable steps. */
module LauncherRuns {
  import opened Outcomes
  import opened ServiceProtocol
  import opened LauncherWorld
  import opened LauncherSteps
  import opened LauncherInvariant
  import opened LauncherOperations
  import RH = RecordHistory

  /** A machine on which no launcher runs: any decodable record, any leftovers of updates
      other than the recorded one. */
  ghost predicate Init(w: World) {
    && w.launcher.None? && w.alive == map[]
    && Decodes(w.disk.record)
    && RH.Ids(w.disk.record) <= w.issued
    && w.disk.backups.Keys <= w.issued
    && (w.disk.record.IsPending() ==> w.disk.record.PendingUpdate().id !in w.disk.backups)
  }

  ghost predicate StepAt(r: seq<World>, j: nat)
    requires 1 <= j < |r|
  {
    Step(r[j - 1], r[j])
  }

  ghost predicate IsRun(r: seq<World>) {
    && r != [] && Init(r[0])
    && forall j {:trigger StepAt(r, j)} | 1 <= j < |r| :: StepAt(r, j)
  }

  function HistoryAt(r: seq<World>, j: nat): History
    requires j < |r|
  {
    if j == 0 then History(r[0].disk.files, map[], RH.Ids(r[0].disk.record), Recording(map[], r[0].disk.record))
    else Observe(HistoryAt(r, j - 1), r[j - 1], r[j])
  }

  lemma {:induction false} InvAt(r: seq<World>, j: nat)
    requires IsRun(r) && j < |r|
    ensures Inv(r[j], HistoryAt(r, j))
  {
    if j > 0 {
      InvAt(r, j - 1);
      assert StepAt(r, j);
      KeepStep(r[j - 1], HistoryAt(r, j - 1), r[j]);
    }
  }

  function RecordAt(r: seq<World>, j: nat): ServiceState
    requires j < |r|
  {
    r[j].disk.record
  }

  /** The launcher only ever writes records that a later launcher can read. */
  lemma RecordAlwaysDecodes(r: seq<World>, j: nat)
    requires IsRun(r) && j < |r|
    ensures Decodes(RecordAt(r, j))
    ensures r[j].launcher.None? ==> Enabled(r[j], Restart)
  {
    InvAt(r, j);
  }

  // ---------------------------------------------------------------- what a version left behind

  predicate DiesAt(r: seq<World>, k: nat, v: Version)
    requires k + 1 < |r|
  {
    v in Died(r[k], r[k + 1])
  }

  /** The files the processes of version `v` left, as of position `j`. */
  function LeftAt(r: seq<World>, j: nat, v: Version): Files
    requires j < |r|
  {
    LeftBy(HistoryAt(r, j), v)
  }

  /** They are the live files at the last step in which a process of that version died,
      or those the run began with. */
  lemma {:induction false} LeftAtMeaning(r: seq<World>, j: nat, v: Version) returns (k: int)
    requires j < |r|
    ensures -1 <= k < j
    ensures k >= 0 ==> DiesAt(r, k, v) && LeftAt(r, j, v) == r[k].disk.files
    ensures k < 0 ==> LeftAt(r, j, v) == r[0].disk.files
    ensures forall i | k < i < j :: !DiesAt(r, i, v)
  {
    if j == 0 {
      k := -1;
    } else if DiesAt(r, j - 1, v) {
      k := j - 1;
    } else {
      k := LeftAtMeaning(r, j - 1, v);
    }
  }

  // ---------------------------------------------------------------- the state record

  function Records(r: seq<World>): (ss: seq<ServiceState>)
    ensures |ss| == |r| && forall j | 0 <= j < |r| :: ss[j] == RecordAt(r, j)
  {
    seq(|r|, j requires 0 <= j < |r| => RecordAt(r, j))
  }

  predicate WritesRecord(pc: Pc) {
    pc.WriteOutcome? || pc.WritePending? || pc.WriteCommitted?
  }

  lemma OtherOperationsKeepRecord(w: World, m: Memory, o: Oracle)
    requires !WritesRecord(m.pc)
    ensures Operate(w, m, o).disk.record == w.disk.record
  {
    match m.pc
    case Recovering =>
    case Terminating(_, _) =>
    case BackupClean(_) =>
    case BackupCopy(_, _, _) =>
    case BackupRename(_) =>
    case RestoreMark(_) =>
    case RestoreCopy(_, _, _) =>
    case Discarding(_, _) =>
    case _ =>
  }

  lemma OnlyWritersWrite(w: World, l: Label)
    requires Enabled(w, l) && !(l.Advance? && WritesRecord(w.launcher.value.pc))
    ensures Effect(w, l).disk.record == w.disk.record
  {
    if l.Advance? {
      OtherOperationsKeepRecord(w, w.launcher.value, l.oracle);
    }
  }

  /** What a write of the record leaves on disk, whether or not it throws. */
  function Next(m: Memory): ServiceState
    requires WritesRecord(m.pc)
  {
    match m.pc
    case WriteOutcome(r) => OutcomeRecord(r)
    case WritePending(p, _) => m.state.(update := Some(InProgress(p)))
    case WriteCommitted(p, _) => CommittedRecord(p)
  }

  lemma WriterWrites(w: World, m: Memory, o: Oracle)
    requires WritesRecord(m.pc)
    ensures var s' := Operate(w, m, o).disk.record; s' == w.disk.record || s' == Next(m)
  {
    match m.pc
    case WriteOutcome(_) =>
    case WritePending(_, _) =>
    case WriteCommitted(_, _) =>
  }

  lemma WriterStep(w: World, h: History, m: Memory)
    requires Inv(w, h) && w.launcher == Some(m) && WritesRecord(m.pc)
    ensures RH.Changes(w.disk.record, Next(m))
    ensures Next(m).IsPending() ==> Next(m).PendingUpdate().id !in h.seen
  {
    assert m.state == w.disk.record;
  }

  lemma RecordStep(r: seq<World>, j: nat)
    requires IsRun(r) && 1 <= j < |r|
    ensures var s, s' := RecordAt(r, j - 1), RecordAt(r, j);
            s' == s || (RH.Changes(s, s') && (s'.IsPending() ==> s'.PendingUpdate().id !in HistoryAt(r, j - 1).seen))
  {
    InvAt(r, j - 1);
    assert StepAt(r, j);
    var w := r[j - 1];
    var l: Label :| Enabled(w, l) && r[j] == Effect(w, l);
    if l.Advance? && WritesRecord(w.launcher.value.pc) {
      WriterWrites(w, w.launcher.value, l.oracle);
      WriterStep(w, HistoryAt(r, j - 1), w.launcher.value);
    } else {
      OnlyWritersWrite(w, l);
    }
  }

  lemma {:induction false} Seen(r: seq<World>, i: nat, j: nat)
    requires i <= j < |r|
    ensures RH.Ids(RecordAt(r, i)) <= HistoryAt(r, j).seen
    decreases j
  {
    if i < j {
      Seen(r, i, j - 1);
    }
  }

  lemma FreshAt(r: seq<World>, j: nat)
    requires 1 <= j < |r| && RecordAt(r, j).IsPending()
    requires RecordAt(r, j).PendingUpdate().id !in HistoryAt(r, j - 1).seen
    ensures RH.FreshAt(Records(r), j)
  {
    forall i | 0 <= i < j
      ensures RH.Ids(Records(r)[i]) !! RH.Ids(Records(r)[j])
    {
      Seen(r, i, j - 1);
    }
  }

  /** The durable records of a run, crashes and all, form a lawful history. */
  lemma RunRecords(r: seq<World>)
    requires IsRun(r)
    ensures RH.Lawful(Records(r))
  {
    forall j | 0 <= j < |r|
      ensures Decodes(Records(r)[j])
      ensures j > 0 ==> Records(r)[j] == Records(r)[j - 1] || RH.Changes(Records(r)[j - 1], Records(r)[j])
      ensures j > 0 && Records(r)[j] != Records(r)[j - 1] && Records(r)[j].IsPending() ==> RH.FreshAt(Records(r), j)
    {
      RecordAlwaysDecodes(r, j);
      if j > 0 {
        RecordStep(r, j);
        if Records(r)[j] != Records(r)[j - 1] && Records(r)[j].IsPending() {
          FreshAt(r, j);
        }
      }
    }
  }

  // ---------------------------------------------------------------- starting children

  lemma ChangedByWriter(r: seq<World>, j: nat)
    requires IsRun(r) && 1 <= j < |r| && RecordAt(r, j) != RecordAt(r, j - 1)
    ensures r[j - 1].launcher.Some? && WritesRecord(r[j - 1].launcher.value.pc)
    ensures RecordAt(r, j) == Next(r[j - 1].launcher.value)
  {
    var w := r[j - 1];
    assert StepAt(r, j);
    var l: Label :| Enabled(w, l) && r[j] == Effect(w, l);
    if l.Advance? && WritesRecord(w.launcher.value.pc) {
      WriterWrites(w, w.launcher.value, l.oracle);
    } else {
      OnlyWritersWrite(w, l);
    }
  }

  /** An update becomes pending only while nothing is pending and the active child that asked
      for it is still attached; its target is newer and its database path absolute. */
  lemma UpdateIsRequested(r: seq<World>, j: nat)
    requires IsRun(r) && 1 <= j < |r| && RecordAt(r, j) != RecordAt(r, j - 1) && RecordAt(r, j).IsPending()
    ensures var s := RecordAt(r, j - 1);
            var p := RecordAt(r, j).PendingUpdate();
            && !s.IsPending() && p.from == s.active && RecordAt(r, j).active == s.active
            && Compare(p.target, p.from) > 0 && IsAbsolute(p.dbPath)
            && r[j - 1].launcher.Some? && r[j - 1].launcher.value.child.Some?
            && r[j - 1].launcher.value.child.value.role == Active
            && r[j - 1].launcher.value.child.value.version == p.from
  {
    ChangedByWriter(r, j);
    InvAt(r, j - 1);
  }

  predicate IsCommitted(s: ServiceState) {
    s.update.Some? && s.update.value.Finished? && s.update.value.status == Committed
  }

  lemma ActiveChanged(r: seq<World>, j: nat)
    requires IsRun(r) && 1 <= j < |r| && RecordAt(r, j).active != RecordAt(r, j - 1).active
    ensures IsCommitted(RecordAt(r, j))
  {
    RunRecords(r);
    RH.OnlyCommitRaises(Records(r), j);
  }

  /** The active version changes, and an update is committed, only while the trial child
      that reported it is still attached, and the record then selects its target. */
  lemma CommitIsOfAttachedTrial(r: seq<World>, j: nat)
    requires IsRun(r) && 1 <= j < |r|
    requires || RecordAt(r, j).active != RecordAt(r, j - 1).active
             || (RecordAt(r, j) != RecordAt(r, j - 1) && IsCommitted(RecordAt(r, j)))
    ensures RecordAt(r, j - 1).IsPending()
    ensures var p := RecordAt(r, j - 1).PendingUpdate();
            && RecordAt(r, j) == CommittedRecord(p) && Compare(p.target, RecordAt(r, j - 1).active) > 0
            && r[j - 1].launcher.Some? && r[j - 1].launcher.value.child.Some?
            && r[j - 1].launcher.value.child.value.role == Trial
            && r[j - 1].launcher.value.child.value.version == p.target
  {
    if RecordAt(r, j).active != RecordAt(r, j - 1).active {
      ActiveChanged(r, j);
    }
    ChangedByWriter(r, j);
    InvAt(r, j - 1);
  }

  /** Step `j` starts a process of version `v`. */
  predicate StartsAt(r: seq<World>, j: nat, v: Version)
    requires 1 <= j < |r|
  {
    exists pid | pid in r[j].alive :: pid !in r[j - 1].alive && r[j].alive[pid] == v
  }

  lemma OnlySpawnsStart(w: World, l: Label, pid: nat)
    requires Enabled(w, l) && pid in Effect(w, l).alive && pid !in w.alive
    ensures l.Advance? && (w.launcher.value.pc.SpawnTrial? || w.launcher.value.pc.SpawnActive?)
  {
  }

  lemma StartStep(w: World, h: History, w': World, pid: nat)
    requires Inv(w, h) && Step(w, w') && pid in w'.alive && pid !in w.alive
    ensures w.alive == map[] && w'.disk == w.disk
    ensures if w.disk.record.IsPending() then
              var p := w.disk.record.PendingUpdate();
              w'.alive[pid] == p.target && p.id in w.disk.backups && !w.disk.backups[p.id].marker
            else w'.alive[pid] == w.disk.record.active
  {
    var l: Label :| Enabled(w, l) && w' == Effect(w, l);
    OnlySpawnsStart(w, l, pid);
  }

  /** A step that starts a process finds none alive, leaves the disk alone, and starts
      the pending target if its backup is complete, the active version if nothing is
      pending. */
  lemma StartStepAt(r: seq<World>, j: nat, v: Version)
    requires IsRun(r) && 1 <= j < |r| && StartsAt(r, j, v)
    ensures r[j - 1].alive == map[] && r[j].disk == r[j - 1].disk
    ensures var s := RecordAt(r, j - 1);
            if s.IsPending() then
              var p := s.PendingUpdate();
              v == p.target && p.id in r[j].disk.backups && !r[j].disk.backups[p.id].marker
            else v == s.active
  {
    InvAt(r, j - 1);
    assert StepAt(r, j);
    var pid :| pid in r[j].alive && pid !in r[j - 1].alive && r[j].alive[pid] == v;
    StartStep(r[j - 1], HistoryAt(r, j - 1), r[j], pid);
  }

  /** No step ever starts a version older than one that was active before: in particular
      none older than a committed update. */
  lemma NeverStartsOlder(r: seq<World>, i: nat, j: nat, v: Version)
    requires IsRun(r) && i < j < |r| && StartsAt(r, j, v)
    ensures Compare(RecordAt(r, i).active, v) <= 0
  {
    StartStepAt(r, j, v);
    RunRecords(r);
    RH.ActiveNeverDecreases(Records(r), i, j - 1);
    NotOlder(RecordAt(r, i).active, RecordAt(r, j - 1), v);
  }

  lemma NotOlder(a: Version, s: ServiceState, v: Version)
    requires Decodes(s) && Compare(a, s.active) <= 0
    requires v == s.active || (s.IsPending() && v == s.PendingUpdate().target)
    ensures Compare(a, v) <= 0
  {
    CompareOrder(v, s.active, s.active);
    CompareOrder(a, s.active, v);
  }

  // ---------------------------------------------------------------- rollback restores the database

  /** The database path remembered for an update is the one it was recorded with. */
  lemma {:induction false} PathRemembered(r: seq<World>, i: nat, j: nat)
    requires RH.Lawful(Records(r)) && i <= j < |r| && RecordAt(r, i).IsPending()
    ensures var p := RecordAt(r, i).PendingUpdate();
            p.id in HistoryAt(r, j).paths && HistoryAt(r, j).paths[p.id] == p.dbPath
    decreases j
  {
    if i < j {
      PathRemembered(r, i, j - 1);
      if RecordAt(r, j).IsPending() && RecordAt(r, j).PendingUpdate().id == RecordAt(r, i).PendingUpdate().id {
        RH.PendingOnce(Records(r), i, j);
      }
    }
  }

  /** The record at `j` says that the update pending at `i` was rolled back or failed. */
  predicate RolledBackAt(r: seq<World>, i: nat, j: nat)
    requires i < |r| && j < |r|
  {
    var u := RecordAt(r, j).update;
    && RecordAt(r, i).IsPending()
    && u.Some? && u.value.Finished? && u.value.status != Committed
    && u.value.id == RecordAt(r, i).PendingUpdate().id
  }

  /** After an update was rolled back or failed, as long as no process has been started
      since, the three database files are exactly what the previous version left when its
      last process died: no write of it is lost and no write of a trial survives,
      wherever the launcher crashed. */
  lemma RolledBackDatabase(r: seq<World>, i: nat, j: nat)
    requires IsRun(r) && i <= j < |r| && RolledBackAt(r, i, j) && r[j].alive == map[]
    ensures var p := RecordAt(r, i).PendingUpdate();
            Agree(r[j].disk.files, LeftAt(r, j, p.from), p.dbPath)
  {
    RunRecords(r);
    PathRemembered(r, i, j);
    RH.PendingOnce(Records(r), i, j);
    InvAt(r, j);
  }

  /** The previous version starts again on exactly the database it left. */
  lemma RestartsOnItsOwnDatabase(r: seq<World>, i: nat, j: nat, v: Version)
    requires IsRun(r) && i < j < |r| && RolledBackAt(r, i, j - 1) && StartsAt(r, j, v)
    ensures var p := RecordAt(r, i).PendingUpdate();
            v == p.from && Agree(r[j].disk.files, LeftAt(r, j - 1, v), p.dbPath)
  {
    StartStepAt(r, j, v);
    RolledBackDatabase(r, i, j - 1);
    RunRecords(r);
    RH.NotCommittedKeepsActive(Records(r), i, j - 1);
  }

  lemma VersionsStay(w: World, h: History, l: Label, pid: nat)
    requires Inv(w, h) && Enabled(w, l) && pid in w.alive && pid in Effect(w, l).alive
    ensures Effect(w, l).alive[pid] == w.alive[pid]
  {
  }

  ghost predicate NoneAlive(w: World, v: Version) {
    forall pid | pid in w.alive :: w.alive[pid] != v
  }

  lemma VersionsStayAt(r: seq<World>, k: nat, pid: nat)
    requires IsRun(r) && 1 <= k < |r| && pid in r[k - 1].alive && pid in r[k].alive
    ensures r[k].alive[pid] == r[k - 1].alive[pid]
  {
    InvAt(r, k - 1);
    assert StepAt(r, k);
    var l: Label :| Enabled(r[k - 1], l) && r[k] == Effect(r[k - 1], l);
    VersionsStay(r[k - 1], HistoryAt(r, k - 1), l, pid);
  }

  lemma StillNoneAlive(r: seq<World>, k: nat, v: Version)
    requires IsRun(r) && 1 <= k < |r| && NoneAlive(r[k - 1], v) && !StartsAt(r, k, v)
    ensures NoneAlive(r[k], v)
  {
    forall pid | pid in r[k].alive ensures r[k].alive[pid] != v {
      if pid in r[k - 1].alive {
        VersionsStayAt(r, k, pid);
      }
    }
  }

  lemma NothingLeft(r: seq<World>, k: nat, v: Version)
    requires 1 <= k < |r| && NoneAlive(r[k - 1], v)
    ensures !DiesAt(r, k - 1, v) && LeftAt(r, k, v) == LeftAt(r, k - 1, v)
  {
  }

  /** A version of which nothing is alive or started leaves nothing new behind. */
  lemma {:induction false} LeavesNothing(r: seq<World>, t: nat, k: nat, v: Version)
    requires IsRun(r) && t <= k < |r| && NoneAlive(r[t], v)
    requires forall n | t < n <= k :: !StartsAt(r, n, v)
    ensures NoneAlive(r[k], v) && LeftAt(r, k, v) == LeftAt(r, t, v)
    decreases k
  {
    if t < k {
      LeavesNothing(r, t, k - 1, v);
      StillNoneAlive(r, k, v);
      NothingLeft(r, k, v);
    }
  }

  lemma NoDeathSince(r: seq<World>, t: nat, i: nat, v: Version)
    requires IsRun(r) && 1 <= t <= i + 1 < |r| && r[t - 1].alive == map[] && NoneAlive(r[t], v)
    requires forall n | t < n <= i :: !StartsAt(r, n, v)
    ensures !DiesAt(r, i, v)
  {
    if t <= i {
      LeavesNothing(r, t, i, v);
      NothingLeft(r, i + 1, v);
    }
  }

  /** While a trial starts, nothing of the previous version is alive. */
  lemma TrialStartsAlone(r: seq<World>, t: nat)
    requires IsRun(r) && 1 <= t < |r| && RecordAt(r, t).IsPending()
    requires StartsAt(r, t, RecordAt(r, t).PendingUpdate().target)
    ensures r[t - 1].alive == map[] && NoneAlive(r[t], RecordAt(r, t).PendingUpdate().from)
    ensures LeftAt(r, t, RecordAt(r, t).PendingUpdate().from) == LeftAt(r, t - 1, RecordAt(r, t).PendingUpdate().from)
  {
    var p := RecordAt(r, t).PendingUpdate();
    StartStepAt(r, t, p.target);
    RecordAlwaysDecodes(r, t);
    CompareOrder(p.target, p.from, p.from);
    forall pid | pid in r[t].alive ensures r[t].alive[pid] != p.from {
      assert StartsAt(r, t, r[t].alive[pid]);
      StartStepAt(r, t, r[t].alive[pid]);
    }
  }

  /** What the previous version finds on its first start after a rollback is what it had
      left when the trial, whichever attempt, was started: nothing it wrote before its death
      is lost, and its latest death precedes the first start of the trial. */
  lemma RestartsAsBeforeTheTrial(r: seq<World>, t: nat, j: nat)
    requires IsRun(r) && 1 <= t < j < |r| && RolledBackAt(r, t, j - 1)
    requires StartsAt(r, t, RecordAt(r, t).PendingUpdate().target)
    requires StartsAt(r, j, RecordAt(r, t).PendingUpdate().from)
    requires forall n | t < n < j :: !StartsAt(r, n, RecordAt(r, t).PendingUpdate().from)
    ensures var p := RecordAt(r, t).PendingUpdate();
            && Agree(r[j].disk.files, LeftAt(r, t - 1, p.from), p.dbPath)
            && (forall i | t <= i + 1 < j :: !DiesAt(r, i, p.from))
  {
    var p := RecordAt(r, t).PendingUpdate();
    RestartsOnItsOwnDatabase(r, t, j, p.from);
    TrialStartsAlone(r, t);
    LeavesNothing(r, t, j - 1, p.from);
    forall i | t <= i + 1 < j ensures !DiesAt(r, i, p.from) {
      NoDeathSince(r, t, i, p.from);
    }
  }

  /** A trial starts on a database whose backup is already complete and holds what the
      previous version left. */
  lemma TrialHasBackup(r: seq<World>, j: nat, v: Version)
    requires IsRun(r) && 1 <= j < |r| && StartsAt(r, j, v) && RecordAt(r, j).IsPending()
    ensures var p := RecordAt(r, j).PendingUpdate();
            && v == p.target && p.id in r[j].disk.backups
            && IsSnapshot(r[j].disk.backups[p.id].copies, LeftAt(r, j, p.from), p.dbPath)
  {
    StartStepAt(r, j, v);
    InvAt(r, j);
  }

  /** A trial never boots on a half-restored database: it finds exactly what the previous
      version left, or exactly what the latest process of its own version left. */
  lemma TrialNeverBootsPartialRestore(r: seq<World>, j: nat, v: Version)
    requires IsRun(r) && 1 <= j < |r| && StartsAt(r, j, v) && RecordAt(r, j).IsPending()
    ensures var p := RecordAt(r, j).PendingUpdate();
            || Agree(r[j].disk.files, LeftAt(r, j - 1, p.from), p.dbPath)
            || r[j].disk.files == LeftAt(r, j - 1, p.target)
  {
    StartStepAt(r, j, v);
    InvAt(r, j - 1);
  }

  predicate KeepsCopies(d: Disk, d': Disk, id: UpdateId)
    requires id in d.backups
  {
    id in d'.backups && d'.backups[id].copies == d.backups[id].copies
  }

  /** The awaited operations of backing up and restoring. */
  predicate TouchesDatabase(pc: Pc) {
    pc.BackupClean? || pc.BackupCopy? || pc.BackupRename? || pc.BackupAbort? || pc.RestoreMark? || pc.RestoreCopy?
  }

  predicate SameDatabase(d: Disk, d': Disk) {
    d'.files == d.files && d'.staging == d.staging && d'.backups == d.backups
  }

  lemma OtherOperations(w: World, m: Memory, o: Oracle)
    requires !TouchesDatabase(m.pc) && !m.pc.Discarding?
    ensures SameDatabase(w.disk, Operate(w, m, o).disk)
  {
    match m.pc
    case Recovering =>
    case Terminating(_, _) =>
    case WriteOutcome(_) =>
    case WritePending(_, _) =>
    case WriteCommitted(_, _) =>
    case SpawnTrial(_) =>
    case SpawnActive =>
    case Attaching(_) =>
    case _ =>
  }

  lemma DatabaseOperations(w: World, m: Memory, o: Oracle, id: UpdateId)
    requires TouchesDatabase(m.pc) && !m.pc.BackupRename? && id in w.disk.backups
    ensures KeepsCopies(w.disk, Operate(w, m, o).disk, id)
  {
    match m.pc
    case BackupClean(_) =>
    case BackupCopy(_, _, _) =>
    case BackupAbort(_) =>
    case RestoreMark(_) =>
    case RestoreCopy(_, _, _) =>
  }

  lemma OnlyBackupsChange(w: World, l: Label, id: UpdateId)
    requires Enabled(w, l) && id in w.disk.backups
    requires l.Advance? ==> !w.launcher.value.pc.Discarding? && !w.launcher.value.pc.BackupRename?
    ensures KeepsCopies(w.disk, Effect(w, l).disk, id)
  {
    if l.Advance? {
      if TouchesDatabase(w.launcher.value.pc) {
        DatabaseOperations(w, w.launcher.value, l.oracle, id);
      } else {
        OtherOperations(w, w.launcher.value, l.oracle);
      }
    }
  }

  lemma BackupStep(r: seq<World>, j: nat, id: UpdateId)
    requires IsRun(r) && 1 <= j < |r| && id in r[j - 1].disk.backups
    requires RecordAt(r, j - 1).IsPending() && RecordAt(r, j - 1).PendingUpdate().id == id
    ensures KeepsCopies(r[j - 1].disk, r[j].disk, id)
  {
    InvAt(r, j - 1);
    assert StepAt(r, j);
    var w := r[j - 1];
    var l: Label :| Enabled(w, l) && r[j] == Effect(w, l);
    OnlyBackupsChange(w, l, id);
  }

  /** A completed backup is never overwritten or removed while its update is pending. */
  lemma {:induction false} BackupIsFinal(r: seq<World>, i: nat, j: nat)
    requires IsRun(r) && i <= j < |r|
    requires RecordAt(r, i).IsPending() && RecordAt(r, j) == RecordAt(r, i)
    requires RecordAt(r, i).PendingUpdate().id in r[i].disk.backups
    ensures KeepsCopies(r[i].disk, r[j].disk, RecordAt(r, i).PendingUpdate().id)
    decreases j
  {
    if i < j {
      var id := RecordAt(r, i).PendingUpdate().id;
      RunRecords(r);
      RH.Continuous(Records(r), i, j, id);
      RH.PendingOnce(Records(r), i, j - 1);
      BackupIsFinal(r, i, j - 1);
      BackupStep(r, j, id);
    }
  }

  // ---------------------------------------------------------------- committed for good

  /** The positions at which the launcher is putting an update's backup back. */
  predicate Restoring(w: World, id: UpdateId) {
    w.launcher.Some? &&
    (var pc := w.launcher.value.pc;
     && (pc.RestoreEntry? || pc.RestoreMark? || pc.RestoreCopy? || pc.WriteOutcome?)
     && pc.rollback.pending.id == id)
  }

  /** Once an update's terminal record, committed or not, is durable, no later step, in
      this launcher or after any number of restarts, restores its backup or makes it
      pending again. */
  lemma SettledForGood(r: seq<World>, i: nat, j: nat)
    requires IsRun(r) && i <= j < |r|
    requires RecordAt(r, i).update.Some? && RecordAt(r, i).update.value.Finished?
    ensures !Restoring(r[j], RecordAt(r, i).update.value.id)
    ensures RecordAt(r, j).IsPending() ==> RecordAt(r, j).PendingUpdate().id != RecordAt(r, i).update.value.id
  {
    RunRecords(r);
    RH.SettledStays(Records(r), i, j);
    InvAt(r, j);
  }

  // ---------------------------------------------------------------- mutual exclusion

  /** At most one child process is alive. */
  lemma OneChild(r: seq<World>, j: nat, pid: nat, qid: nat)
    requires IsRun(r) && j < |r| && pid in r[j].alive && qid in r[j].alive
    ensures pid == qid
  {
    InvAt(r, j);
  }

  lemma OnlyTheseTouch(w: World, l: Label)
    requires Enabled(w, l) && !l.Write? && !(l.Advance? && TouchesDatabase(w.launcher.value.pc))
    ensures var d, d' := w.disk, Effect(w, l).disk;
            d'.files == d.files && d'.staging == d.staging && d'.backups.Keys <= d.backups.Keys
  {
    if l.Advance? && !w.launcher.value.pc.Discarding? {
      OtherOperations(w, w.launcher.value, l.oracle);
    }
  }

  /** A step that writes to a staging directory, completes a backup or changes the live
      files, other than a child's own write, happens with no child alive. */
  lemma DatabaseIsQuiescent(r: seq<World>, j: nat, l: Label)
    requires IsRun(r) && j < |r| && Enabled(r[j], l) && !l.Write?
    requires var d, d' := r[j].disk, Effect(r[j], l).disk;
             d'.files != d.files || d'.staging != d.staging || !(d'.backups.Keys <= d.backups.Keys)
    ensures r[j].alive == map[] && l.Advance? && TouchesDatabase(r[j].launcher.value.pc)
  {
    if !(l.Advance? && TouchesDatabase(r[j].launcher.value.pc)) {
      OnlyTheseTouch(r[j], l);
      assert false;
    }
    InvAt(r, j);
  }

  lemma OnlyRestoreWritesFiles(w: World, l: Label)
    requires Enabled(w, l) && !l.Write? && !(l.Advance? && w.launcher.value.pc.RestoreCopy?)
    ensures Effect(w, l).disk.files == w.disk.files
  {
    if l.Advance? {
      FilesKept(w, w.launcher.value, l.oracle);
    }
  }

  lemma FilesKept(w: World, m: Memory, o: Oracle)
    requires !m.pc.RestoreCopy?
    ensures Operate(w, m, o).disk.files == w.disk.files
  {
    if TouchesDatabase(m.pc) || m.pc.Discarding? {
      BackupFilesKept(w, m, o);
    } else {
      OtherOperations(w, m, o);
    }
  }

  lemma BackupFilesKept(w: World, m: Memory, o: Oracle)
    requires (TouchesDatabase(m.pc) && !m.pc.RestoreCopy?) || m.pc.Discarding?
    ensures Operate(w, m, o).disk.files == w.disk.files
  {
    match m.pc
    case BackupClean(p) => assert Operate(w, m, o) == BackupCleaned(w, m, p, o);
    case BackupCopy(p, i, begun) => assert Operate(w, m, o) == BackupCopied(w, m, p, i, begun, o);
    case BackupRename(p) => assert Operate(w, m, o) == BackupRenamed(w, m, p, o);
    case BackupAbort(p) => assert Operate(w, m, o) == BackupAborted(w, m, p, o);
    case RestoreMark(r) => assert Operate(w, m, o) == RestoreMarked(w, m, r, o);
    case Discarding(id, next) => assert Operate(w, m, o) == Discarded(w, m, id, next, o);
  }

  /** The restore marker precedes any change of a live file: a step that is no child's write
      and changes one happens only while the update is recorded as pending and its completed
      backup, of what the previous version left, is marked. */
  lemma MarkerPrecedesRestore(r: seq<World>, j: nat, l: Label)
    requires IsRun(r) && j < |r| && Enabled(r[j], l) && !l.Write?
    requires Effect(r[j], l).disk.files != r[j].disk.files
    ensures RecordAt(r, j).IsPending()
    ensures var p := RecordAt(r, j).PendingUpdate();
            && p.id in r[j].disk.backups && r[j].disk.backups[p.id].marker
            && IsSnapshot(r[j].disk.backups[p.id].copies, LeftAt(r, j, p.from), p.dbPath)
  {
    if !(l.Advance? && r[j].launcher.value.pc.RestoreCopy?) {
      OnlyRestoreWritesFiles(r[j], l);
      assert false;
    }
    InvAt(r, j);
  }

  // ---------------------------------------------------------------- trials and stale events

  /** An attached trial child always has the pending record it is tried for, with its
      backup complete; so the exit of a trial is never without matching pending state. */
  lemma TrialIsPending(r: seq<World>, j: nat)
    requires IsRun(r) && j < |r| && r[j].launcher.Some?
    requires var m := r[j].launcher.value; m.child.Some? && m.child.value.role == Trial
    ensures var m := r[j].launcher.value;
            && m.state == RecordAt(r, j)
            && m.state.IsPending()
            && m.state.PendingUpdate().target == m.child.value.version
            && m.state.PendingUpdate().id in r[j].disk.backups
            && ChildExited(m, m.child.value).pc.RestoreEntry?
  {
    InvAt(r, j);
  }

  /** The process an event speaks of. */
  function Subject(e: Event): Option<nat> {
    match e
    case FromChild(pid, _) => Some(pid)
    case Exited(pid) => Some(pid)
    case PreparedTimedOut(pid) => Some(pid)
    case HandOff(pid) => Some(pid)
    case ChildError(pid) => Some(pid)
    case _ => None
  }

  /** Whatever a replaced child does is ignored, with the one exception the code makes:
      an error event is not checked for identity and ends the launcher. */
  lemma StaleEvents(w: World, o: Oracle)
    requires Enabled(w, Take(o))
    requires var m := w.launcher.value;
             Subject(m.queue[0]).Some? && (m.child.None? || m.child.value.pid != Subject(m.queue[0]).value)
    ensures var m := w.launcher.value;
            var w' := Effect(w, Take(o));
            && w'.disk == w.disk && w'.alive == w.alive
            && (!m.queue[0].ChildError? ==> w'.launcher == Some(m.(queue := m.queue[1..])))
            && (m.queue[0].ChildError? ==> w'.launcher.value.done)
  {
  }

  /** A process once spawned that is neither attached nor about to be. */
  predicate Detached(w: World, pid: nat) {
    && pid < w.nextPid
    && (w.launcher.Some? ==>
          var m := w.launcher.value;
          && (m.child.Some? ==> m.child.value.pid != pid)
          && (m.pc.Attaching? ==> m.pc.child.pid != pid))
  }

  predicate Attaches(pc: Pc) {
    pc.SpawnTrial? || pc.SpawnActive? || pc.Attaching?
  }

  /** No child but the attached one is attached afterwards, and none is about to be. */
  predicate AttachesNone(m: Memory, n: Memory) {
    (n.child.Some? ==> m.child.Some? && n.child.value.pid == m.child.value.pid) && !n.pc.Attaching?
  }

  /** Of the operations that start no child. */
  predicate Spared(w: World, m: Memory, w': World) {
    w'.launcher.Some? && w'.nextPid == w.nextPid && AttachesNone(m, w'.launcher.value)
  }

  lemma RecoveredSpares(w: World, m: Memory, o: Oracle)
    requires w.launcher == Some(m) && !m.pc.Attaching?
    ensures Spared(w, m, Recovered(w, m, o))
  {
  }

  lemma TerminatedSpares(w: World, m: Memory, pid: nat, after: After)
    requires w.launcher == Some(m) && !m.pc.Attaching?
    ensures Spared(w, m, Terminated(w, m, pid, after))
  {
  }

  lemma BackupEnteredSpares(w: World, m: Memory, p: Pending, o: Oracle)
    requires w.launcher == Some(m) && !m.pc.Attaching?
    ensures Spared(w, m, BackupEntered(w, m, p, o))
  {
  }

  lemma BackupCleanedSpares(w: World, m: Memory, p: Pending, o: Oracle)
    requires w.launcher == Some(m) && !m.pc.Attaching?
    ensures Spared(w, m, BackupCleaned(w, m, p, o))
  {
  }

  lemma BackupCopiedSpares(w: World, m: Memory, p: Pending, i: nat, begun: bool, o: Oracle)
    requires w.launcher == Some(m) && !m.pc.Attaching?
    ensures Spared(w, m, BackupCopied(w, m, p, i, begun, o))
  {
  }

  lemma BackupRenamedSpares(w: World, m: Memory, p: Pending, o: Oracle)
    requires w.launcher == Some(m) && !m.pc.Attaching?
    ensures Spared(w, m, BackupRenamed(w, m, p, o))
  {
  }

  lemma BackupAbortedSpares(w: World, m: Memory, p: Pending, o: Oracle)
    requires w.launcher == Some(m) && !m.pc.Attaching?
    ensures Spared(w, m, BackupAborted(w, m, p, o))
  {
  }

  lemma RestoreEnteredSpares(w: World, m: Memory, r: Rollback, o: Oracle)
    requires w.launcher == Some(m) && !m.pc.Attaching?
    ensures Spared(w, m, RestoreEntered(w, m, r, o))
  {
  }

  lemma RestoreMarkedSpares(w: World, m: Memory, r: Rollback, o: Oracle)
    requires w.launcher == Some(m) && !m.pc.Attaching?
    ensures Spared(w, m, RestoreMarked(w, m, r, o))
  {
  }

  lemma RestoreCopiedSpares(w: World, m: Memory, r: Rollback, i: nat, begun: bool, o: Oracle)
    requires w.launcher == Some(m) && !m.pc.Attaching?
    ensures Spared(w, m, RestoreCopied(w, m, r, i, begun, o))
  {
  }

  lemma DiscardedSpares(w: World, m: Memory, id: UpdateId, next: AfterDiscard, o: Oracle)
    requires w.launcher == Some(m) && !m.pc.Attaching?
    ensures Spared(w, m, Discarded(w, m, id, next, o))
  {
  }

  lemma OperateSpares(w: World, m: Memory, o: Oracle)
    requires w.launcher == Some(m) && !Attaches(m.pc)
    ensures Spared(w, m, Operate(w, m, o))
  {
    match m.pc
    case Recovering => RecoveredSpares(w, m, o);
    case Terminating(pid, after) => TerminatedSpares(w, m, pid, after);
    case BackupEntry(p) => BackupEnteredSpares(w, m, p, o);
    case BackupClean(p) => BackupCleanedSpares(w, m, p, o);
    case BackupCopy(p, i, begun) => BackupCopiedSpares(w, m, p, i, begun, o);
    case BackupRename(p) => BackupRenamedSpares(w, m, p, o);
    case BackupAbort(p) => BackupAbortedSpares(w, m, p, o);
    case RestoreEntry(r) => RestoreEnteredSpares(w, m, r, o);
    case RestoreMark(r) => RestoreMarkedSpares(w, m, r, o);
    case RestoreCopy(r, i, begun) => RestoreCopiedSpares(w, m, r, i, begun, o);
    case Discarding(id, next) => DiscardedSpares(w, m, id, next, o);
    case _ => ReportSpares(w, m, o);
  }

  lemma ReportSpares(w: World, m: Memory, o: Oracle)
    requires w.launcher == Some(m)
    requires m.pc.Idle? || m.pc.ClearingMarker? || m.pc.WriteOutcome? || m.pc.WritePending? || m.pc.WriteCommitted?
             || m.pc.Rejecting? || m.pc.SendAccepted? || m.pc.SendCommitted?
    ensures Spared(w, m, Operate(w, m, o))
  {
    match m.pc
    case WriteOutcome(_) =>
    case WritePending(_, _) =>
    case WriteCommitted(_, _) =>
    case SendAccepted(_) =>
    case _ =>
  }

  lemma SpawnDetached(w: World, m: Memory, o: Oracle, pid: nat)
    requires w.launcher == Some(m) && Detached(w, pid) && Attaches(m.pc)
    ensures Detached(Operate(w, m, o), pid)
  {
  }

  lemma HandleAttachesNone(m: Memory, e: Event, o: Oracle)
    requires m.pc == Idle
    ensures AttachesNone(m, Handle(m, e, o))
  {
  }

  lemma TakeDetached(w: World, o: Oracle, pid: nat)
    requires Enabled(w, Take(o)) && pid < w.nextPid
    requires w.launcher.value.child.Some? ==>
               w.launcher.value.child.value.pid != pid || Effect(w, Take(o)).launcher.value.child.None?
    ensures Detached(Effect(w, Take(o)), pid)
  {
    var m := w.launcher.value;
    HandleAttachesNone(m.(queue := m.queue[1..]), m.queue[0], o);
  }

  lemma OperateDetached(w: World, m: Memory, o: Oracle, pid: nat)
    requires w.launcher == Some(m) && Detached(w, pid) && !m.pc.Idle?
    ensures Detached(Operate(w, m, o), pid)
  {
    if Attaches(m.pc) {
      SpawnDetached(w, m, o, pid);
    } else {
      OperateSpares(w, m, o);
    }
  }

  lemma StepDetached(w: World, l: Label, pid: nat)
    requires Enabled(w, l) && Detached(w, pid)
    ensures Detached(Effect(w, l), pid)
  {
    if l.Advance? {
      OperateDetached(w, w.launcher.value, l.oracle, pid);
    } else if l.Take? {
      TakeDetached(w, l.oracle, pid);
    } else if w.launcher.Some? && !l.Crash? {
      OthersKeepChild(w, l);
    }
  }

  lemma {:induction false} DetachedStays(r: seq<World>, i: nat, j: nat, pid: nat)
    requires IsRun(r) && i <= j < |r| && Detached(r[i], pid)
    ensures Detached(r[j], pid)
    decreases j
  {
    if i < j {
      DetachedStays(r, i, j - 1, pid);
      assert StepAt(r, j);
      var l: Label :| Enabled(r[j - 1], l) && r[j] == Effect(r[j - 1], l);
      StepDetached(r[j - 1], l, pid);
    }
  }

  predicate AttachedAt(r: seq<World>, j: nat, pid: nat)
    requires j < |r|
  {
    && r[j].launcher.Some? && r[j].launcher.value.child.Some?
    && r[j].launcher.value.child.value.pid == pid
  }

  lemma ReplacedIsDetached(w: World, h: History, l: Label, pid: nat)
    requires Inv(w, h) && Enabled(w, l) && w.launcher.Some?
    requires w.launcher.value.child.Some? && w.launcher.value.child.value.pid == pid
    requires Effect(w, l).launcher.Some? ==>
               var c := Effect(w, l).launcher.value.child; c.Some? ==> c.value.pid != pid
    ensures Detached(Effect(w, l), pid)
  {
    var m := w.launcher.value;
    assert Attended(m.pc) && pid < w.nextPid;
    if l.Advance? {
      OperateSpares(w, m, l.oracle);
    } else if l.Take? {
      HandleAttachesNone(m.(queue := m.queue[1..]), m.queue[0], l.oracle);
      TakeDetached(w, l.oracle, pid);
    } else if !l.Crash? {
      OthersKeepChild(w, l);
    }
  }

  lemma OthersKeepChild(w: World, l: Label)
    requires Enabled(w, l) && w.launcher.Some? && !l.Advance? && !l.Take? && !l.Crash?
    ensures var w' := Effect(w, l);
            && w'.launcher.Some? && w'.nextPid == w.nextPid
            && w'.launcher.value.child == w.launcher.value.child && w'.launcher.value.pc == w.launcher.value.pc
  {
  }

  /** A child once detached is never attached again, by this launcher or a later one: process
      ids are not used twice. Its events stay those of a replaced child for the rest of the
      run. */
  lemma ReplacedForGood(r: seq<World>, i: nat, j: nat, pid: nat)
    requires IsRun(r) && 1 <= i <= j < |r| && AttachedAt(r, i - 1, pid) && !AttachedAt(r, i, pid)
    ensures !AttachedAt(r, j, pid)
  {
    InvAt(r, i - 1);
    assert StepAt(r, i);
    var l: Label :| Enabled(r[i - 1], l) && r[i] == Effect(r[i - 1], l);
    ReplacedIsDetached(r[i - 1], HistoryAt(r, i - 1), l, pid);
    DetachedStays(r, i, j, pid);
  }

  /** From the moment the queued stop, or a fatal error, has finished, no child is alive
      and none is started until a new launcher runs. */
  lemma {:induction false} StoppedForGood(r: seq<World>, i: nat, j: nat)
    requires IsRun(r) && i <= j < |r|
    requires forall k | i <= k <= j :: r[k].launcher.Some?
    requires r[i].launcher.value.stopping && r[i].launcher.value.pc == Idle
    ensures r[j].launcher.value.stopping && r[j].alive == map[]
    ensures r[j].launcher.value.pc == Idle && r[j].launcher.value.child.None?
    decreases j
  {
    if i < j {
      StoppedForGood(r, i, j - 1);
      StoppedStepAt(r, j);
    }
    StoppedNow(r, j);
  }

  lemma StoppedNow(r: seq<World>, j: nat)
    requires IsRun(r) && j < |r| && r[j].launcher.Some?
    requires r[j].launcher.value.stopping && r[j].launcher.value.pc == Idle
    ensures r[j].alive == map[] && r[j].launcher.value.child.None?
  {
    InvAt(r, j);
  }

  lemma StoppedStepAt(r: seq<World>, j: nat)
    requires IsRun(r) && 1 <= j < |r| && r[j - 1].launcher.Some? && r[j].launcher.Some?
    requires r[j - 1].launcher.value.stopping && r[j - 1].launcher.value.pc == Idle
    ensures r[j].launcher.value.stopping && r[j].launcher.value.pc == Idle
  {
    InvAt(r, j - 1);
    assert StepAt(r, j);
    StoppedStep(r[j - 1], HistoryAt(r, j - 1), r[j]);
  }

  lemma StoppedStep(w: World, h: History, w': World)
    requires Inv(w, h) && Step(w, w') && w.launcher.Some? && w'.launcher.Some?
    requires w.launcher.value.stopping && w.launcher.value.pc == Idle
    ensures w'.launcher.value.stopping && w'.launcher.value.pc == Idle
  {
    var l: Label :| Enabled(w, l) && w' == Effect(w, l);
    if l.Take? {
      assert w.launcher.value.queue[0] in w.launcher.value.queue;
    }
  }
}
