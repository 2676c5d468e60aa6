/** Why an update is not committed: every outcome on record has its cause in the run. */
module LauncherCauses {
  import opened Collections
  import opened Outcomes
  import opened ServiceProtocol
  import opened LauncherWorld
  import opened LauncherSteps
  import opened LauncherInvariant
  import opened LauncherRuns

  /** The return to the previous version a position is part of. */
  function Carries(pc: Pc): Option<Rollback> {
    match pc
    case Terminating(_, ThenRestore(r)) => Some(r)
    case BackupAbort(p) => Some(Rollback(p, Failed, DbBackupFailed))
    case RestoreEntry(r) => Some(r)
    case RestoreMark(r) => Some(r)
    case RestoreCopy(r, _, _) => Some(r)
    case WriteOutcome(r) => Some(r)
    case _ => None
  }

  function CarriedBy(w: World): Option<Rollback> {
    if w.launcher.Some? then Carries(w.launcher.value.pc) else None
  }

  /** An operation of the backup throws, or the file it is to copy is absent: the main file,
      or one that was there when its copy began. */
  predicate BackupBreaks(w: World, pc: Pc, p: Pending, o: Oracle) {
    match pc
    case BackupEntry(q) => q == p && o.fails
    case BackupClean(q) => q == p && o.fails
    case BackupCopy(q, i, begun) =>
      && q == p && i < SUFFIX_COUNT
      && (o.fails || (FileOf(p.dbPath, SuffixAt(i)) !in w.disk.files && (begun || SuffixAt(i) == Main)))
    case BackupRename(q) => q == p && o.fails
    case _ => false
  }

  /** The transition taken is the attached trial's own event `e`. */
  predicate TrialEvent(m: Memory, p: Pending, e: Event) {
    && m.child.Some? && m.child.value.role == Trial
    && m.state.IsPending() && m.state.PendingUpdate() == p
    && m.queue != [] && m.queue[0] == e
  }

  /** What may end an update without committing it, each reason at its own position: an
      interrupted restore or a missing runtime is found by recovery; the backup breaks; the
      trial cannot be spawned; or the trial reports another update, takes too long or exits. */
  ghost predicate Causes(w: World, l: Label, r: Rollback)
    requires Enabled(w, l)
  {
    && w.launcher.Some?
    && (var m := w.launcher.value;
        var p := r.pending;
        match r.reason
        case NoReason => false
        case RollbackInterrupted =>
          && r.status == Failed && l.Advance? && m.pc == Recovering && IsRecorded(w, p)
          && p.id in w.disk.backups && w.disk.backups[p.id].marker
        case TargetRuntimeMissing =>
          r.status == Failed && l.Advance? && m.pc == Recovering && IsRecorded(w, p) && !l.oracle.runtime
        case DbBackupFailed => r.status == Failed && l.Advance? && BackupBreaks(w, m.pc, p, l.oracle)
        case CandidateStartFailed =>
          r.status == Failed && l.Advance? && m.pc == SpawnTrial(p) && (!l.oracle.runtime || l.oracle.fails)
        case InvalidPrepared =>
          && r.status == RolledBack && l.Take? && m.child.Some? && m.queue[0].FromChild? && m.queue[0].message.Prepared?
          && TrialEvent(m, p, FromChild(m.child.value.pid, m.queue[0].message))
          && (m.queue[0].message.updateId != p.id || m.child.value.version != p.target)
        case PreparedTimeout =>
          r.status == RolledBack && l.Take? && m.child.Some? && TrialEvent(m, p, PreparedTimedOut(m.child.value.pid))
        case CandidateExited =>
          r.status == RolledBack && l.Take? && m.child.Some? && TrialEvent(m, p, Exited(m.child.value.pid)))
  }

  // ---------------------------------------------------------------- each step that turns back has its cause

  /** Where a step arrives, it was already on its way back for the same reason, or this step
      is the cause. */
  ghost predicate Accounted(w: World, l: Label, w': World)
    requires Enabled(w, l)
  {
    CarriedBy(w').Some? ==> CarriedBy(w) == CarriedBy(w') || Causes(w, l, CarriedBy(w').value)
  }

  lemma HandleAccounted(w: World, o: Oracle)
    requires Enabled(w, Take(o))
    ensures Accounted(w, Take(o), Effect(w, Take(o)))
  {
    var m := w.launcher.value;
    match m.queue[0]
    case FromChild(pid, RequestUpdate(target, dbPath)) =>
    case FromChild(pid, Prepared(id)) =>
    case Exited(pid) =>
    case PreparedTimedOut(pid) =>
    case HandOff(pid) =>
    case _ =>
  }

  // Where each operation turns.

  lemma BackupEnteredTurns(w: World, m: Memory, p: Pending, o: Oracle)
    requires w.launcher == Some(m) && m.pc == BackupEntry(p)
    ensures CarriedBy(BackupEntered(w, m, p, o)) == if o.fails then Some(Rollback(p, Failed, DbBackupFailed)) else None
  {
  }

  lemma BackupCleanedTurns(w: World, m: Memory, p: Pending, o: Oracle)
    requires w.launcher == Some(m) && m.pc == BackupClean(p)
    ensures CarriedBy(BackupCleaned(w, m, p, o)) == if o.fails then Some(Rollback(p, Failed, DbBackupFailed)) else None
  {
  }

  lemma BackupCopiedTurns(w: World, m: Memory, p: Pending, i: nat, begun: bool, o: Oracle)
    requires w.launcher == Some(m) && m.pc == BackupCopy(p, i, begun) && p.id in w.disk.staging
    ensures CarriedBy(BackupCopied(w, m, p, i, begun, o)) == if BackupBreaks(w, m.pc, p, o) then Some(Rollback(p, Failed, DbBackupFailed)) else None
  {
  }

  lemma BackupRenamedTurns(w: World, m: Memory, p: Pending, o: Oracle)
    requires w.launcher == Some(m) && m.pc == BackupRename(p) && p.id in w.disk.staging
    ensures CarriedBy(BackupRenamed(w, m, p, o)) == if o.fails then Some(Rollback(p, Failed, DbBackupFailed)) else None
  {
  }

  lemma BackupAbortedTurns(w: World, m: Memory, p: Pending, o: Oracle)
    requires w.launcher == Some(m) && m.pc == BackupAbort(p)
    ensures CarriedBy(BackupAborted(w, m, p, o)) == Some(Rollback(p, Failed, DbBackupFailed))
  {
  }

  lemma RestoreEnteredTurns(w: World, m: Memory, r: Rollback, o: Oracle)
    requires w.launcher == Some(m) && m.pc == RestoreEntry(r) && m.child.None?
    ensures CarriedBy(RestoreEntered(w, m, r, o)) == if o.fails then None else Some(r)
  {
  }

  lemma RestoreMarkedTurns(w: World, m: Memory, r: Rollback, o: Oracle)
    requires w.launcher == Some(m) && m.pc == RestoreMark(r) && m.child.None? && r.pending.id in w.disk.backups
    ensures CarriedBy(RestoreMarked(w, m, r, o)) == if o.fails then None else Some(r)
  {
  }

  lemma RestoreCopiedTurns(w: World, m: Memory, r: Rollback, i: nat, begun: bool, o: Oracle)
    requires w.launcher == Some(m) && m.pc == RestoreCopy(r, i, begun) && m.child.None?
    ensures CarriedBy(RestoreCopied(w, m, r, i, begun, o)) == if o.fails then None else Some(r)
  {
  }

  lemma TerminatedTurns(w: World, m: Memory, pid: nat, after: After)
    requires w.launcher == Some(m) && m.pc == Terminating(pid, after)
    ensures CarriedBy(Terminated(w, m, pid, after)) == Carries(m.pc)
  {
  }

  lemma TrialSpawnedTurns(w: World, m: Memory, p: Pending, o: Oracle)
    requires w.launcher == Some(m) && m.pc == SpawnTrial(p)
    ensures CarriedBy(TrialSpawned(w, m, p, o)) == if !m.stopping && (!o.runtime || o.fails) then Some(Rollback(p, Failed, CandidateStartFailed)) else None
  {
  }

  lemma ActiveSpawnedTurns(w: World, m: Memory, o: Oracle)
    requires w.launcher == Some(m) && m.pc == SpawnActive
    ensures CarriedBy(ActiveSpawned(w, m, o)) == None
  {
  }

  lemma AttachedTurns(w: World, m: Memory, c: Child)
    requires w.launcher == Some(m) && m.pc == Attaching(c)
    ensures CarriedBy(Attached(w, m, c)) == None
  {
  }

  lemma DiscardedTurns(w: World, m: Memory, id: UpdateId, next: AfterDiscard, o: Oracle)
    requires w.launcher == Some(m) && m.pc == Discarding(id, next)
    ensures CarriedBy(Discarded(w, m, id, next, o)) == None
  {
  }

  lemma RecoveredTurns(w: World, m: Memory, o: Oracle)
    requires w.launcher == Some(m) && m.pc == Recovering && m.child.None?
    ensures CarriedBy(Recovered(w, m, o)).Some? ==> m.state.IsPending()
    ensures CarriedBy(Recovered(w, m, o)).Some? ==>
              var p := m.state.PendingUpdate();
              if p.id in w.disk.backups && w.disk.backups[p.id].marker
              then CarriedBy(Recovered(w, m, o)) == Some(Rollback(p, Failed, RollbackInterrupted))
              else CarriedBy(Recovered(w, m, o)) == Some(Rollback(p, Failed, TargetRuntimeMissing)) && !o.runtime
  {
  }

  lemma WrittenTurns(w: World, m: Memory, o: Oracle)
    requires w.launcher == Some(m)
    requires m.pc.WriteOutcome? || m.pc.WritePending? || m.pc.WriteCommitted? || m.pc.Rejecting? || m.pc.SendAccepted?
             || m.pc.SendCommitted? || m.pc.ClearingMarker?
    ensures CarriedBy(Operate(w, m, o)).None?
  {
    match m.pc
    case WriteOutcome(_) =>
    case WritePending(_, _) =>
    case WriteCommitted(_, _) =>
    case SendAccepted(_) =>
    case _ =>
  }

  lemma BackupAccounted(w: World, h: History, m: Memory, o: Oracle)
    requires Inv(w, h) && w.launcher == Some(m) && Enabled(w, Advance(o))
    requires m.pc.BackupEntry? || m.pc.BackupClean? || m.pc.BackupCopy? || m.pc.BackupRename? || m.pc.BackupAbort?
    ensures Accounted(w, Advance(o), Operate(w, m, o))
  {
    match m.pc
    case BackupEntry(p) => BackupEnteredTurns(w, m, p, o);
    case BackupClean(p) => BackupCleanedTurns(w, m, p, o);
    case BackupCopy(p, i, begun) => BackupCopiedTurns(w, m, p, i, begun, o);
    case BackupRename(p) => BackupRenamedTurns(w, m, p, o);
    case BackupAbort(p) => BackupAbortedTurns(w, m, p, o);
  }

  lemma RestoreAccounted(w: World, h: History, m: Memory, o: Oracle)
    requires Inv(w, h) && w.launcher == Some(m) && Enabled(w, Advance(o))
    requires m.pc.RestoreEntry? || m.pc.RestoreMark? || m.pc.RestoreCopy? || m.pc.Terminating?
    ensures Accounted(w, Advance(o), Operate(w, m, o))
  {
    match m.pc
    case RestoreEntry(r) => RestoreEnteredTurns(w, m, r, o);
    case RestoreMark(r) => RestoreMarkedTurns(w, m, r, o);
    case RestoreCopy(r, i, begun) => RestoreCopiedTurns(w, m, r, i, begun, o);
    case Terminating(pid, after) => TerminatedTurns(w, m, pid, after);
  }

  lemma SpawnAccounted(w: World, h: History, m: Memory, o: Oracle)
    requires Inv(w, h) && w.launcher == Some(m) && Enabled(w, Advance(o))
    requires m.pc.Recovering? || m.pc.SpawnTrial? || m.pc.SpawnActive? || m.pc.Attaching? || m.pc.Discarding?
    ensures Accounted(w, Advance(o), Operate(w, m, o))
  {
    match m.pc
    case Recovering => RecoveredTurns(w, m, o);
    case SpawnTrial(p) => TrialSpawnedTurns(w, m, p, o);
    case SpawnActive => ActiveSpawnedTurns(w, m, o);
    case Attaching(c) => AttachedTurns(w, m, c);
    case Discarding(id, next) => DiscardedTurns(w, m, id, next, o);
  }

  lemma OperateAccounted(w: World, h: History, m: Memory, o: Oracle)
    requires Inv(w, h) && w.launcher == Some(m) && Enabled(w, Advance(o))
    ensures Accounted(w, Advance(o), Operate(w, m, o))
  {
    if m.pc.BackupEntry? || m.pc.BackupClean? || m.pc.BackupCopy? || m.pc.BackupRename? || m.pc.BackupAbort? {
      BackupAccounted(w, h, m, o);
    } else if m.pc.RestoreEntry? || m.pc.RestoreMark? || m.pc.RestoreCopy? || m.pc.Terminating? {
      RestoreAccounted(w, h, m, o);
    } else if m.pc.Recovering? || m.pc.SpawnTrial? || m.pc.SpawnActive? || m.pc.Attaching? || m.pc.Discarding? {
      SpawnAccounted(w, h, m, o);
    } else {
      WrittenTurns(w, m, o);
    }
  }

  lemma StepAccounted(w: World, h: History, l: Label)
    requires Inv(w, h) && Enabled(w, l)
    ensures Accounted(w, l, Effect(w, l))
  {
    if l.Take? {
      HandleAccounted(w, l.oracle);
    } else if l.Advance? {
      OperateAccounted(w, h, w.launcher.value, l.oracle);
    } else if w.launcher.Some? && !l.Crash? {
      OthersKeepChild(w, l);
    }
  }

  // ---------------------------------------------------------------- over runs

  /** Step `k` of the run is what turned it back. */
  ghost predicate CauseAt(r: seq<World>, k: nat, rb: Rollback) {
    && k + 1 < |r|
    && exists l :: Enabled(r[k], l) && r[k + 1] == Effect(r[k], l) && Causes(r[k], l, rb)
  }

  /** A step from position `n` on turned the run back. */
  ghost predicate CausedSince(r: seq<World>, n: int, rb: Rollback) {
    exists k: nat :: n <= k && CauseAt(r, k, rb)
  }

  lemma CausedLonger(r: seq<World>, s: seq<World>, n: int, m: int, rb: Rollback)
    requires r <= s && m <= n && CausedSince(r, n, rb)
    ensures CausedSince(s, m, rb)
  {
    var k: nat :| n <= k && CauseAt(r, k, rb);
    assert s[k] == r[k] && s[k + 1] == r[k + 1];
    assert CauseAt(s, k, rb);
  }

  /** The file to be copied is absent. */
  predicate FileAbsent(w: World, p: Pending) {
    && w.launcher.Some? && w.launcher.value.pc.BackupCopy? && w.launcher.value.pc.pending == p
    && w.launcher.value.pc.i < SUFFIX_COUNT
    && FileOf(p.dbPath, SuffixAt(w.launcher.value.pc.i)) !in w.disk.files
    && (w.launcher.value.pc.begun || SuffixAt(w.launcher.value.pc.i) == Main)
  }

  ghost predicate AbsentSince(r: seq<World>, n: int, p: Pending) {
    exists k: nat :: n <= k < |r| && FileAbsent(r[k], p)
  }

  lemma AbsentLonger(r: seq<World>, s: seq<World>, n: int, m: int, p: Pending)
    requires r <= s && m <= n
    ensures AbsentSince(r, n, p) ==> AbsentSince(s, m, p)
  {
    if AbsentSince(r, n, p) {
      var k: nat :| n <= k < |r| && FileAbsent(r[k], p);
      assert s[k] == r[k];
    }
  }

  /** Wherever a run is on its way back, some step turned it back, and it has been on its way
      since. */
  lemma {:induction false} TurnedBack(r: seq<World>, j: nat) returns (k: nat)
    requires IsRun(r) && j < |r| && CarriedBy(r[j]).Some?
    ensures k < j && CauseAt(r, k, CarriedBy(r[j]).value)
    ensures forall i | k < i <= j :: CarriedBy(r[i]) == CarriedBy(r[j])
    decreases j
  {
    assert j > 0;
    if CarriedBy(r[j - 1]) == CarriedBy(r[j]) {
      k := TurnedBack(r, j - 1);
    } else {
      k := j - 1;
      TurnsAt(r, j);
    }
  }

  lemma TurnedBackSince(r: seq<World>, n: nat)
    requires IsRun(r) && n < |r| && CarriedBy(r[n]).None? && CarriedBy(r[|r| - 1]).Some?
    ensures CausedSince(r, n, CarriedBy(r[|r| - 1]).value)
  {
    var k := TurnedBack(r, |r| - 1);
  }

  lemma TurnsAt(r: seq<World>, j: nat)
    requires IsRun(r) && 1 <= j < |r| && CarriedBy(r[j]).Some? && CarriedBy(r[j - 1]) != CarriedBy(r[j])
    ensures CauseAt(r, j - 1, CarriedBy(r[j]).value)
  {
    InvAt(r, j - 1);
    assert StepAt(r, j);
    var l: Label :| Enabled(r[j - 1], l) && r[j] == Effect(r[j - 1], l);
    StepAccounted(r[j - 1], HistoryAt(r, j - 1), l);
  }

  /** While it is, the update is on record as pending. */
  lemma CarriedIsRecorded(r: seq<World>, j: nat)
    requires IsRun(r) && j < |r| && CarriedBy(r[j]).Some?
    ensures IsRecorded(r[j], CarriedBy(r[j]).value.pending)
  {
    InvAt(r, j);
  }

  lemma OutcomeIsCarried(r: seq<World>, j: nat)
    requires IsRun(r) && 1 <= j < |r| && RecordAt(r, j) != RecordAt(r, j - 1)
    requires RecordAt(r, j).update.Some? && RecordAt(r, j).update.value.Finished?
    requires RecordAt(r, j).update.value.status != Committed
    ensures RecordAt(r, j - 1).IsPending()
    ensures var u := RecordAt(r, j).update.value;
            CarriedBy(r[j - 1]) == Some(Rollback(RecordAt(r, j - 1).PendingUpdate(), u.status, u.reason))
  {
    ChangedByWriter(r, j);
    InvAt(r, j - 1);
  }

  /** No update fails or is rolled back without a cause: between its pending record and its
      outcome lies the step that is the cause of the reason on record, and from that step on
      the launcher was on its way back with the update still pending. */
  lemma OutcomeHasCause(r: seq<World>, j: nat) returns (k: nat)
    requires IsRun(r) && 1 <= j < |r| && RecordAt(r, j) != RecordAt(r, j - 1)
    requires RecordAt(r, j).update.Some? && RecordAt(r, j).update.value.Finished?
    requires RecordAt(r, j).update.value.status != Committed
    ensures RecordAt(r, j - 1).IsPending() && k < j - 1
    ensures var u := RecordAt(r, j).update.value;
            CauseAt(r, k, Rollback(RecordAt(r, j - 1).PendingUpdate(), u.status, u.reason))
    ensures forall i | k < i < j :: RecordAt(r, i).update == RecordAt(r, j - 1).update
  {
    OutcomeIsCarried(r, j);
    k := TurnedBack(r, j - 1);
    forall i | k < i < j ensures RecordAt(r, i).update == RecordAt(r, j - 1).update {
      CarriedIsRecorded(r, i);
      CarriedIsRecorded(r, j - 1);
    }
  }
}
