/** Every awaited operation of a transition keeps the invariant, whether it succeeds,
    throws before taking effect or throws afterwards. */
module LauncherOperations {
  import opened Collections
  import opened Outcomes
  import opened ServiceProtocol
  import Text
  import opened LauncherWorld
  import opened LauncherSteps
  import opened LauncherInvariant
  import opened RecordHistory
  import opened LauncherPreservation

  /** A running transition, before one of its awaited operations. */
  ghost predicate At(w: World, m: Memory, h: History) {
    Inv(w, h) && w.launcher == Some(m) && m.pc != Idle
  }

  /** The positions that run with no process alive. */
  predicate Deserted(pc: Pc) {
    !Attended(pc) && !pc.Terminating? && !pc.Attaching?
  }

  /** Going on to the next position without touching durable data or processes. */
  lemma Moved(w: World, h: History, m: Memory, w': World, m': Memory)
    requires At(w, m, h) && !m.stopping && SameData(w, w')
    requires w'.launcher == Some(m') && m' == m.(pc := m'.pc)
    requires Owned(m) == Owned(m') && (m.child.Some? ==> Attended(m'.pc))
    requires PcInv(w, m', h)
    ensures Inv(w', Observe(h, w, w'))
  {
    QuietHistory(h, w, w');
    DurableFrame(w, w', h);
    PcFrame(w, m', w', m', h);
  }

  /** Throwing, possibly after the record or a backup changed on disk. */
  lemma Thrown(w: World, h: History, m: Memory, w': World)
    requires At(w, m, h) && !m.stopping && !m.pc.Terminating? && !m.pc.Attaching?
    requires w'.launcher == Some(Throw(m)) && w'.alive == w.alive && w'.nextPid == w.nextPid
    requires DurableInv(w', Observe(h, w, w'))
    ensures Inv(w', Observe(h, w, w'))
  {
  }

  lemma ThrownAtOnce(w: World, h: History, m: Memory)
    requires At(w, m, h) && !m.stopping && !m.pc.Terminating? && !m.pc.Attaching?
    ensures var w' := Running(w, Throw(m)); Inv(w', Observe(h, w, w'))
  {
    var w' := Running(w, Throw(m));
    QuietHistory(h, w, w');
    DurableFrame(w, w', h);
    Thrown(w, h, m, w');
  }

  /** Writing to the staging directory, which no other part of the state refers to. */
  lemma Staged(w: World, h: History, m: Memory, w': World, m': Memory)
    requires At(w, m, h) && !m.stopping && Deserted(m.pc)
    requires w'.launcher == Some(m') && m' == m.(pc := m'.pc) && Deserted(m'.pc)
    requires w' == w.(launcher := w'.launcher, disk := w.disk.(staging := w'.disk.staging))
    requires PcInv(w', m', h)
    ensures Inv(w', Observe(h, w, w'))
  {
    QuietHistory(h, w, w');
  }

  // ---------------------------------------------------------------- recovery and termination

  lemma KeepClearing(w: World, h: History, m: Memory, o: Oracle)
    requires At(w, m, h) && m.pc == ClearingMarker
    ensures var w' := Operate(w, m, o); Inv(w', Observe(h, w, w'))
  {
    var w' := Operate(w, m, o);
    Moved(w, h, m, w', w'.launcher.value);
  }

  lemma KeepRecovered(w: World, h: History, m: Memory, o: Oracle)
    requires At(w, m, h) && m.pc == Recovering
    ensures var w' := Recovered(w, m, o); Inv(w', Observe(h, w, w'))
  {
    var w' := Recovered(w, m, o);
    if m.state.IsPending() {
      assert IsRecorded(w, m.state.PendingUpdate());
      if o.fails {
        ThrownAtOnce(w, h, m);
        return;
      }
    }
    Moved(w, h, m, w', w'.launcher.value);
  }

  lemma KeepTerminated(w: World, h: History, m: Memory, pid: nat, after: After)
    requires At(w, m, h) && m.pc == Terminating(pid, after)
    ensures var w' := Terminated(w, m, pid, after); Inv(w', Observe(h, w, w'))
  {
    var w' := Terminated(w, m, pid, after);
    assert w'.alive == map[];
    if pid in w.alive {
      Death(w, h, w', pid);
    } else {
      QuietHistory(h, w, w');
      DurableFrame(w, w', h);
    }
    TerminatedMemory(w, h, m, pid, after);
  }

  lemma TerminatedMemory(w: World, h: History, m: Memory, pid: nat, after: After)
    requires At(w, m, h) && m.pc == Terminating(pid, after)
    ensures var w' := Terminated(w, m, pid, after); MemoryInv(w', w'.launcher.value, Observe(h, w, w'))
  {
    var w' := Terminated(w, m, pid, after);
    assert w'.alive == map[];
  }

  // ---------------------------------------------------------------- backup

  lemma KeepBackupEntered(w: World, h: History, m: Memory, p: Pending, o: Oracle)
    requires At(w, m, h) && m.pc == BackupEntry(p)
    ensures var w' := BackupEntered(w, m, p, o); Inv(w', Observe(h, w, w'))
  {
    var w' := BackupEntered(w, m, p, o);
    Moved(w, h, m, w', w'.launcher.value);
  }

  lemma KeepBackupCleaned(w: World, h: History, m: Memory, p: Pending, o: Oracle)
    requires At(w, m, h) && m.pc == BackupClean(p)
    ensures var w' := BackupCleaned(w, m, p, o); Inv(w', Observe(h, w, w'))
  {
    var w' := BackupCleaned(w, m, p, o);
    Staged(w, h, m, w', w'.launcher.value);
  }

  lemma KeepBackupCopied(w: World, h: History, m: Memory, p: Pending, i: nat, begun: bool, o: Oracle)
    requires At(w, m, h) && m.pc == BackupCopy(p, i, begun)
    ensures var w' := BackupCopied(w, m, p, i, begun, o); Inv(w', Observe(h, w, w'))
  {
    var w' := BackupCopied(w, m, p, i, begun, o);
    if i == SUFFIX_COUNT {
      Moved(w, h, m, w', m.(pc := BackupRename(p)));
    } else {
      var source := FileOf(p.dbPath, SuffixAt(i));
      if o.fails || (source !in w.disk.files && (begun || SuffixAt(i) == Main)) {
        Moved(w, h, m, w', m.(pc := BackupAbort(p)));
      } else {
        KeepFileStaged(w, h, m, p, i, begun, o);
      }
    }
  }

  lemma KeepFileStaged(w: World, h: History, m: Memory, p: Pending, i: nat, begun: bool, o: Oracle)
    requires At(w, m, h) && m.pc == BackupCopy(p, i, begun) && !o.fails && i < SUFFIX_COUNT && p.id in w.disk.staging
    requires FileOf(p.dbPath, SuffixAt(i)) in w.disk.files || !(begun || SuffixAt(i) == Main)
    ensures var w' := BackupCopied(w, m, p, i, begun, o); Inv(w', Observe(h, w, w'))
  {
    var w' := BackupCopied(w, m, p, i, begun, o);
    if FileOf(p.dbPath, SuffixAt(i)) in w.disk.files {
      CopiedOne(w.disk.staging[p.id], w.disk.files, p.dbPath, i, begun, o.partial);
    }
    CopyStaged(w, h, m, w', w'.launcher.value);
  }

  /** One more write to the staging directory. */
  lemma CopiedOne(copies: map<Suffix, Content>, files: Files, dbPath: string, i: nat, begun: bool, partial: Option<Content>)
    requires CopiedSoFar(copies, files, dbPath, i, begun) && i < SUFFIX_COUNT
    requires FileOf(dbPath, SuffixAt(i)) in files
    ensures begun ==>
              CopiedSoFar(Bind(copies, SuffixAt(i), Some(files[FileOf(dbPath, SuffixAt(i))])), files, dbPath, i + 1, false)
    ensures !begun ==> CopiedSoFar(Bind(copies, SuffixAt(i), partial), files, dbPath, i, true)
  {
  }

  lemma CopyStaged(w: World, h: History, m: Memory, w': World, m': Memory)
    requires At(w, m, h) && m.pc.BackupCopy? && m'.pc.BackupCopy? && m'.pc.pending == m.pc.pending
    requires w'.launcher == Some(m') && m' == m.(pc := m'.pc)
    requires w' == w.(launcher := w'.launcher, disk := w.disk.(staging := w'.disk.staging))
    requires var p := m.pc.pending;
             p.id in w'.disk.staging && CopiedSoFar(w'.disk.staging[p.id], w'.disk.files, p.dbPath, m'.pc.i, m'.pc.begun)
    ensures Inv(w', Observe(h, w, w'))
  {
    Staged(w, h, m, w', m');
  }

  lemma KeepBackupRenamed(w: World, h: History, m: Memory, p: Pending, o: Oracle)
    requires At(w, m, h) && m.pc == BackupRename(p)
    ensures var w' := BackupRenamed(w, m, p, o); Inv(w', Observe(h, w, w'))
  {
    QuietHistory(h, w, BackupRenamed(w, m, p, o));
  }

  lemma KeepBackupAborted(w: World, h: History, m: Memory, p: Pending, o: Oracle)
    requires At(w, m, h) && m.pc == BackupAbort(p)
    ensures var w' := BackupAborted(w, m, p, o); Inv(w', Observe(h, w, w'))
  {
    var w' := BackupAborted(w, m, p, o);
    Staged(w, h, m, w', w'.launcher.value);
  }

  // ---------------------------------------------------------------- starting children

  lemma KeepTrialSpawned(w: World, h: History, m: Memory, p: Pending, o: Oracle)
    requires At(w, m, h) && m.pc == SpawnTrial(p)
    ensures var w' := TrialSpawned(w, m, p, o); Inv(w', Observe(h, w, w'))
  {
    var w' := TrialSpawned(w, m, p, o);
    if !o.runtime || o.fails {
      Moved(w, h, m, w', w'.launcher.value);
    } else {
      assert w.alive == map[];
      QuietHistory(h, w, w');
    }
  }

  lemma KeepActiveSpawned(w: World, h: History, m: Memory, o: Oracle)
    requires At(w, m, h) && m.pc == SpawnActive
    ensures var w' := ActiveSpawned(w, m, o); Inv(w', Observe(h, w, w'))
  {
    if !o.runtime || o.fails {
      ThrownAtOnce(w, h, m);
    } else {
      QuietHistory(h, w, ActiveSpawned(w, m, o));
    }
  }

  lemma KeepAttached(w: World, h: History, m: Memory, c: Child)
    requires At(w, m, h) && m.pc == Attaching(c)
    ensures var w' := Attached(w, m, c); Inv(w', Observe(h, w, w'))
  {
    var w' := Attached(w, m, c);
    QuietHistory(h, w, w');
    DurableFrame(w, w', h);
    ChildFrame(w, w', h, c);
    AttachedMemory(w, h, m, c);
  }

  lemma ChildFrame(w: World, w': World, h: History, c: Child)
    requires ChildInv(w, h, c) && SameData(w, w')
    ensures ChildInv(w', h, c)
  {
  }

  lemma AttachedMemory(w: World, h: History, m: Memory, c: Child)
    requires At(w, m, h) && m.pc == Attaching(c)
    requires ChildInv(Attached(w, m, c), h, c)
    ensures var w' := Attached(w, m, c); MemoryInv(w', w'.launcher.value, h)
  {
    assert !m.stopping;
  }

  // ---------------------------------------------------------------- restore

  lemma KeepRestoreEntered(w: World, h: History, m: Memory, r: Rollback, o: Oracle)
    requires At(w, m, h) && m.pc == RestoreEntry(r)
    ensures var w' := RestoreEntered(w, m, r, o); Inv(w', Observe(h, w, w'))
  {
    var w' := RestoreEntered(w, m, r, o);
    if o.fails {
      ThrownAtOnce(w, h, m);
    } else {
      Moved(w, h, m, w', w'.launcher.value);
    }
  }

  lemma KeepRestoreMarked(w: World, h: History, m: Memory, r: Rollback, o: Oracle)
    requires At(w, m, h) && m.pc == RestoreMark(r)
    ensures var w' := RestoreMarked(w, m, r, o); Inv(w', Observe(h, w, w'))
  {
    var w' := RestoreMarked(w, m, r, o);
    QuietHistory(h, w, w');
    if o.fails {
      Thrown(w, h, m, w');
    }
  }

  lemma KeepRestoreCopied(w: World, h: History, m: Memory, r: Rollback, i: nat, begun: bool, o: Oracle)
    requires At(w, m, h) && m.pc == RestoreCopy(r, i, begun)
    ensures var w' := RestoreCopied(w, m, r, i, begun, o); Inv(w', Observe(h, w, w'))
  {
    var w' := RestoreCopied(w, m, r, i, begun, o);
    if o.fails {
      ThrownAtOnce(w, h, m);
    } else if i == SUFFIX_COUNT {
      Moved(w, h, m, w', m.(pc := WriteOutcome(r)));
    } else {
      KeepFileRestored(w, h, m, r, i, begun, o);
    }
  }

  lemma KeepFileRestored(w: World, h: History, m: Memory, r: Rollback, i: nat, begun: bool, o: Oracle)
    requires At(w, m, h) && m.pc == RestoreCopy(r, i, begun) && !o.fails && i < SUFFIX_COUNT
    ensures var w' := RestoreCopied(w, m, r, i, begun, o); Inv(w', Observe(h, w, w'))
  {
    var w' := RestoreCopied(w, m, r, i, begun, o);
    var copies := w.disk.backups[r.pending.id].copies;
    var next := if SuffixAt(i) in copies && !begun then o.partial else Get(copies, SuffixAt(i));
    RestoredOne(copies, w.disk.files, r.pending.dbPath, i, next);
    FilesRestored(w, h, m, w', w'.launcher.value);
  }

  /** One more write to the live files: those already restored are untouched. */
  lemma RestoredOne(copies: map<Suffix, Content>, files: Files, dbPath: string, i: nat, next: Option<Content>)
    requires RestoredSoFar(copies, files, dbPath, i) && i < SUFFIX_COUNT
    ensures var files' := Bind(files, FileOf(dbPath, SuffixAt(i)), next);
            && RestoredSoFar(copies, files', dbPath, i)
            && (next == Get(copies, SuffixAt(i)) ==> RestoredSoFar(copies, files', dbPath, i + 1))
  {
    forall s: Suffix | Rank(s) < i
      ensures FileOf(dbPath, s) != FileOf(dbPath, SuffixAt(i))
    {
      FilesDiffer(dbPath, s, SuffixAt(i));
    }
  }

  /** While a backup exists the live files are free to change: they are what it replaces. */
  lemma FilesRestored(w: World, h: History, m: Memory, w': World, m': Memory)
    requires At(w, m, h) && m.pc.RestoreCopy? && m'.pc.RestoreCopy? && m'.pc.rollback == m.pc.rollback
    requires w'.launcher == Some(m') && m' == m.(pc := m'.pc)
    requires w' == w.(launcher := w'.launcher, disk := w.disk.(files := w'.disk.files))
    requires var p := m.pc.rollback.pending;
             RestoredSoFar(w.disk.backups[p.id].copies, w'.disk.files, p.dbPath, m'.pc.i)
    ensures Inv(w', Observe(h, w, w'))
  {
    QuietHistory(h, w, w');
  }

  // ---------------------------------------------------------------- records

  lemma KeepOutcome(w: World, h: History, m: Memory, r: Rollback, o: Oracle)
    requires At(w, m, h) && m.pc == WriteOutcome(r)
    ensures var w' := Operate(w, m, o); Inv(w', Observe(h, w, w'))
  {
    var w' := Operate(w, m, o);
    if o.fails && !o.late {
      ThrownAtOnce(w, h, m);
    } else {
      assert Died(w, w') == {};
      assert Observe(h, w, w').left == h.left;
      if o.fails {
        Thrown(w, h, m, w');
      }
    }
  }

  lemma KeepPending(w: World, h: History, m: Memory, p: Pending, pid: nat, o: Oracle)
    requires At(w, m, h) && m.pc == WritePending(p, pid)
    ensures var w' := Operate(w, m, o); Inv(w', Observe(h, w, w'))
  {
    var w' := Operate(w, m, o);
    if o.fails && !o.late {
      ThrownAtOnce(w, h, m);
    } else {
      PendingDurable(w, h, m, p, pid, w');
      if o.fails {
        Thrown(w, h, m, w');
      }
    }
  }

  lemma PendingDurable(w: World, h: History, m: Memory, p: Pending, pid: nat, w': World)
    requires At(w, m, h) && m.pc == WritePending(p, pid)
    requires w' == w.(launcher := w'.launcher, disk := w.disk.(record := m.state.(update := Some(InProgress(p)))))
    ensures DurableInv(w', Observe(h, w, w'))
    ensures Observe(h, w, w').left == h.left
  {
    assert Died(w, w') == {};
    assert Text.HasText(p.dbPath) by {
      assert !Text.IsSpace(p.dbPath[0]);
    }
  }

  lemma KeepCommitted(w: World, h: History, m: Memory, p: Pending, pid: nat, o: Oracle)
    requires At(w, m, h) && m.pc == WriteCommitted(p, pid)
    ensures var w' := Operate(w, m, o); Inv(w', Observe(h, w, w'))
  {
    var w' := Operate(w, m, o);
    if o.fails && !o.late {
      ThrownAtOnce(w, h, m);
    } else {
      CommittedDurable(w, h, m, p, pid, w');
      if o.fails {
        Thrown(w, h, m, w');
      }
    }
  }

  lemma CommittedDurable(w: World, h: History, m: Memory, p: Pending, pid: nat, w': World)
    requires At(w, m, h) && m.pc == WriteCommitted(p, pid)
    requires w' == w.(launcher := w'.launcher, disk := w.disk.(record := CommittedRecord(p)))
    ensures DurableInv(w', Observe(h, w, w'))
    ensures Observe(h, w, w').left == h.left
  {
    assert Died(w, w') == {};
  }

  lemma KeepDiscarded(w: World, h: History, m: Memory, id: UpdateId, next: AfterDiscard, o: Oracle)
    requires At(w, m, h) && m.pc == Discarding(id, next)
    ensures var w' := Discarded(w, m, id, next, o); Inv(w', Observe(h, w, w'))
  {
    var w' := Discarded(w, m, id, next, o);
    if o.fails || id !in w.disk.backups {
      Moved(w, h, m, w', m.(pc := if next.ThenSpawn? then SpawnActive else SendCommitted));
    } else {
      KeepEntryRemoved(w, h, m, id, next, o);
    }
  }

  lemma KeepEntryRemoved(w: World, h: History, m: Memory, id: UpdateId, next: AfterDiscard, o: Oracle)
    requires At(w, m, h) && m.pc == Discarding(id, next) && !o.fails && id in w.disk.backups
    ensures var w' := Discarded(w, m, id, next, o); Inv(w', Observe(h, w, w'))
  {
    var w' := Discarded(w, m, id, next, o);
    Trimmed(w, h, m, w', w'.launcher.value);
  }

  /** Deleting entries of the backup of an update that is no longer pending. */
  lemma Trimmed(w: World, h: History, m: Memory, w': World, m': Memory)
    requires At(w, m, h) && m.pc.Discarding?
    requires w'.launcher == Some(m') && (m' == m || m' == m.(pc := if m.pc.next.ThenSpawn? then SpawnActive else SendCommitted))
    requires w' == w.(launcher := w'.launcher, disk := w.disk.(backups := w'.disk.backups))
    requires w'.disk.backups.Keys <= w.disk.backups.Keys
    ensures Inv(w', Observe(h, w, w'))
  {
    QuietHistory(h, w, w');
    assert DurableInv(w', h);
    assert m.child.Some? ==> ChildInv(w', h, m.child.value);
  }

  lemma KeepTold(w: World, h: History, m: Memory, o: Oracle)
    requires At(w, m, h) && (m.pc.Rejecting? || m.pc.SendAccepted? || m.pc.SendCommitted?)
    ensures var w' := Operate(w, m, o); Inv(w', Observe(h, w, w'))
  {
    var w' := Operate(w, m, o);
    if m.stopping {
    } else if o.fails {
      ThrownAtOnce(w, h, m);
    } else {
      QuietHistory(h, w, w');
    }
  }

  // ---------------------------------------------------------------- every step

  lemma KeepAdvance(w: World, h: History, o: Oracle)
    requires Inv(w, h) && Enabled(w, Advance(o))
    ensures var w' := Effect(w, Advance(o)); Inv(w', Observe(h, w, w'))
  {
    var m := w.launcher.value;
    match m.pc
    case ClearingMarker => KeepClearing(w, h, m, o);
    case Recovering => KeepRecovered(w, h, m, o);
    case Terminating(pid, after) => KeepTerminated(w, h, m, pid, after);
    case BackupEntry(p) => KeepBackupEntered(w, h, m, p, o);
    case BackupClean(p) => KeepBackupCleaned(w, h, m, p, o);
    case BackupCopy(p, i, begun) => KeepBackupCopied(w, h, m, p, i, begun, o);
    case BackupRename(p) => KeepBackupRenamed(w, h, m, p, o);
    case BackupAbort(p) => KeepBackupAborted(w, h, m, p, o);
    case SpawnTrial(p) => KeepTrialSpawned(w, h, m, p, o);
    case RestoreEntry(r) => KeepRestoreEntered(w, h, m, r, o);
    case RestoreMark(r) => KeepRestoreMarked(w, h, m, r, o);
    case RestoreCopy(r, i, begun) => KeepRestoreCopied(w, h, m, r, i, begun, o);
    case WriteOutcome(r) => KeepOutcome(w, h, m, r, o);
    case Discarding(id, next) => KeepDiscarded(w, h, m, id, next, o);
    case SpawnActive => KeepActiveSpawned(w, h, m, o);
    case Attaching(c) => KeepAttached(w, h, m, c);
    case WritePending(p, pid) => KeepPending(w, h, m, p, pid, o);
    case WriteCommitted(p, pid) => KeepCommitted(w, h, m, p, pid, o);
    case Rejecting => KeepTold(w, h, m, o);
    case SendAccepted(_) => KeepTold(w, h, m, o);
    case SendCommitted => KeepTold(w, h, m, o);
  }

  lemma KeepStep(w: World, h: History, w': World)
    requires Inv(w, h) && Step(w, w')
    ensures Inv(w', Observe(h, w, w'))
  {
    var l: Label :| Enabled(w, l) && w' == Effect(w, l);
    match l
    case Write(pid, path, content) => KeepWrite(w, h, pid, path, content);
    case Exit(pid) => KeepExit(w, h, pid);
    case Say(_, _) => KeepQueue(w, h, l);
    case Raise(_) => KeepQueue(w, h, l);
    case Fire(_) => KeepQueue(w, h, l);
    case Signal(_) => KeepQueue(w, h, l);
    case Crash => KeepCrash(w, h);
    case Restart => KeepRestart(w, h);
    case Take(o) => KeepTake(w, h, o);
    case Advance(o) => KeepAdvance(w, h, o);
  }
}
