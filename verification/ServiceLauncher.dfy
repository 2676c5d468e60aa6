/** The launcher in the form of the source (apps/server/src/serviceLauncher.ts): an object
    whose transitions change its fields and the disk one awaited operation at a time. A
    ghost variable records the worlds it passes through; every method extends it by steps
    of the update protocol, so everything proved about runs, which may crash after any of
    these steps, is about this code. */
module ServiceLauncher {
  import opened Collections
  import opened Outcomes
  import opened ServiceProtocol
  import opened LauncherWorld
  import opened LauncherSteps
  import opened LauncherInvariant
  import opened LauncherRuns
  import opened LauncherCauses

  /** A step of anyone but the launcher. */
  predicate Outside(l: Label) {
    !l.Crash? && !l.Restart? && !l.Take? && !l.Advance?
  }

  function WithPc(w: World, pc: Pc): World
    requires w.launcher.Some?
  {
    w.(launcher := Some(w.launcher.value.(pc := pc)))
  }

  /** Such a step touches live files, processes, the queue and the timers only, and does
      not depend on where the launcher stands. */
  lemma OutsideStep(w: World, l: Label, pc: Pc)
    requires Outside(l) && w.launcher.Some? && Enabled(w, l)
    ensures Enabled(WithPc(w, pc), l)
    ensures var x := Effect(w, l);
            && x.launcher.Some? && Effect(WithPc(w, pc), l) == WithPc(x, pc)
            && (var m, n := w.launcher.value, x.launcher.value;
                n == m.(queue := n.queue, armed := n.armed, timer := n.timer, stopRequested := n.stopRequested))
            && x == w.(launcher := x.launcher, alive := x.alive,
                       disk := w.disk.(files := x.disk.files, stopMarker := x.disk.stopMarker))
  {
  }

  lemma StagingStep(w: World, p: Pending, o: Oracle)
    requires w.launcher.Some? && (w.launcher.value.pc == BackupClean(p) || w.launcher.value.pc == BackupAbort(p))
    requires !o.fails && p.id in w.disk.staging
    requires w.disk.staging[p.id] != map[] ==> o.victim.Copy? && o.victim.suffix in w.disk.staging[p.id]
    ensures Enabled(w, Advance(o)) && Effect(w, Advance(o)) == w.(disk := StagingWithout(w.disk, p.id, o.victim))
    ensures var rest := StagingWithout(w.disk, p.id, o.victim).staging;
            p.id in rest ==> |rest[p.id]| < |w.disk.staging[p.id]|
  {
  }

  lemma StagingFails(w: World, p: Pending, o: Oracle)
    requires w.launcher.Some? && (w.launcher.value.pc == BackupClean(p) || w.launcher.value.pc == BackupAbort(p))
    requires o.fails
    ensures Enabled(w, Advance(o)) && Effect(w, Advance(o)) == WithPc(w, Fail(p, DbBackupFailed))
  {
  }

  lemma RecordThrows(w: World, pc: Pc, o: Oracle)
    requires w.launcher.Some? && w.launcher.value.pc == pc && WritesRecord(pc) && o.fails
    ensures Enabled(w, Advance(o))
    ensures var m := w.launcher.value;
            Effect(w, Advance(o)) ==
              Running(if o.late then w.(disk := w.disk.(record := Next(m))) else w, Throw(m))
  {
  }

  lemma TakeEffect(w: World, m: Memory, e: Event, o: Oracle)
    requires w.launcher == Some(m.(queue := [e] + m.queue)) && m.pc == Idle && o.id !in w.issued
    ensures Enabled(w, Take(o))
    ensures Effect(w, Take(o)) == Running(w, Handle(m, e, o)).(issued := w.issued + {o.id})
  {
    assert ([e] + m.queue)[1..] == m.queue;
  }

  lemma OnlyTakeDraws(w: World, l: Label)
    requires Enabled(w, l) && Effect(w, l).issued != w.issued
    ensures l.Take?
  {
    if l.Advance? {
      OperateDrawsNone(w, w.launcher.value, l.oracle);
    }
  }

  lemma OperateDrawsNone(w: World, m: Memory, o: Oracle)
    ensures Operate(w, m, o).issued == w.issued
  {
    match m.pc
    case Recovering =>
    case Terminating(_, _) =>
    case BackupClean(_) =>
    case BackupCopy(_, _, _) =>
    case BackupRename(_) =>
    case RestoreMark(_) =>
    case RestoreCopy(_, _, _) =>
    case Discarding(_, _) =>
    case _ =>
  }

  /** An identifier not yet issued; a random UUID is one. */
  method FreshId(issued: set<UpdateId>) returns (id: UpdateId)
    ensures id !in issued
  {
    id := 0;
    var rest := issued;
    while rest != {}
      invariant rest <= issued
      invariant forall i | i in issued && i !in rest :: i < id
      decreases rest
    {
      var i :| i in rest;
      rest := rest - {i};
      id := if i < id then id else i + 1;
    }
  }

  /** An entry of a directory, in no particular order. */
  method SomeEntry<T>(entries: map<Suffix, T>) returns (victim: Victim)
    ensures entries != map[] ==> victim.Copy? && victim.suffix in entries
  {
    victim := Marker;
    if entries != map[] {
      var s: Suffix :| s in entries;
      victim := Copy(s);
    }
  }

  /** What the launcher shares with the rest of the machine. */
  class Machine {
    var disk: Disk
    var alive: map<nat, Version>
    var nextPid: nat
    var nextTimer: nat
    var issued: set<UpdateId>

    constructor (w: World)
      ensures disk == w.disk && alive == w.alive && issued == w.issued
      ensures nextPid == w.nextPid && nextTimer == w.nextTimer
    {
      disk, alive, issued := w.disk, w.alive, w.issued;
      nextPid, nextTimer := w.nextPid, w.nextTimer;
    }
  }

  /** How the operations of the launcher turn out. What is drawn cannot be foreseen; a ghost
      counts the failures among it, and the runtimes that were not installed. */
  class Environment {
    ghost var faults: nat
    ghost var missing: nat

    constructor ()
    {
      faults, missing := 0, 0;
    }

    method Draw() returns (o: Oracle)
      modifies this
      ensures faults == old(faults) + (if o.fails then 1 else 0)
      ensures missing == old(missing) + (if o.runtime then 0 else 1)
    {
      o := *;
      faults := faults + (if o.fails then 1 else 0);
      missing := missing + (if o.runtime then 0 else 1);
    }

    /** What has gone wrong is counted for good. */
    ghost predicate Since(f: nat, m: nat)
      reads this
    {
      faults >= f && missing >= m
    }

    /** Nothing has gone wrong since. */
    ghost predicate Steady(f: nat, m: nat)
      reads this
    {
      faults == f && missing == m
    }
  }

  class Launcher {
    const machine: Machine
    const environment: Environment
    var state: ServiceState
    var child: Option<Child>
    var timer: Option<nat>
    var armed: map<nat, Event>
    var transitions: seq<Event>
    var stopRequested: bool
    var stopping: bool
    var done: bool
    ghost var run: seq<World>

    function Fields(pc: Pc): Memory
      reads this
    {
      Memory(state, child, timer, stopRequested, stopping, done, transitions, armed, pc)
    }

    function View(pc: Pc): World
      reads this, machine
    {
      World(machine.disk, Some(Fields(pc)), machine.alive, machine.nextPid, machine.nextTimer, machine.issued)
    }

    /** The worlds recorded form a run of the protocol, which has now reached `pc`. */
    ghost predicate Follows(pc: Pc)
      reads this, machine
    {
      IsRun(run) && run[|run| - 1] == View(pc)
    }

    /** An operation has thrown: its step has led to the world in which `#fatal` has done
        its first part, which the code has yet to do. */
    ghost predicate Throwing()
      reads this, machine
    {
      IsRun(run) && run[|run| - 1] == Running(View(Idle), Throw(Fields(Idle)))
    }

    /** What the processes of a version left, as of now. */
    ghost function Left(v: Version): Files
      requires run != []
      reads this
    {
      LeftAt(run, |run| - 1, v)
    }

    /** `main` and `run`: read the record another launcher left, and queue recovery. The
        record always decodes, so reading it cannot fail. */
    constructor (machine: Machine, environment: Environment, ghost past: seq<World>)
      requires IsRun(past) && past[|past| - 1].launcher.None?
      requires past[|past| - 1] ==
        World(machine.disk, None, machine.alive, machine.nextPid, machine.nextTimer, machine.issued)
      ensures this.machine == machine && this.environment == environment && past <= run && Follows(Idle)
      ensures state == machine.disk.record && child.None? && transitions == [Event.Recover]
      ensures !stopping && !done
    {
      this.machine := machine;
      this.environment := environment;
      state := machine.disk.record;
      child, timer, armed, transitions := None, None, map[], [Event.Recover];
      stopRequested, stopping, done := false, false, false;
      run := past;
      new;
      RecordAlwaysDecodes(past, |past| - 1);
      Note(Restart, Idle);
    }

    // -------------------------------------------------------------- bookkeeping

    /** Record a step. */
    ghost method Extend(l: Label, w': World)
      requires IsRun(run) && Enabled(run[|run| - 1], l) && Effect(run[|run| - 1], l) == w'
      modifies this`run
      ensures IsRun(run) && run == old(run) + [w']
    {
      assert Step(run[|run| - 1], w');
      run := run + [w'];
      forall j {:trigger StepAt(run, j)} | 1 <= j < |run|
        ensures StepAt(run, j)
      {
        if j < |run| - 1 {
          assert StepAt(old(run), j);
        }
      }
    }

    /** Record the step just taken. */
    ghost method Note(l: Label, pc: Pc)
      requires IsRun(run) && Enabled(run[|run| - 1], l) && Effect(run[|run| - 1], l) == View(pc)
      modifies this`run
      ensures Follows(pc) && old(run) <= run
    {
      Extend(l, View(pc));
    }

    /** Record the step of an operation that throws. */
    ghost method NoteThrow(l: Label)
      requires IsRun(run) && Enabled(run[|run| - 1], l)
      requires Effect(run[|run| - 1], l) == Running(View(Idle), Throw(Fields(Idle)))
      modifies this`run
      ensures Throwing() && old(run) <= run
    {
      Extend(l, Running(View(Idle), Throw(Fields(Idle))));
    }

    /** One step of anyone but the launcher. */
    method Interfere(l: Label, ghost pc: Pc)
      requires Follows(pc) && Outside(l) && Enabled(View(Idle), l)
      modifies this, machine
      ensures Follows(pc) && old(run) <= run
      ensures state == old(state) && child == old(child) && stopping == old(stopping) && done == old(done)
      ensures machine.disk.record == old(machine.disk.record) && machine.disk.backups == old(machine.disk.backups)
      ensures machine.disk.staging == old(machine.disk.staging)
    {
      var x := Effect(View(Idle), l);
      OutsideStep(View(Idle), l, pc);
      Become(x, pc);
      Note(l, pc);
    }

    /** Take over what others may have changed. */
    method Become(x: World, ghost pc: Pc)
      requires x.launcher.Some? && x.nextPid == machine.nextPid && x.nextTimer == machine.nextTimer
      requires var m, n := Fields(Idle), x.launcher.value;
               && x.issued == machine.issued
               && n == m.(queue := n.queue, armed := n.armed, timer := n.timer, stopRequested := n.stopRequested)
      modifies machine`disk, machine`alive, this`transitions, this`armed, this`timer, this`stopRequested
      ensures View(pc) == WithPc(x, pc) && machine.disk == x.disk
    {
      machine.disk, machine.alive := x.disk, x.alive;
      transitions, armed := x.launcher.value.queue, x.launcher.value.armed;
      timer, stopRequested := x.launcher.value.timer, x.launcher.value.stopRequested;
    }

    /** Anything but the launcher's own next operation: children write, speak and die,
        timers fire, a signal asks to stop. */
    method Await(ghost pc: Pc)
      requires Follows(pc)
      modifies this, machine
      ensures Follows(pc) && old(run) <= run
      ensures state == old(state) && child == old(child) && stopping == old(stopping) && done == old(done)
      ensures machine.disk.record == old(machine.disk.record) && machine.disk.backups == old(machine.disk.backups)
      ensures machine.disk.staging == old(machine.disk.staging)
    {
      var n: nat := *;
      while n > 0
        invariant Follows(pc) && old(run) <= run
        invariant state == old(state) && child == old(child) && stopping == old(stopping) && done == old(done)
        invariant machine.disk.record == old(machine.disk.record) && machine.disk.backups == old(machine.disk.backups)
        invariant machine.disk.staging == old(machine.disk.staging)
      {
        var l: Label := *;
        if Outside(l) && Enabled(View(Idle), l) {
          Interfere(l, pc);
        }
        n := n - 1;
      }
    }

    // -------------------------------------------------------------- small operations

    method ClearTimer()
      modifies this`timer, this`armed
      ensures timer.None?
      ensures armed == if old(timer).Some? then old(armed) - {old(timer).value} else old(armed)
    {
      if timer.Some? {
        armed := armed - {timer.value};
      }
      timer := None;
    }

    method SetTimer(e: Event)
      modifies this`timer, this`armed, machine`nextTimer
      ensures timer == Some(old(machine.nextTimer)) && armed == old(armed)[old(machine.nextTimer) := e]
      ensures machine.nextTimer == old(machine.nextTimer) + 1
    {
      armed := armed[machine.nextTimer := e];
      timer := Some(machine.nextTimer);
      machine.nextTimer := machine.nextTimer + 1;
    }

    /** `terminateChild`: returns once the process is gone. What follows belongs to the
        same step, so the caller records it. */
    method TerminateChild(pid: nat, ghost after: After)
      requires Follows(Terminating(pid, after))
      modifies this, machine
      ensures IsRun(run) && old(run) <= run
      ensures run[|run| - 1].launcher.Some? && run[|run| - 1].launcher.value.pc == Terminating(pid, after)
      ensures var w := run[|run| - 1];
              var m := w.launcher.value;
              View(Idle) == Running(w, m.(pc := Idle, queue := if pid in w.alive then m.queue + [Exited(pid)] else m.queue))
                            .(alive := w.alive - {pid})
      ensures state == old(state) && child == old(child) && stopping == old(stopping) && done == old(done)
    {
      Await(Terminating(pid, after));
      if pid in machine.alive {
        transitions := transitions + [Exited(pid)];
      }
      machine.alive := machine.alive - {pid};
    }

    /** `#fatal`: whatever the launcher was doing, it ends with no child. */
    method Fatal()
      requires Throwing()
      modifies this, machine
      ensures Follows(Idle) && old(run) <= run
      ensures stopping && child.None? && machine.alive == map[]
    {
      if !done {
        done, stopping := true, true;
        ClearTimer();
        var c := child;
        child := None;
        if c.Some? {
          assert run[|run| - 1] == View(Terminating(c.value.pid, ThenFailed));
          TerminateChild(c.value.pid, ThenFailed);
          var o: Oracle := *;
          Note(Advance(o), Idle);
        }
      }
      Settle();
    }

    /** What the invariant says of a launcher at rest. */
    ghost method Settle()
      requires Follows(Idle)
      ensures stopping ==> machine.alive == map[] && child.None?
      ensures done ==> stopping
    {
      InvAt(run, |run| - 1);
    }

    // -------------------------------------------------------------- backup and restore

    /** The files a directory still holds go one by one, in any order. */
    method RemoveStaging(p: Pending, ghost pc: Pc) returns (failed: bool)
      requires Follows(pc) && (pc == BackupClean(p) || pc == BackupAbort(p))
      modifies this, machine, environment
      ensures old(run) <= run && state == old(state) && child == old(child) && stopping == old(stopping)
      ensures !failed ==> Follows(pc) && p.id !in machine.disk.staging
      ensures failed ==> Follows(Fail(p, DbBackupFailed))
      ensures environment.Since(old(environment.faults), old(environment.missing))
      ensures failed ==> environment.faults > old(environment.faults)
    {
      Await(pc);
      while p.id in machine.disk.staging
        invariant environment.Since(old(environment.faults), old(environment.missing))
        invariant Follows(pc) && old(run) <= run
        invariant state == old(state) && child == old(child) && stopping == old(stopping)
        decreases if p.id in machine.disk.staging then |machine.disk.staging[p.id]| + 1 else 0
      {
        failed := RemoveStagingEntry(p, pc);
        if failed {
          return;
        }
      }
      failed := false;
    }

    method RemoveStagingEntry(p: Pending, ghost pc: Pc) returns (failed: bool)
      requires Follows(pc) && (pc == BackupClean(p) || pc == BackupAbort(p)) && p.id in machine.disk.staging
      modifies this, machine, environment
      ensures old(run) <= run && state == old(state) && child == old(child) && stopping == old(stopping)
      ensures Follows(if failed then Fail(p, DbBackupFailed) else pc)
      ensures !failed && p.id in machine.disk.staging ==>
                |machine.disk.staging[p.id]| < |old(machine.disk.staging[p.id])|
      ensures environment.Since(old(environment.faults), old(environment.missing))
      ensures failed ==> environment.faults > old(environment.faults)
    {
      Await(pc);
      var o := environment.Draw();
      failed := o.fails;
      if failed {
        StagingFails(View(pc), p, o);
        Note(Advance(o), Fail(p, DbBackupFailed));
      } else {
        DeleteStaged(p, pc, o);
      }
    }

    method DeleteStaged(p: Pending, ghost pc: Pc, o: Oracle)
      requires Follows(pc) && (pc == BackupClean(p) || pc == BackupAbort(p)) && p.id in machine.disk.staging
      requires !o.fails
      modifies machine`disk, this`run
      ensures old(run) <= run && Follows(pc)
      ensures p.id in machine.disk.staging ==> |machine.disk.staging[p.id]| < |old(machine.disk.staging[p.id])|
    {
      var victim := SomeEntry(machine.disk.staging[p.id]);
      RemoveVictim(p, pc, o.(victim := victim));
    }

    method RemoveVictim(p: Pending, ghost pc: Pc, o: Oracle)
      requires Follows(pc) && (pc == BackupClean(p) || pc == BackupAbort(p)) && p.id in machine.disk.staging
      requires !o.fails
      requires machine.disk.staging[p.id] != map[] ==> o.victim.Copy? && o.victim.suffix in machine.disk.staging[p.id]
      modifies machine`disk, this`run
      ensures old(run) <= run && Follows(pc)
      ensures p.id in machine.disk.staging ==> |machine.disk.staging[p.id]| < |old(machine.disk.staging[p.id])|
    {
      ghost var w := View(pc);
      StagingStep(w, p, o);
      machine.disk := StagingWithout(machine.disk, p.id, o.victim);
      assert View(pc) == w.(disk := machine.disk);
      Note(Advance(o), pc);
    }

    /** While files are copied the staging directory is there. */
    ghost method StagingKnown(p: Pending, pc: Pc)
      requires Follows(pc) && (pc.BackupCopy? || pc.BackupRename?) && pc.pending == p
      ensures p.id in machine.disk.staging
    {
      InvAt(run, |run| - 1);
    }

    /** Record that a copy failed, or that its file is absent. */
    ghost method NoteAbort(p: Pending, i: nat, begun: bool, o: Oracle, n: nat)
      requires Follows(BackupCopy(p, i, begun)) && i < SUFFIX_COUNT && p.id in machine.disk.staging
      requires o.fails || FileAbsent(View(BackupCopy(p, i, begun)), p)
      requires n < |run|
      modifies this`run
      ensures Follows(BackupAbort(p)) && old(run) <= run
      ensures !o.fails ==> AbsentSince(run, n, p)
    {
      Note(Advance(o), BackupAbort(p));
      assert !o.fails ==> FileAbsent(run[|old(run)| - 1], p);
    }

    /** `copyFile` into the staging directory: the target is garbage until the copy ends. */
    method CopyToStaging(p: Pending, i: nat, ghost n: nat) returns (failed: bool)
      requires Follows(BackupCopy(p, i, false)) && i < SUFFIX_COUNT
      requires n < |run|
      modifies this, machine, environment
      ensures old(run) <= run && state == old(state) && child == old(child) && stopping == old(stopping)
      ensures Follows(if failed then BackupAbort(p) else BackupCopy(p, i + 1, false))
      ensures environment.Since(old(environment.faults), old(environment.missing))
      ensures failed ==> environment.faults > old(environment.faults) || AbsentSince(run, n, p)
    {
      Await(BackupCopy(p, i, false));
      var source := FileOf(p.dbPath, SuffixAt(i));
      var o := environment.Draw();
      StagingKnown(p, BackupCopy(p, i, false));
      if o.fails || p.id !in machine.disk.staging || (source !in machine.disk.files && SuffixAt(i) == Main) {
        NoteAbort(p, i, false, o, n);
        return true;
      }
      if source !in machine.disk.files {
        Note(Advance(o), BackupCopy(p, i + 1, false));
        return false;
      }
      BeginCopyToStaging(p, i, o);
      failed := FinishCopyToStaging(p, i, n);
    }

    method BeginCopyToStaging(p: Pending, i: nat, o: Oracle)
      requires Follows(BackupCopy(p, i, false)) && i < SUFFIX_COUNT && !o.fails && p.id in machine.disk.staging
      requires FileOf(p.dbPath, SuffixAt(i)) in machine.disk.files
      modifies machine`disk, this`run
      ensures old(run) <= run && Follows(BackupCopy(p, i, true))
    {
      var d := machine.disk;
      machine.disk := d.(staging := d.staging[p.id := Bind(d.staging[p.id], SuffixAt(i), o.partial)]);
      Note(Advance(o), BackupCopy(p, i, true));
    }

    method FinishCopyToStaging(p: Pending, i: nat, ghost n: nat) returns (failed: bool)
      requires Follows(BackupCopy(p, i, true)) && i < SUFFIX_COUNT
      requires n < |run|
      modifies this, machine, environment
      ensures old(run) <= run && state == old(state) && child == old(child) && stopping == old(stopping)
      ensures Follows(if failed then BackupAbort(p) else BackupCopy(p, i + 1, false))
      ensures environment.Since(old(environment.faults), old(environment.missing))
      ensures failed ==> environment.faults > old(environment.faults) || AbsentSince(run, n, p)
    {
      Await(BackupCopy(p, i, true));
      var source := FileOf(p.dbPath, SuffixAt(i));
      var o := environment.Draw();
      StagingKnown(p, BackupCopy(p, i, true));
      if o.fails || p.id !in machine.disk.staging || source !in machine.disk.files {
        NoteAbort(p, i, true, o, n);
        return true;
      }
      var d := machine.disk;
      machine.disk := d.(staging := d.staging[p.id := Bind(d.staging[p.id], SuffixAt(i), Some(d.files[source]))]);
      Note(Advance(o), BackupCopy(p, i + 1, false));
      failed := false;
    }

    /** `backupDatabaseOnce`, with the clean-up of its callers: it leaves either a complete
        backup of what the previous version left, or the launcher on its way back to that
        version. A backup that exists already is not touched. */
    method BackupDatabaseOnce(p: Pending, ghost n: nat) returns (failed: bool)
      requires Follows(BackupEntry(p))
      requires n < |run|
      modifies this, machine, environment
      ensures old(run) <= run && state == old(state) && child == old(child) && stopping == old(stopping)
      ensures failed ==> Follows(Fail(p, DbBackupFailed))
      ensures !failed ==> Follows(SpawnTrial(p))
      ensures !failed ==>
                && p.id in machine.disk.backups
                && IsSnapshot(machine.disk.backups[p.id].copies, Left(p.from), p.dbPath)
      ensures p.id in old(machine.disk.backups) ==> machine.disk.backups == old(machine.disk.backups)
      ensures environment.Since(old(environment.faults), old(environment.missing))
      ensures failed ==> environment.faults > old(environment.faults) || AbsentSince(run, n, p)
    {
      Await(BackupEntry(p));
      var o := environment.Draw();
      if o.fails {
        Note(Advance(o), Fail(p, DbBackupFailed));
        return true;
      }
      if p.id in machine.disk.backups {
        Note(Advance(o), SpawnTrial(p));
        TrialReady(p);
        return false;
      }
      Note(Advance(o), BackupClean(p));
      failed := TakeBackup(p, n);
      if !failed {
        TrialReady(p);
      }
    }

    method TakeBackup(p: Pending, ghost n: nat) returns (failed: bool)
      requires Follows(BackupClean(p))
      requires n < |run|
      modifies this, machine, environment
      ensures old(run) <= run && state == old(state) && child == old(child) && stopping == old(stopping)
      ensures Follows(if failed then Fail(p, DbBackupFailed) else SpawnTrial(p))
      ensures environment.Since(old(environment.faults), old(environment.missing))
      ensures failed ==> environment.faults > old(environment.faults) || AbsentSince(run, n, p)
    {
      failed := RemoveStaging(p, BackupClean(p));
      if failed {
        return;
      }
      failed := MakeStaging(p);
      if failed {
        return;
      }
      failed := CopyFiles(p, n);
      if !failed {
        failed := RenameStaging(p);
      }
      if failed {
        ghost var before := run;
        AbortBackup(p);
        AbsentLonger(before, run, n, n, p);
      }
    }

    /** The loop over the suffixes. */
    method CopyFiles(p: Pending, ghost n: nat) returns (failed: bool)
      requires Follows(BackupCopy(p, 0, false))
      requires n < |run|
      modifies this, machine, environment
      ensures old(run) <= run && state == old(state) && child == old(child) && stopping == old(stopping)
      ensures Follows(if failed then BackupAbort(p) else BackupCopy(p, SUFFIX_COUNT, false))
      ensures environment.Since(old(environment.faults), old(environment.missing))
      ensures failed ==> environment.faults > old(environment.faults) || AbsentSince(run, n, p)
    {
      failed := false;
      var i := 0;
      while i < SUFFIX_COUNT && !failed
        invariant environment.Since(old(environment.faults), old(environment.missing))
        invariant failed ==> environment.faults > old(environment.faults) || AbsentSince(run, n, p)
        invariant i <= SUFFIX_COUNT && old(run) <= run
        invariant state == old(state) && child == old(child) && stopping == old(stopping)
        invariant Follows(if failed then BackupAbort(p) else BackupCopy(p, i, false))
        decreases SUFFIX_COUNT - i, if failed then 0 else 1
      {
          failed := CopyToStaging(p, i, n);
        i := if failed then i else i + 1;
      }
    }

    method AbortBackup(p: Pending)
      requires Follows(BackupAbort(p))
      modifies this, machine, environment
      ensures old(run) <= run && state == old(state) && child == old(child) && stopping == old(stopping)
      ensures Follows(Fail(p, DbBackupFailed))
      ensures environment.Since(old(environment.faults), old(environment.missing))
    {
      var gaveUp := RemoveStaging(p, BackupAbort(p));
      if !gaveUp {
        Await(BackupAbort(p));
        var o: Oracle := *;
        Note(Advance(o.(fails := true)), Fail(p, DbBackupFailed));
      }
    }

    method MakeStaging(p: Pending) returns (failed: bool)
      requires Follows(BackupClean(p)) && p.id !in machine.disk.staging
      modifies this, machine, environment
      ensures old(run) <= run && state == old(state) && child == old(child) && stopping == old(stopping)
      ensures Follows(if failed then Fail(p, DbBackupFailed) else BackupCopy(p, 0, false))
      ensures environment.Since(old(environment.faults), old(environment.missing))
      ensures failed ==> environment.faults > old(environment.faults)
    {
      Await(BackupClean(p));
      var o := environment.Draw();
      if o.fails {
        Note(Advance(o), Fail(p, DbBackupFailed));
        return true;
      }
      machine.disk := machine.disk.(staging := machine.disk.staging[p.id := map[]]);
      Note(Advance(o), BackupCopy(p, 0, false));
      failed := false;
    }

    method RenameStaging(p: Pending) returns (failed: bool)
      requires Follows(BackupCopy(p, SUFFIX_COUNT, false))
      modifies this, machine, environment
      ensures old(run) <= run && state == old(state) && child == old(child) && stopping == old(stopping)
      ensures Follows(if failed then BackupAbort(p) else SpawnTrial(p))
      ensures environment.Since(old(environment.faults), old(environment.missing))
      ensures failed ==> environment.faults > old(environment.faults)
    {
      Await(BackupCopy(p, SUFFIX_COUNT, false));
      var o: Oracle := *;
      StagingKnown(p, BackupCopy(p, SUFFIX_COUNT, false));
      Note(Advance(o), BackupRename(p));
      failed := FinishRename(p);
    }

    method FinishRename(p: Pending) returns (failed: bool)
      requires Follows(BackupRename(p))
      modifies this, machine, environment
      ensures old(run) <= run && state == old(state) && child == old(child) && stopping == old(stopping)
      ensures Follows(if failed then BackupAbort(p) else SpawnTrial(p))
      ensures environment.Since(old(environment.faults), old(environment.missing))
      ensures failed ==> environment.faults > old(environment.faults)
    {
      Await(BackupRename(p));
      var o := environment.Draw();
      StagingKnown(p, BackupRename(p));
      if p.id !in machine.disk.staging || (o.fails && !o.late) {
        Note(Advance(o), BackupAbort(p));
        return true;
      }
      var d := machine.disk;
      machine.disk := d.(staging := d.staging - {p.id}, backups := d.backups[p.id := Backup(d.staging[p.id], false)]);
      failed := o.fails;
      Note(Advance(o), if failed then BackupAbort(p) else SpawnTrial(p));
    }

    ghost method TrialReady(p: Pending)
      requires Follows(SpawnTrial(p))
      ensures p.id in machine.disk.backups
      ensures IsSnapshot(machine.disk.backups[p.id].copies, Left(p.from), p.dbPath)
    {
      InvAt(run, |run| - 1);
    }

    /** `markDatabaseRestorePending`. */
    method MarkRestorePending(r: Rollback) returns (threw: bool)
      requires Follows(RestoreMark(r))
      modifies this, machine, environment
      ensures old(run) <= run && state == old(state) && stopping == old(stopping)
      ensures if threw then Throwing() else Follows(RestoreCopy(r, 0, false))
      ensures !threw ==> r.pending.id in machine.disk.backups && machine.disk.backups[r.pending.id].marker
      ensures environment.Since(old(environment.faults), old(environment.missing))
      ensures threw ==> environment.faults > old(environment.faults)
    {
      Await(RestoreMark(r));
      var o := environment.Draw();
      MarkKnown(r);
      threw := o.fails;
      if o.fails {
        FailMark(r, o);
      } else {
        SetMarker(r.pending.id);
        Note(Advance(o), RestoreCopy(r, 0, false));
      }
    }

    ghost method MarkKnown(r: Rollback)
      requires Follows(RestoreMark(r))
      ensures r.pending.id in machine.disk.backups
    {
      InvAt(run, |run| - 1);
    }

    method SetMarker(id: UpdateId)
      requires id in machine.disk.backups
      modifies machine`disk
      ensures machine.disk == old(machine.disk).(backups := old(machine.disk.backups)[id := old(machine.disk.backups)[id].(marker := true)])
    {
      var d := machine.disk;
      machine.disk := d.(backups := d.backups[id := d.backups[id].(marker := true)]);
    }

    /** Creating the marker throws, perhaps after the marker is there. */
    method FailMark(r: Rollback, o: Oracle)
      requires Follows(RestoreMark(r)) && r.pending.id in machine.disk.backups && o.fails
      modifies machine`disk, this`run
      ensures old(run) <= run && Throwing()
    {
      if o.late {
        SetMarker(r.pending.id);
      }
      NoteThrow(Advance(o));
    }

    /** One file put back, or removed if the backup has none. */
    method RestoreFile(r: Rollback, i: nat) returns (threw: bool)
      requires Follows(RestoreCopy(r, i, false)) && i < SUFFIX_COUNT
      modifies this, machine, environment
      ensures old(run) <= run && state == old(state) && stopping == old(stopping)
      ensures if threw then Throwing() else Follows(RestoreCopy(r, i + 1, false))
      ensures environment.Since(old(environment.faults), old(environment.missing))
      ensures threw ==> environment.faults > old(environment.faults)
    {
      Await(RestoreCopy(r, i, false));
      var o := environment.Draw();
      if o.fails {
        NoteThrow(Advance(o));
        return true;
      }
      var d := machine.disk;
      var copies := if r.pending.id in d.backups then d.backups[r.pending.id].copies else map[];
      if SuffixAt(i) !in copies {
        RemoveFile(r, i, o);
        return false;
      }
      BeginRestoreFile(r, i, o);
      threw := FinishRestoreFile(r, i);
    }

    method BeginRestoreFile(r: Rollback, i: nat, o: Oracle)
      requires Follows(RestoreCopy(r, i, false)) && i < SUFFIX_COUNT && !o.fails
      requires r.pending.id in machine.disk.backups && SuffixAt(i) in machine.disk.backups[r.pending.id].copies
      modifies machine`disk, this`run
      ensures old(run) <= run && Follows(RestoreCopy(r, i, true))
    {
      var d := machine.disk;
      machine.disk := d.(files := Bind(d.files, FileOf(r.pending.dbPath, SuffixAt(i)), o.partial));
      Note(Advance(o), RestoreCopy(r, i, true));
    }

    method RemoveFile(r: Rollback, i: nat, o: Oracle)
      requires Follows(RestoreCopy(r, i, false)) && i < SUFFIX_COUNT && !o.fails
      requires r.pending.id in machine.disk.backups ==> SuffixAt(i) !in machine.disk.backups[r.pending.id].copies
      modifies machine`disk, this`run
      ensures old(run) <= run && Follows(RestoreCopy(r, i + 1, false))
    {
      var d := machine.disk;
      machine.disk := d.(files := Bind(d.files, FileOf(r.pending.dbPath, SuffixAt(i)), None));
      Note(Advance(o), RestoreCopy(r, i + 1, false));
    }

    method FinishRestoreFile(r: Rollback, i: nat) returns (threw: bool)
      requires Follows(RestoreCopy(r, i, true)) && i < SUFFIX_COUNT
      modifies this, machine, environment
      ensures old(run) <= run && state == old(state) && stopping == old(stopping)
      ensures if threw then Throwing() else Follows(RestoreCopy(r, i + 1, false))
      ensures environment.Since(old(environment.faults), old(environment.missing))
      ensures threw ==> environment.faults > old(environment.faults)
    {
      Await(RestoreCopy(r, i, true));
      var o := environment.Draw();
      if o.fails {
        NoteThrow(Advance(o));
        return true;
      }
      var d := machine.disk;
      var copies := if r.pending.id in d.backups then d.backups[r.pending.id].copies else map[];
      machine.disk := d.(files := Bind(d.files, FileOf(r.pending.dbPath, SuffixAt(i)), Get(copies, SuffixAt(i))));
      Note(Advance(o), RestoreCopy(r, i + 1, false));
      threw := false;
    }

    /** `restoreDatabaseBackup`: unless it throws, the three database files are what the
        previous version left. */
    method RestoreDatabaseBackup(r: Rollback) returns (threw: bool)
      requires Follows(RestoreEntry(r))
      modifies this, machine, environment
      ensures old(run) <= run && state == old(state) && stopping == old(stopping)
      ensures if threw then Throwing() else Follows(WriteOutcome(r))
      ensures !threw ==> Agree(machine.disk.files, Left(r.pending.from), r.pending.dbPath)
      ensures environment.Since(old(environment.faults), old(environment.missing))
      ensures threw ==> environment.faults > old(environment.faults)
    {
      Await(RestoreEntry(r));
      var o := environment.Draw();
      threw := o.fails;
      if threw {
        NoteThrow(Advance(o));
      } else if r.pending.id in machine.disk.backups {
        Note(Advance(o), RestoreMark(r));
        threw := MarkAndRestore(r);
      } else {
        Note(Advance(o), WriteOutcome(r));
        OutcomeReady(r);
      }
    }

    method MarkAndRestore(r: Rollback) returns (threw: bool)
      requires Follows(RestoreMark(r))
      modifies this, machine, environment
      ensures old(run) <= run && state == old(state) && stopping == old(stopping)
      ensures if threw then Throwing() else Follows(WriteOutcome(r))
      ensures !threw ==> Agree(machine.disk.files, Left(r.pending.from), r.pending.dbPath)
      ensures environment.Since(old(environment.faults), old(environment.missing))
      ensures threw ==> environment.faults > old(environment.faults)
    {
      threw := MarkRestorePending(r);
      if !threw {
        threw := RestoreFiles(r);
        if !threw {
          OutcomeReady(r);
        }
      }
    }

    ghost method OutcomeReady(r: Rollback)
      requires Follows(WriteOutcome(r))
      ensures Agree(machine.disk.files, Left(r.pending.from), r.pending.dbPath)
    {
      InvAt(run, |run| - 1);
    }

    /** The loop over the suffixes. */
    method RestoreFiles(r: Rollback) returns (threw: bool)
      requires Follows(RestoreCopy(r, 0, false))
      modifies this, machine, environment
      ensures old(run) <= run && state == old(state) && stopping == old(stopping)
      ensures if threw then Throwing() else Follows(WriteOutcome(r))
      ensures environment.Since(old(environment.faults), old(environment.missing))
      ensures threw ==> environment.faults > old(environment.faults)
    {
      threw := false;
      var i := 0;
      while i < SUFFIX_COUNT && !threw
        invariant environment.Since(old(environment.faults), old(environment.missing))
        invariant threw ==> environment.faults > old(environment.faults)
        invariant i <= SUFFIX_COUNT && old(run) <= run
        invariant state == old(state) && stopping == old(stopping)
        invariant if threw then Throwing() else Follows(RestoreCopy(r, i, false))
        decreases SUFFIX_COUNT - i, if threw then 0 else 1
      {
        threw := RestoreFile(r, i);
        i := if threw then i else i + 1;
      }
      if !threw {
        threw := SyncRestored(r);
      }
    }

    method SyncRestored(r: Rollback) returns (threw: bool)
      requires Follows(RestoreCopy(r, SUFFIX_COUNT, false))
      modifies this, machine, environment
      ensures old(run) <= run && state == old(state) && stopping == old(stopping)
      ensures if threw then Throwing() else Follows(WriteOutcome(r))
      ensures environment.Since(old(environment.faults), old(environment.missing))
      ensures threw ==> environment.faults > old(environment.faults)
    {
      Await(RestoreCopy(r, SUFFIX_COUNT, false));
      var o := environment.Draw();
      threw := o.fails;
      if threw {
        NoteThrow(Advance(o));
      } else {
        Note(Advance(o), WriteOutcome(r));
      }
    }

    /** `discardDatabaseBackup`, whose errors are ignored: it goes on either way. */
    method DiscardDatabaseBackup(id: UpdateId, ghost next: AfterDiscard)
      requires Follows(Discarding(id, next))
      modifies this, machine, environment
      ensures old(run) <= run && state == old(state) && child == old(child) && stopping == old(stopping)
      ensures Follows(if next.ThenSpawn? then SpawnActive else SendCommitted)
      ensures environment.faults == old(environment.faults) ==> id !in machine.disk.backups
      ensures environment.Since(old(environment.faults), old(environment.missing))
    {
      Await(Discarding(id, next));
      var o := environment.Draw();
      while !o.fails && id in machine.disk.backups && machine.disk.backups[id] != Backup(map[], false)
        invariant environment.Since(old(environment.faults), old(environment.missing))
        invariant o.fails ==> environment.faults > old(environment.faults)
        invariant Follows(Discarding(id, next)) && old(run) <= run
        invariant state == old(state) && child == old(child) && stopping == old(stopping)
        decreases if id in machine.disk.backups
                  then |machine.disk.backups[id].copies| + (if machine.disk.backups[id].marker then 1 else 0) else 0,
                  if o.fails then 0 else 1
      {
        DiscardEntry(id, next);
        Await(Discarding(id, next));
        o := environment.Draw();
      }
      RemoveEmptyBackup(id, next, o);
    }

    method RemoveEmptyBackup(id: UpdateId, ghost next: AfterDiscard, o: Oracle)
      requires Follows(Discarding(id, next))
      requires o.fails || id !in machine.disk.backups || machine.disk.backups[id] == Backup(map[], false)
      modifies machine`disk, this`run
      ensures old(run) <= run && Follows(if next.ThenSpawn? then SpawnActive else SendCommitted)
      ensures !o.fails ==> id !in machine.disk.backups
    {
      if !o.fails && id in machine.disk.backups {
        machine.disk := machine.disk.(backups := machine.disk.backups - {id});
      }
      if next.ThenSpawn? {
        Note(Advance(o), SpawnActive);
      } else {
        Note(Advance(o), SendCommitted);
      }
    }

    method DiscardEntry(id: UpdateId, ghost next: AfterDiscard)
      requires Follows(Discarding(id, next))
      requires id in machine.disk.backups && machine.disk.backups[id] != Backup(map[], false)
      modifies this, machine
      ensures old(run) <= run && state == old(state) && child == old(child) && stopping == old(stopping)
      ensures Follows(Discarding(id, next)) && id in machine.disk.backups
      ensures var b, b' := old(machine.disk.backups[id]), machine.disk.backups[id];
              |b'.copies| + (if b'.marker then 1 else 0) < |b.copies| + (if b.marker then 1 else 0)
    {
      var o: Oracle := *;
      var d := machine.disk;
      var b := d.backups[id];
      if b.marker {
        b := b.(marker := false);
        o := o.(fails := false, victim := Marker);
      } else {
        var s: Suffix :| s in b.copies;
        b := b.(copies := b.copies - {s});
        o := o.(fails := false, victim := Copy(s));
      }
      machine.disk := d.(backups := d.backups[id := b]);
      Note(Advance(o), Discarding(id, next));
    }

    // -------------------------------------------------------------- records and messages

    /** `writeServiceState`: the rename replaces the record in one step. What the caller
        then does to its fields belongs to that step, so the caller records it. */
    method WriteServiceState(next: ServiceState, ghost pc: Pc) returns (threw: bool, ghost o: Oracle)
      requires Follows(pc) && WritesRecord(pc) && next == Next(Fields(pc))
      modifies this, machine, environment
      ensures old(run) <= run
      ensures state == old(state) && child == old(child) && stopping == old(stopping) && done == old(done)
      ensures threw ==> Throwing()
      ensures !threw ==> !o.fails && machine.disk.record == next && IsRun(run)
      ensures !threw ==> exists before: ServiceState ::
                           run[|run| - 1] == View(pc).(disk := machine.disk.(record := before))
      ensures environment.Since(old(environment.faults), old(environment.missing))
      ensures threw ==> environment.faults > old(environment.faults)
    {
      Await(pc);
      var choice := environment.Draw();
      o := choice;
      threw := choice.fails;
      ghost var before := machine.disk.record;
      ghost var w := View(pc);
      if !choice.fails || choice.late {
        machine.disk := machine.disk.(record := next);
      }
      if threw {
        RecordThrows(w, pc, o);
        NoteThrow(Advance(o));
      } else {
        assert w == View(pc).(disk := machine.disk.(record := before));
      }
    }

    /** `sendMessage` from a position after which the launcher is at rest. */
    method SendMessage(ghost pc: Pc) returns (threw: bool)
      requires Follows(pc) && (pc.Rejecting? || pc.SendCommitted?)
      modifies this, machine, environment
      ensures old(run) <= run && (if threw then Throwing() else Follows(Idle))
      ensures !threw ==> state == old(state) && child == old(child) && machine.disk.record == old(machine.disk.record)
      ensures environment.Since(old(environment.faults), old(environment.missing))
      ensures threw ==> environment.faults > old(environment.faults)
    {
      Await(pc);
      var o := environment.Draw();
      threw := o.fails;
      if threw {
        NoteThrow(Advance(o));
      } else {
        Note(Advance(o), Idle);
      }
    }

    // -------------------------------------------------------------- starting children

    /** `#startChild` for the active version: unless it throws, or the launcher is
        stopping, a child of that version is attached. */
    method StartActive() returns (threw: bool)
      requires Follows(SpawnActive)
      modifies this, machine, environment
      ensures old(run) <= run && state == old(state) && stopping == old(stopping)
      ensures if threw then Throwing() else Follows(Idle)
      ensures !threw && !stopping ==> IsChild(state.active, Active)
      ensures environment.Since(old(environment.faults), old(environment.missing))
      ensures threw ==> environment.faults > old(environment.faults) || environment.missing > old(environment.missing)
    {
      Await(SpawnActive);
      var o := environment.Draw();
      if stopping {
        Note(Advance(o), Idle);
        return false;
      }
      if !o.runtime || o.fails {
        NoteThrow(Advance(o));
        return true;
      }
      var c := Child(machine.nextPid, state.active, Active);
      machine.alive := machine.alive[c.pid := c.version];
      machine.nextPid := machine.nextPid + 1;
      Note(Advance(o), Attaching(c));
      Attach(c);
      threw := false;
    }

    /** `#startChild` for a trial; the failure its caller catches leads back to the
        previous version. */
    method StartTrialChild(p: Pending) returns (failed: bool)
      requires Follows(SpawnTrial(p))
      modifies this, machine, environment
      ensures old(run) <= run && state == old(state) && stopping == old(stopping)
      ensures Follows(if failed then Fail(p, CandidateStartFailed) else Idle)
      ensures !failed && !stopping ==> IsChild(p.target, Trial)
      ensures environment.Since(old(environment.faults), old(environment.missing))
      ensures failed ==> environment.faults > old(environment.faults) || environment.missing > old(environment.missing)
    {
      Await(SpawnTrial(p));
      var o := environment.Draw();
      if stopping {
        Note(Advance(o), Idle);
        return false;
      }
      if !o.runtime || o.fails {
        Note(Advance(o), Fail(p, CandidateStartFailed));
        return true;
      }
      var c := Child(machine.nextPid, p.target, Trial);
      machine.alive := machine.alive[c.pid := c.version];
      machine.nextPid := machine.nextPid + 1;
      Note(Advance(o), Attaching(c));
      Attach(c);
      failed := false;
    }

    /** The end of `#startChild`: listen to the child, and give a trial its deadline. */
    method Attach(c: Child)
      requires Follows(Attaching(c)) && !stopping
      modifies this, machine
      ensures old(run) <= run && Follows(Idle)
      ensures state == old(state) && stopping == old(stopping) && child == Some(c)
      ensures c.role == Trial ==> timer.Some? && timer.value in armed && armed[timer.value] == PreparedTimedOut(c.pid)
    {
      Await(Attaching(c));
      var o: Oracle := *;
      child := Some(c);
      if c.role == Trial {
        SetTimer(PreparedTimedOut(c.pid));
      }
      Note(Advance(o), Idle);
    }

    /** How an attempt to start the trial may end: with the trial attached and the record
        still pending, or with the previous version and the failure on record. */
    ghost predicate Tried(p: Pending, before: ServiceState, n: int)
      reads this
    {
      || (state == before && (stopping || IsChild(p.target, Trial)))
      || (exists reason :: FailedFor(p, reason, n))
    }

    /** The failure has its cause among the steps from position `n` of the run on. */
    ghost predicate FailedFor(p: Pending, reason: Reason, n: int)
      reads this
    {
      ReturnedTo(Rollback(p, Failed, reason)) && CausedSince(run, n, Rollback(p, Failed, reason))
    }

    /** The run has just turned back, at some step from position `n` on. */
    ghost method Turned(r: Rollback, n: int)
      requires Follows(RestoreEntry(r)) && 0 <= n < |run| && CarriedBy(run[n]).None?
      ensures CausedSince(run, n, r)
    {
      TurnedBackSince(run, n);
    }

    /** The failed attempt ends, with its cause on record. */
    method GiveUp(p: Pending, reason: Reason, ghost n: nat) returns (threw: bool)
      requires Follows(Fail(p, reason)) && n < |run| && CarriedBy(run[n]).None?
      modifies this, machine, environment
      ensures old(run) <= run && (if threw then Throwing() else Follows(Idle))
      ensures !threw ==> FailedFor(p, reason, n)
      ensures environment.Since(old(environment.faults), old(environment.missing))
      ensures threw ==> environment.faults > old(environment.faults) || environment.missing > old(environment.missing)
    {
      Turned(Rollback(p, Failed, reason), n);
      ghost var before := run;
      threw := Restore(Rollback(p, Failed, reason));
      CausedLonger(before, run, n, n, Rollback(p, Failed, reason));
    }

    /** The outcome is recorded and the previous version runs. */
    predicate ReturnedTo(r: Rollback)
      reads this
    {
      state == OutcomeRecord(r) && (stopping || IsChild(r.pending.from, Active))
    }

    predicate IsChild(v: Version, role: Role)
      reads this
    {
      child.Some? && child.value.version == v && child.value.role == role
    }

    /** `#startTrial`. */
    method StartTrial(p: Pending, ghost n: nat) returns (threw: bool)
      requires Follows(BackupEntry(p)) && n < |run| && CarriedBy(run[n]).None?
      modifies this, machine, environment
      ensures old(run) <= run && (if threw then Throwing() else Follows(Idle))
      ensures !threw ==> Tried(p, old(state), n)
      ensures environment.Since(old(environment.faults), old(environment.missing))
      ensures threw ==> environment.faults > old(environment.faults) || environment.missing > old(environment.missing)
      ensures environment.Steady(old(environment.faults), old(environment.missing)) && !stopping ==> IsChild(p.target, Trial) || AbsentSince(run, n, p)
    {
      var failed := BackupDatabaseOnce(p, n);
      if failed {
        ghost var before := run;
        threw := GiveUp(p, DbBackupFailed, n);
        AbsentLonger(before, run, n, n, p);
      } else {
        threw := SpawnOrGiveUp(p, n);
      }
    }

    method SpawnOrGiveUp(p: Pending, ghost n: nat) returns (threw: bool)
      requires Follows(SpawnTrial(p)) && n < |run| && CarriedBy(run[n]).None?
      modifies this, machine, environment
      ensures old(run) <= run && (if threw then Throwing() else Follows(Idle))
      ensures !threw ==> Tried(p, old(state), n)
      ensures environment.Since(old(environment.faults), old(environment.missing))
      ensures threw ==> environment.faults > old(environment.faults) || environment.missing > old(environment.missing)
      ensures environment.Steady(old(environment.faults), old(environment.missing)) && !stopping ==> IsChild(p.target, Trial)
    {
      var failed := StartTrialChild(p);
      if failed {
        threw := GiveUp(p, CandidateStartFailed, n);
      } else {
        threw := false;
      }
    }

    /** `#returnToPrevious` once the child is gone: unless it throws, the outcome is on
        record and the version the update started from runs on the database it left. */
    method Restore(r: Rollback) returns (threw: bool)
      requires Follows(RestoreEntry(r))
      modifies this, machine, environment
      ensures old(run) <= run && (if threw then Throwing() else Follows(Idle))
      ensures !threw ==> ReturnedTo(r)
      ensures environment.Since(old(environment.faults), old(environment.missing))
      ensures threw ==> environment.faults > old(environment.faults) || environment.missing > old(environment.missing)
    {
      threw := RestoreDatabaseBackup(r);
      if threw {
        return;
      }
      threw := WriteOutcomeRecord(r);
      if threw {
        return;
      }
      DiscardDatabaseBackup(r.pending.id, ThenSpawn);
      threw := StartActive();
    }

    method WriteOutcomeRecord(r: Rollback) returns (threw: bool)
      requires Follows(WriteOutcome(r))
      modifies this, machine, environment
      ensures old(run) <= run && stopping == old(stopping)
      ensures if threw then Throwing() else Follows(Discarding(r.pending.id, ThenSpawn))
      ensures !threw ==> state == OutcomeRecord(r) && machine.disk.record == state
      ensures environment.Since(old(environment.faults), old(environment.missing))
      ensures threw ==> environment.faults > old(environment.faults)
    {
      var p := r.pending;
      var next := ServiceState(p.from, Some(Finished(p.id, p.from, p.target, r.status, r.reason)));
      ghost var o;
      threw, o := WriteServiceState(next, WriteOutcome(r));
      if !threw {
        state := next;
        Note(Advance(o), Discarding(p.id, ThenSpawn));
      }
    }

    // -------------------------------------------------------------- queued transitions

    /** The transition `e` has been taken off the queue; `o` is the step's choices. */
    ghost predicate Taking(e: Event, o: Oracle)
      reads this, machine
    {
      TakingFrom(Fields(Idle), e, o)
    }

    ghost predicate TakingFrom(m: Memory, e: Event, o: Oracle)
      reads this, machine
    {
      && IsRun(run)
      && (var w := run[|run| - 1];
          && w == View(Idle).(launcher := Some(m.(queue := [e] + m.queue)), issued := w.issued)
          && m.pc == Idle && o.id !in w.issued && machine.issued == w.issued + {o.id})
    }

    /** The run has gone on from `before`, first by the step that draws the identifier. */
    ghost predicate TookNext(before: seq<World>, issued: set<UpdateId>)
      reads this
    {
      before < run && run[|before|].issued == issued
    }

    /** Only taking a transition off the queue draws an identifier. */
    ghost method TakenKnown(before: seq<World>, issued: set<UpdateId>)
      requires IsRun(run) && before != [] && TookNext(before, issued) && issued != before[|before| - 1].issued
      ensures exists o :: Enabled(before[|before| - 1], Take(o)) && run[|before|] == Effect(before[|before| - 1], Take(o))
    {
      var n := |before|;
      assert StepAt(run, n) && run[n - 1] == before[n - 1];
      var l: Label :| Enabled(run[n - 1], l) && run[n] == Effect(run[n - 1], l);
      OnlyTakeDraws(run[n - 1], l);
    }

    /** Before a transition is taken nothing is on its way back. */
    ghost method AtRest(e: Event, o: Oracle)
      requires Taking(e, o)
      ensures CarriedBy(run[|run| - 1]).None?
    {
    }

    /** Record the first part of a transition, up to what it awaits at `pc`. */
    ghost method NoteTaken(m: Memory, e: Event, o: Oracle, pc: Pc)
      requires TakingFrom(m, e, o) && Fields(pc) == Handle(m, e, o)
      modifies this`run
      ensures Follows(pc) && old(run) <= run && TookNext(old(run), old(machine.issued))
    {
      TakeEffect(run[|run| - 1], m, e, o);
      Extend(Take(o), View(pc));
    }

    ghost method NoteTakenThrow(m: Memory, e: Event, o: Oracle)
      requires TakingFrom(m, e, o) && Throw(Fields(Idle)) == Handle(m, e, o)
      modifies this`run
      ensures Throwing() && old(run) <= run && TookNext(old(run), old(machine.issued))
    {
      TakeEffect(run[|run| - 1], m, e, o);
      Extend(Take(o), Running(View(Idle), Throw(Fields(Idle))));
    }

    /** How a launcher that read `before` may come back: on the active version if nothing
        was pending, and otherwise with the trial or the previous version. */
    ghost predicate Resumed(before: ServiceState, n: int)
      reads this
    {
      if before.IsPending() then Tried(before.PendingUpdate(), before, n)
      else state == before && (stopping || IsChild(before.active, Active))
    }

    /** `#recover`: whatever the previous launcher left, unless an operation throws or a
        stop is under way, this ends with a child attached. */
    method Recover(ghost o: Oracle) returns (threw: bool)
      requires Taking(Event.Recover, o)
      modifies this, machine, environment
      ensures TookNext(old(run), old(machine.issued))
      ensures old(run) <= run && (if threw then Throwing() else Follows(Idle))
      ensures !threw ==> Resumed(old(state), |old(run)| - 1)
      ensures environment.Since(old(environment.faults), old(environment.missing))
      ensures threw ==> environment.faults > old(environment.faults) || environment.missing > old(environment.missing)
      ensures environment.Steady(old(environment.faults), old(environment.missing)) && !stopping && old(state.IsPending()) && !old(IsMarked(state.PendingUpdate().id)) ==>
                var p := old(state.PendingUpdate());
                IsChild(p.target, Trial) || AbsentSince(run, |old(run)| - 1, p)
    {
      ghost var n: nat := |run| - 1;
      NoteTaken(Fields(Idle), Event.Recover, o, ClearingMarker);
      ClearStopMarker();
      threw := Resume(n);
    }

    method ClearStopMarker()
      requires Follows(ClearingMarker)
      modifies this, machine, environment
      ensures old(run) <= run && Follows(Recovering) && state == old(state)
      ensures machine.disk.backups == old(machine.disk.backups)
      ensures environment.Since(old(environment.faults), old(environment.missing))
    {
      Await(ClearingMarker);
      var o := environment.Draw();
      machine.disk := machine.disk.(stopMarker := o.fails && machine.disk.stopMarker);
      Note(Advance(o), Recovering);
    }

    /** The rest of `#recover`, decided by the record and the restore marker. */
    method Resume(ghost n: nat) returns (threw: bool)
      requires Follows(Recovering) && n < |run| && CarriedBy(run[n]).None?
      modifies this, machine, environment
      ensures old(run) <= run && (if threw then Throwing() else Follows(Idle))
      ensures !threw ==> Resumed(old(state), n)
      ensures environment.Since(old(environment.faults), old(environment.missing))
      ensures threw ==> environment.faults > old(environment.faults) || environment.missing > old(environment.missing)
      ensures environment.Steady(old(environment.faults), old(environment.missing)) && !stopping && old(state.IsPending()) && !old(IsMarked(state.PendingUpdate().id)) ==>
                var p := old(state.PendingUpdate());
                IsChild(p.target, Trial) || AbsentSince(run, n, p)
    {
      Await(Recovering);
      var o := environment.Draw();
      if !state.IsPending() {
        threw := ResumeActive(o);
        return;
      }
      threw := ResumePending(state.PendingUpdate(), o, n);
    }

    /** Nothing is pending: discard what a settled update left, and start. */
    method ResumeActive(o: Oracle) returns (threw: bool)
      requires Follows(Recovering) && !state.IsPending()
      modifies this, machine, environment
      ensures old(run) <= run && (if threw then Throwing() else Follows(Idle))
      ensures state == old(state) && (!threw && !stopping ==> IsChild(state.active, Active))
      ensures environment.Since(old(environment.faults), old(environment.missing))
      ensures threw ==> environment.faults > old(environment.faults) || environment.missing > old(environment.missing)
    {
      if state.update.Some? {
        Note(Advance(o), Discarding(state.update.value.Id(), ThenSpawn));
        DiscardDatabaseBackup(state.update.value.Id(), ThenSpawn);
      } else {
        Note(Advance(o), SpawnActive);
      }
      threw := StartActive();
    }

    method ResumePending(p: Pending, o: Oracle, ghost n: nat) returns (threw: bool)
      requires Follows(Recovering) && state.IsPending() && p == state.PendingUpdate()
      requires n < |run| && CarriedBy(run[n]).None?
      modifies this, machine, environment
      ensures old(run) <= run && (if threw then Throwing() else Follows(Idle))
      ensures !threw ==> Tried(p, old(state), n)
      ensures !threw && p.id in old(machine.disk.backups) && old(machine.disk.backups)[p.id].marker ==>
                ReturnedTo(Rollback(p, Failed, RollbackInterrupted))
      ensures environment.Since(old(environment.faults), old(environment.missing))
      ensures threw ==> o.fails || environment.faults > old(environment.faults) || environment.missing > old(environment.missing)
      ensures environment.Steady(old(environment.faults), old(environment.missing)) && !stopping && !o.fails && o.runtime && !old(IsMarked(p.id)) ==>
                IsChild(p.target, Trial) || AbsentSince(run, n, p)
    {
      if o.fails {
        NoteThrow(Advance(o));
        return true;
      }
      if p.id in machine.disk.backups && machine.disk.backups[p.id].marker {
        Note(Advance(o), Fail(p, RollbackInterrupted));
        threw := GiveUp(p, RollbackInterrupted, n);
        assert threw || FailedFor(p, RollbackInterrupted, n);
      } else if !o.runtime {
        Note(Advance(o), Fail(p, TargetRuntimeMissing));
        threw := GiveUp(p, TargetRuntimeMissing, n);
        assert threw || FailedFor(p, TargetRuntimeMissing, n);
      } else {
        Note(Advance(o), BackupEntry(p));
        threw := StartTrial(p, n);
      }
    }

    predicate IsMarked(id: UpdateId)
      reads machine
    {
      id in machine.disk.backups && machine.disk.backups[id].marker
    }

    /** What the attached child's request must satisfy; `runtime` tells whether the target
        is installed. */
    predicate Acceptable(target: Option<Version>, dbPath: string, runtime: bool)
      reads this
    {
      && IsChild(state.active, Active) && !state.IsPending()
      && target.Some? && Compare(target.value, state.active) > 0
      && IsAbsolute(dbPath) && runtime
    }

    /** `#handleUpdateRequest`, for the attached child: an acceptable request is recorded
        and the hand-over scheduled, any other leaves the record and the child alone. */
    method HandleUpdateRequest(target: Option<Version>, dbPath: string, o: Oracle) returns (threw: bool)
      requires child.Some? && !stopping && Taking(FromChild(child.value.pid, RequestUpdate(target, dbPath)), o)
      modifies this, machine, environment
      ensures TookNext(old(run), old(machine.issued))
      ensures old(run) <= run && (if threw then Throwing() else Follows(Idle))
      ensures !threw && !old(Acceptable(target, dbPath, o.runtime)) ==>
                state == old(state) && child == old(child) && machine.disk.record == old(machine.disk.record)
      ensures !threw && old(Acceptable(target, dbPath, o.runtime)) ==>
                && state == old(state).(update := Some(InProgress(Pending(o.id, old(state.active), target.value, dbPath))))
                && machine.disk.record == state
                && timer.Some? && timer.value in armed && armed[timer.value] == HandOff(old(child.value.pid))
      ensures environment.Since(old(environment.faults), old(environment.missing))
      ensures threw ==> environment.faults > old(environment.faults)
    {
      var c := child.value;
      ghost var e := FromChild(c.pid, RequestUpdate(target, dbPath));
      if c.role != Active
        || c.version != state.active
        || state.IsPending()
        || target.None?
        || Compare(target.value, c.version) <= 0
        || !IsAbsolute(dbPath)
        || !o.runtime
      {
        NoteTaken(Fields(Idle), e, o, Rejecting);
        threw := SendMessage(Rejecting);
        return;
      }
      var p := Pending(o.id, c.version, target.value, dbPath);
      NoteTaken(Fields(Idle), e, o, WritePending(p, c.pid));
      threw := AcceptUpdate(p, c.pid);
    }

    /** The accepted request: unless it throws, the pending record is durable and the
        hand-over to the trial is scheduled. */
    method AcceptUpdate(p: Pending, pid: nat) returns (threw: bool)
      requires Follows(WritePending(p, pid))
      modifies this, machine, environment
      ensures old(run) <= run && (if threw then Throwing() else Follows(Idle))
      ensures !threw ==> machine.disk.record == state && state == old(state).(update := Some(InProgress(p)))
      ensures !threw ==> timer.Some? && timer.value in armed && armed[timer.value] == HandOff(pid)
      ensures environment.Since(old(environment.faults), old(environment.missing))
      ensures threw ==> environment.faults > old(environment.faults)
    {
      var next := state.(update := Some(InProgress(p)));
      ghost var o;
      threw, o := WriteServiceState(next, WritePending(p, pid));
      if threw {
        return;
      }
      state := next;
      Note(Advance(o), SendAccepted(pid));
      threw := ScheduleHandOff(pid);
    }

    method ScheduleHandOff(pid: nat) returns (threw: bool)
      requires Follows(SendAccepted(pid))
      modifies this, machine, environment
      ensures old(run) <= run && (if threw then Throwing() else Follows(Idle))
      ensures state == old(state) && machine.disk.record == old(machine.disk.record)
      ensures !threw ==> timer.Some? && timer.value in armed && armed[timer.value] == HandOff(pid)
      ensures environment.Since(old(environment.faults), old(environment.missing))
      ensures threw ==> environment.faults > old(environment.faults)
    {
      Await(SendAccepted(pid));
      var o := environment.Draw();
      threw := o.fails;
      if threw {
        NoteThrow(Advance(o));
      } else {
        SetTimer(HandOff(pid));
        Note(Advance(o), Idle);
      }
    }

    /** `#handlePrepared`, for the attached child: the matching trial becomes the active
        child of a committed update, a mismatched one is rolled back. */
    method HandlePrepared(id: UpdateId, ghost o: Oracle) returns (threw: bool)
      requires child.Some? && !stopping && Taking(FromChild(child.value.pid, Prepared(id)), o)
      modifies this, machine, environment
      ensures TookNext(old(run), old(machine.issued))
      ensures old(run) <= run && (if threw then Throwing() else Follows(Idle))
      ensures !threw ==> old(state.IsPending()) && old(child.value.role) == Trial
      ensures !threw && old(state.IsPending()) ==>
                var p := old(state.PendingUpdate());
                if p.id == id && p.target == old(child.value.version)
                then state == CommittedRecord(p) && IsChild(p.target, Active)
                else ReturnedTo(Rollback(p, RolledBack, InvalidPrepared))
      ensures environment.Since(old(environment.faults), old(environment.missing))
      ensures threw && old(child.value.role) == Trial && old(state.IsPending()) ==>
                environment.faults > old(environment.faults) || environment.missing > old(environment.missing)
    {
      var c := child.value;
      ghost var m := Fields(Idle);
      ghost var e := FromChild(c.pid, Prepared(id));
      if c.role != Trial || !state.IsPending() {
        NoteTakenThrow(m, e, o);
        return true;
      }
      var p := state.PendingUpdate();
      if p.id != id || p.target != c.version {
        child := None;
        NoteTaken(m, e, o, Terminating(c.pid, ThenRestore(Rollback(p, RolledBack, InvalidPrepared))));
        threw := ReturnToPrevious(p, InvalidPrepared, c.pid);
        return;
      }
      threw := AcceptPrepared(p, c, o);
    }

    method AcceptPrepared(p: Pending, c: Child, ghost o: Oracle) returns (threw: bool)
      requires child == Some(c) && c.role == Trial && !stopping && state.IsPending()
      requires p == state.PendingUpdate() && p.target == c.version && Taking(FromChild(c.pid, Prepared(p.id)), o)
      modifies this, machine, environment
      ensures TookNext(old(run), old(machine.issued))
      ensures old(run) <= run && (if threw then Throwing() else Follows(Idle))
      ensures !threw ==> state == CommittedRecord(p) && IsChild(p.target, Active)
      ensures environment.Since(old(environment.faults), old(environment.missing))
      ensures threw ==> environment.faults > old(environment.faults)
    {
      ghost var m := Fields(Idle);
      ClearTimer();
      NoteTaken(m, FromChild(c.pid, Prepared(p.id)), o, WriteCommitted(p, c.pid));
      threw := Commit(p, c.pid);
    }

    /** The commit: unless it throws, the record selects the target and the trial child
        has become the active one. */
    method Commit(p: Pending, pid: nat) returns (threw: bool)
      requires Follows(WriteCommitted(p, pid))
      modifies this, machine, environment
      ensures old(run) <= run && (if threw then Throwing() else Follows(Idle))
      ensures !threw ==> state == CommittedRecord(p)
      ensures !threw && old(child).Some? ==> child == Some(old(child).value.(role := Active))
      ensures environment.Since(old(environment.faults), old(environment.missing))
      ensures threw ==> environment.faults > old(environment.faults)
    {
      threw := RecordCommit(p, pid);
      if !threw {
        threw := DiscardAndTell(p.id, pid);
      }
    }

    method RecordCommit(p: Pending, pid: nat) returns (threw: bool)
      requires Follows(WriteCommitted(p, pid))
      modifies this, machine, environment
      ensures old(run) <= run && (if threw then Throwing() else Follows(Discarding(p.id, ThenTell(pid))))
      ensures !threw ==> state == CommittedRecord(p)
      ensures !threw ==> child == if old(child).Some? then Some(old(child).value.(role := Active)) else None
      ensures environment.Since(old(environment.faults), old(environment.missing))
      ensures threw ==> environment.faults > old(environment.faults)
    {
      var next := ServiceState(p.target, Some(Finished(p.id, p.from, p.target, Committed, NoReason)));
      ghost var o;
      threw, o := WriteServiceState(next, WriteCommitted(p, pid));
      if threw {
        return;
      }
      state := next;
      if child.Some? {
        child := Some(child.value.(role := Active));
      }
      Note(Advance(o), Discarding(p.id, ThenTell(pid)));
    }

    method DiscardAndTell(id: UpdateId, pid: nat) returns (threw: bool)
      requires Follows(Discarding(id, ThenTell(pid)))
      modifies this, machine, environment
      ensures old(run) <= run && (if threw then Throwing() else Follows(Idle))
      ensures !threw ==> state == old(state) && child == old(child)
      ensures environment.Since(old(environment.faults), old(environment.missing))
      ensures threw ==> environment.faults > old(environment.faults)
    {
      DiscardDatabaseBackup(id, ThenTell(pid));
      threw := SendMessage(SendCommitted);
    }

    /** `#returnToPrevious` with a child that must go first. */
    method ReturnToPrevious(p: Pending, reason: Reason, pid: nat) returns (threw: bool)
      requires Follows(Terminating(pid, ThenRestore(Rollback(p, RolledBack, reason))))
      modifies this, machine, environment
      ensures old(run) <= run && (if threw then Throwing() else Follows(Idle))
      ensures !threw ==> ReturnedTo(Rollback(p, RolledBack, reason))
      ensures environment.Since(old(environment.faults), old(environment.missing))
      ensures threw ==> environment.faults > old(environment.faults) || environment.missing > old(environment.missing)
    {
      var r := Rollback(p, RolledBack, reason);
      TerminateChild(pid, ThenRestore(r));
      var o: Oracle := *;
      Note(Advance(o), RestoreEntry(r));
      threw := Restore(r);
    }

    /** The attached child is still the one a timer was set for, with an update pending. */
    predicate IsCurrent(pid: nat, role: Role)
      reads this
    {
      child.Some? && child.value.pid == pid && child.value.role == role && state.IsPending()
    }

    /** `#handlePreparedTimeout` and `#beginTrial`: timers of a replaced child do nothing. */
    method HandlePreparedTimeout(pid: nat, ghost o: Oracle) returns (threw: bool)
      requires Taking(PreparedTimedOut(pid), o)
      modifies this, machine, environment
      ensures TookNext(old(run), old(machine.issued))
      ensures old(run) <= run && (if threw then Throwing() else Follows(Idle))
      ensures !threw && !old(IsCurrent(pid, Trial)) ==>
                state == old(state) && child == old(child) && machine.disk == old(machine.disk)
      ensures !threw && old(IsCurrent(pid, Trial)) ==>
                ReturnedTo(Rollback(old(state.PendingUpdate()), RolledBack, Reason.PreparedTimeout))
      ensures environment.Since(old(environment.faults), old(environment.missing))
      ensures threw ==> environment.faults > old(environment.faults) || environment.missing > old(environment.missing)
    {
      ghost var m := Fields(Idle);
      ghost var e := PreparedTimedOut(pid);
      if child.None? || child.value.pid != pid || child.value.role != Trial || !state.IsPending() {
        NoteTaken(m, e, o, Idle);
        return false;
      }
      threw := RollBackTrial(state.PendingUpdate(), pid, o);
    }

    method RollBackTrial(p: Pending, pid: nat, ghost o: Oracle) returns (threw: bool)
      requires Taking(PreparedTimedOut(pid), o) && IsCurrent(pid, Trial) && p == state.PendingUpdate()
      modifies this, machine, environment
      ensures TookNext(old(run), old(machine.issued))
      ensures old(run) <= run && (if threw then Throwing() else Follows(Idle))
      ensures !threw ==> ReturnedTo(Rollback(p, RolledBack, Reason.PreparedTimeout))
      ensures environment.Since(old(environment.faults), old(environment.missing))
      ensures threw ==> environment.faults > old(environment.faults) || environment.missing > old(environment.missing)
    {
      ghost var m := Fields(Idle);
      timer, child := None, None;
      NoteTaken(m, PreparedTimedOut(pid), o, Terminating(pid, ThenRestore(Rollback(p, RolledBack, Reason.PreparedTimeout))));
      threw := ReturnToPrevious(p, Reason.PreparedTimeout, pid);
    }

    method BeginTrial(pid: nat, ghost o: Oracle) returns (threw: bool)
      requires Taking(HandOff(pid), o)
      modifies this, machine, environment
      ensures TookNext(old(run), old(machine.issued))
      ensures old(run) <= run && (if threw then Throwing() else Follows(Idle))
      ensures !threw && !old(IsCurrent(pid, Active)) ==>
                state == old(state) && child == old(child) && machine.disk == old(machine.disk)
      ensures !threw && old(IsCurrent(pid, Active)) ==> Tried(old(state.PendingUpdate()), old(state), |old(run)| - 1)
      ensures environment.Since(old(environment.faults), old(environment.missing))
      ensures threw ==> environment.faults > old(environment.faults) || environment.missing > old(environment.missing)
      ensures environment.Steady(old(environment.faults), old(environment.missing)) && !stopping && old(IsCurrent(pid, Active)) ==>
                var p := old(state.PendingUpdate());
                IsChild(p.target, Trial) || AbsentSince(run, |old(run)| - 1, p)
    {
      ghost var m := Fields(Idle);
      ghost var e := HandOff(pid);
      if child.None? || child.value.pid != pid || child.value.role != Active || !state.IsPending() {
        NoteTaken(m, e, o, Idle);
        return false;
      }
      threw := HandOver(state.PendingUpdate(), pid, o);
    }

    /** The active child goes, so that the database is quiescent, and the trial starts. */
    method HandOver(p: Pending, pid: nat, ghost o: Oracle) returns (threw: bool)
      requires Taking(HandOff(pid), o) && IsCurrent(pid, Active) && p == state.PendingUpdate()
      modifies this, machine, environment
      ensures TookNext(old(run), old(machine.issued))
      ensures old(run) <= run && (if threw then Throwing() else Follows(Idle))
      ensures !threw ==> Tried(p, old(state), |old(run)| - 1)
      ensures environment.Since(old(environment.faults), old(environment.missing))
      ensures threw ==> environment.faults > old(environment.faults) || environment.missing > old(environment.missing)
      ensures environment.Steady(old(environment.faults), old(environment.missing)) && !stopping ==> IsChild(p.target, Trial) || AbsentSince(run, |old(run)| - 1, p)
    {
      ghost var n: nat := |run| - 1;
      AtRest(HandOff(pid), o);
      ghost var m := Fields(Idle);
      timer, child := None, None;
      NoteTaken(m, HandOff(pid), o, Terminating(pid, ThenTrial(p)));
      EndChild(p, pid);
      threw := StartTrial(p, n);
    }

    method EndChild(p: Pending, pid: nat)
      requires Follows(Terminating(pid, ThenTrial(p)))
      modifies this, machine
      ensures old(run) <= run && Follows(BackupEntry(p)) && state == old(state)
    {
      TerminateChild(pid, ThenTrial(p));
      var o: Oracle := *;
      Note(Advance(o), BackupEntry(p));
    }

    /** `#handleExit`, for the attached child: an exit that no pending update explains is
        fatal. */
    method HandleExit(ghost o: Oracle) returns (threw: bool)
      requires child.Some? && !stopping && Taking(Exited(child.value.pid), o)
      modifies this, machine, environment
      ensures TookNext(old(run), old(machine.issued))
      ensures old(run) <= run && (if threw then Throwing() else Follows(Idle))
      ensures !threw ==> old(state.IsPending())
      ensures !threw && old(state.IsPending()) ==>
                var p := old(state.PendingUpdate());
                if old(child.value.role) == Trial
                then ReturnedTo(Rollback(p, RolledBack, CandidateExited))
                else Tried(p, old(state), |old(run)| - 1)
      ensures environment.Since(old(environment.faults), old(environment.missing))
      ensures threw && old(state.IsPending()) ==>
                environment.faults > old(environment.faults) || environment.missing > old(environment.missing)
      ensures environment.Steady(old(environment.faults), old(environment.missing)) && !stopping && old(state.IsPending()) && old(child.value.role) == Active ==>
                var p := old(state.PendingUpdate());
                IsChild(p.target, Trial) || AbsentSince(run, |old(run)| - 1, p)
    {
      if !state.IsPending() {
        ghost var m := Fields(Idle);
        ghost var e := Exited(child.value.pid);
        child := None;
        ClearTimer();
        NoteTakenThrow(m, e, o);
        return true;
      }
      if child.value.role == Trial {
        threw := TrialExited(state.PendingUpdate(), o);
      } else {
        threw := ActiveExited(state.PendingUpdate(), o);
      }
    }

    method TrialExited(p: Pending, ghost o: Oracle) returns (threw: bool)
      requires child.Some? && !stopping && Taking(Exited(child.value.pid), o)
      requires child.value.role == Trial && state.IsPending() && p == state.PendingUpdate()
      modifies this, machine, environment
      ensures TookNext(old(run), old(machine.issued))
      ensures old(run) <= run && (if threw then Throwing() else Follows(Idle))
      ensures !threw ==> ReturnedTo(Rollback(p, RolledBack, CandidateExited))
      ensures environment.Since(old(environment.faults), old(environment.missing))
      ensures threw ==> environment.faults > old(environment.faults) || environment.missing > old(environment.missing)
    {
      ghost var m := Fields(Idle);
      ghost var e := Exited(child.value.pid);
      child := None;
      ClearTimer();
      NoteTaken(m, e, o, RestoreEntry(Rollback(p, RolledBack, CandidateExited)));
      threw := Restore(Rollback(p, RolledBack, CandidateExited));
    }

    method ActiveExited(p: Pending, ghost o: Oracle) returns (threw: bool)
      requires child.Some? && !stopping && Taking(Exited(child.value.pid), o)
      requires child.value.role == Active && state.IsPending() && p == state.PendingUpdate()
      modifies this, machine, environment
      ensures TookNext(old(run), old(machine.issued))
      ensures old(run) <= run && (if threw then Throwing() else Follows(Idle))
      ensures !threw ==> Tried(p, old(state), |old(run)| - 1)
      ensures environment.Since(old(environment.faults), old(environment.missing))
      ensures threw ==> environment.faults > old(environment.faults) || environment.missing > old(environment.missing)
      ensures environment.Steady(old(environment.faults), old(environment.missing)) && !stopping ==> IsChild(p.target, Trial) || AbsentSince(run, |old(run)| - 1, p)
    {
      ghost var n: nat := |run| - 1;
      AtRest(Exited(child.value.pid), o);
      ghost var m := Fields(Idle);
      ghost var e := Exited(child.value.pid);
      child := None;
      ClearTimer();
      NoteTaken(m, e, o, BackupEntry(p));
      threw := StartTrial(p, n);
    }

    /** `stop`, called on a signal at any moment: the marker and the flag are set at once,
        the rest is queued. */
    method Stop(marked: bool, ghost pc: Pc)
      requires Follows(pc)
      modifies this, machine
      ensures old(run) <= run && Follows(pc) && state == old(state) && child == old(child)
      ensures marked ==> machine.disk.stopMarker
      ensures old(stopRequested) || old(stopping) || (stopRequested && timer.None? && transitions == old(transitions) + [Event.Stop])
    {
      machine.disk := machine.disk.(stopMarker := marked || machine.disk.stopMarker);
      if !stopRequested && !stopping {
        stopRequested := true;
        ClearTimer();
        transitions := transitions + [Event.Stop];
      }
      Note(Signal(marked), pc);
    }

    /** The transition queued by `stop`: afterwards no child is alive. */
    method FinishStop(ghost o: Oracle)
      requires Taking(Event.Stop, o)
      modifies this, machine
      ensures TookNext(old(run), old(machine.issued))
      ensures old(run) <= run && Follows(Idle)
      ensures stopping && done && child.None? && machine.alive == map[]
    {
      ghost var m := Fields(Idle);
      var c := child;
      stopping, child := true, None;
      if c.Some? {
        NoteTaken(m, Event.Stop, o, Terminating(c.value.pid, ThenStopped));
        StopChild(c.value.pid);
      } else {
        done := true;
        NoteTaken(m, Event.Stop, o, Idle);
      }
      Settle();
    }

    method StopChild(pid: nat)
      requires Follows(Terminating(pid, ThenStopped))
      modifies this, machine
      ensures old(run) <= run && Follows(Idle) && done
    {
      TerminateChild(pid, ThenStopped);
      var o: Oracle := *;
      done := true;
      Note(Advance(o), Idle);
    }

    /** One link of the chain built by `#enqueue`: run the transition; if it throws, end
        in `#fatal`. */
    method RunNext()
      requires Follows(Idle) && transitions != []
      modifies this, machine, environment
      ensures old(run) < run && Follows(Idle)
      ensures exists o ::
                && Enabled(old(run)[|old(run)| - 1], Take(o))
                && run[|old(run)|] == Effect(old(run)[|old(run)| - 1], Take(o))
      ensures environment.Since(old(environment.faults), old(environment.missing))
    {
      var o := environment.Draw();
      var id := FreshId(machine.issued);
      o := o.(id := id);
      var e := TakeFirst(o);
      RunTaken(e, o);
      TakenKnown(old(run), old(machine.issued) + {id});
    }

    method TakeFirst(o: Oracle) returns (e: Event)
      requires Follows(Idle) && transitions != [] && o.id !in machine.issued
      modifies this`transitions, machine`issued
      ensures Taking(e, o) && machine.issued == old(machine.issued) + {o.id}
    {
      e := transitions[0];
      assert transitions == [e] + transitions[1..];
      transitions := transitions[1..];
      machine.issued := machine.issued + {o.id};
    }

    method RunTaken(e: Event, o: Oracle)
      requires Taking(e, o)
      modifies this, machine, environment
      ensures TookNext(old(run), old(machine.issued)) && Follows(Idle)
      ensures environment.Since(old(environment.faults), old(environment.missing))
    {
      var threw := Perform(e, o);
      if threw {
        Fatal();
      }
    }

    method Perform(e: Event, o: Oracle) returns (threw: bool)
      requires Taking(e, o)
      modifies this, machine, environment
      ensures TookNext(old(run), old(machine.issued))
      ensures old(run) <= run && (if threw then Throwing() else Follows(Idle))
      ensures environment.Since(old(environment.faults), old(environment.missing))
    {
      match e
      case Recover =>
        threw := Recover(o);
      case FromChild(pid, message) =>
        if child.None? || child.value.pid != pid || stopping {
          NoteTaken(Fields(Idle), e, o, Idle);
          threw := false;
        } else {
          match message
          case RequestUpdate(target, dbPath) => threw := HandleUpdateRequest(target, dbPath, o);
          case Prepared(id) => threw := HandlePrepared(id, o);
        }
      case Exited(pid) =>
        if child.None? || child.value.pid != pid || stopping {
          NoteTaken(Fields(Idle), e, o, Idle);
          threw := false;
        } else {
          threw := HandleExit(o);
        }
      case PreparedTimedOut(pid) => threw := HandlePreparedTimeout(pid, o);
      case HandOff(pid) => threw := BeginTrial(pid, o);
      case ChildError(_) =>
        NoteTakenThrow(Fields(Idle), e, o);
        threw := true;
      case Stop =>
        FinishStop(o);
        threw := false;
    }
  }
}
