/** The steps of the update protocol. A label fixes every choice its step depends on,
    so each step is a function of the world: what a child writes or says, when
    processes exit, whether an operation throws before or after taking effect, what a
    half-written file holds, whether a runtime is installed, where the launcher crashes. */
module LauncherSteps {
  import opened Collections
  import opened Outcomes
  import opened ServiceProtocol
  import opened LauncherWorld

  /** One entry of a backup directory, the unit in which it is deleted. */
  datatype Victim = Marker | Copy(suffix: Suffix)

  datatype Oracle = Oracle(
    fails: bool,               // the awaited operation throws,
    late: bool,                // but only after it took effect
    runtime: bool,             // the runtime asked for is installed
    partial: Option<Content>,  // what a copy in progress leaves in its target
    victim: Victim,            // the next entry a recursive delete removes
    id: UpdateId)              // the identifier drawn for a new update

  datatype Label =
    | Write(pid: nat, path: string, content: Option<Content>)
    | Exit(pid: nat)
    | Say(pid: nat, message: Message)
    | Raise(pid: nat)
    | Fire(timer: nat)
    | Signal(marked: bool)
    | Crash
    | Restart
    | Take(oracle: Oracle)
    | Advance(oracle: Oracle)

  function Running(w: World, m: Memory): World {
    w.(launcher := Some(m))
  }

  function ClearTimer(m: Memory): Memory {
    m.(armed := if m.timer.Some? then m.armed - {m.timer.value} else m.armed, timer := None)
  }

  /** A transition that throws ends in `#fatal`. */
  function Throw(m: Memory): Memory {
    if m.done then m.(pc := Idle)
    else
      ClearTimer(m).(done := true, stopping := true, child := None,
      pc := if m.child.Some? then Terminating(m.child.value.pid, ThenFailed) else Idle)
  }

  function Resume(m: Memory, after: After): Memory {
    match after
    case ThenTrial(p) => m.(pc := BackupEntry(p))
    case ThenRestore(r) => m.(pc := RestoreEntry(r))
    case ThenStopped => m.(done := true, pc := Idle)
    case ThenFailed => m.(pc := Idle)
    case ThenIdle => m.(pc := Idle)
  }

  // ---------------------------------------------------------------- queued transitions

  function IsAbsolute(path: string): bool {
    path != "" && path[0] == '/'
  }

  /** `#handleUpdateRequest` up to its first awaited write or message. */
  function RequestedUpdate(m: Memory, c: Child, target: Option<Version>, dbPath: string, o: Oracle): Memory {
    if c.role != Active
      || c.version != m.state.active
      || m.state.IsPending()
      || target.None?
      || Compare(target.value, c.version) <= 0
      || !IsAbsolute(dbPath)
      || !o.runtime
    then m.(pc := Rejecting)
    else m.(pc := WritePending(Pending(o.id, c.version, target.value, dbPath), c.pid))
  }

  /** `#handlePrepared` up to its first awaited operation. */
  function ReportedPrepared(m: Memory, c: Child, id: UpdateId): Memory {
    if c.role == Trial && m.state.IsPending() then
      var p := m.state.PendingUpdate();
      if p.id == id && p.target == c.version
      then ClearTimer(m).(pc := WriteCommitted(p, c.pid))
      else m.(child := None, pc := Terminating(c.pid, ThenRestore(Rollback(p, RolledBack, InvalidPrepared))))
    else Throw(m)
  }

  /** `#handleExit`: a trial rolls back, an active child with a pending update hands
      over to the trial, any other exit is fatal. */
  function ChildExited(m: Memory, c: Child): Memory {
    var n := ClearTimer(m).(child := None);
    if c.role == Trial then
      if m.state.IsPending()
      then n.(pc := RestoreEntry(Rollback(m.state.PendingUpdate(), RolledBack, CandidateExited)))
      else Throw(n)
    else if m.state.IsPending() then n.(pc := BackupEntry(m.state.PendingUpdate()))
    else Throw(n)
  }

  function Handle(m: Memory, e: Event, o: Oracle): Memory {
    match e
    case Recover => m.(pc := ClearingMarker)
    case FromChild(pid, message) =>
      if m.child.None? || m.child.value.pid != pid || m.stopping then m
      else (match message
            case RequestUpdate(target, dbPath) => RequestedUpdate(m, m.child.value, target, dbPath, o)
            case Prepared(id) => ReportedPrepared(m, m.child.value, id))
    case Exited(pid) =>
      if m.child.None? || m.child.value.pid != pid || m.stopping then m
      else ChildExited(m, m.child.value)
    case PreparedTimedOut(pid) =>
      if m.child.None? || m.child.value.pid != pid || m.child.value.role != Trial || !m.state.IsPending() then m
      else m.(timer := None, child := None,
              pc := Terminating(pid, ThenRestore(Rollback(m.state.PendingUpdate(), RolledBack, PreparedTimeout))))
    case HandOff(pid) =>
      if m.child.None? || m.child.value.pid != pid || m.child.value.role != Active || !m.state.IsPending() then m
      else m.(timer := None, child := None, pc := Terminating(pid, ThenTrial(m.state.PendingUpdate())))
    case ChildError(_) => Throw(m)
    case Stop =>
      var n := m.(stopping := true, child := None);
      if m.child.Some? then n.(pc := Terminating(m.child.value.pid, ThenStopped)) else n.(done := true)
  }

  // ---------------------------------------------------------------- awaited operations

  function Fail(p: Pending, reason: Reason): Pc {
    RestoreEntry(Rollback(p, Failed, reason))
  }

  function Recovered(w: World, m: Memory, o: Oracle): World {
    if !m.state.IsPending() then
      Running(w, m.(pc := if m.state.update.Some? then Discarding(m.state.update.value.Id(), ThenSpawn) else SpawnActive))
    else
      var p := m.state.PendingUpdate();
      if o.fails then Running(w, Throw(m))
      else if p.id in w.disk.backups && w.disk.backups[p.id].marker then
        Running(w, m.(pc := Fail(p, RollbackInterrupted)))
      else if !o.runtime then Running(w, m.(pc := Fail(p, TargetRuntimeMissing)))
      else Running(w, m.(pc := BackupEntry(p)))
  }

  /** The child is gone; its exit is queued whether or not anyone still cares. */
  function Terminated(w: World, m: Memory, pid: nat, after: After): World {
    var n := if pid in w.alive then m.(queue := m.queue + [Exited(pid)]) else m;
    Running(w, Resume(n, after)).(alive := w.alive - {pid})
  }

  function BackupEntered(w: World, m: Memory, p: Pending, o: Oracle): World {
    Running(w, m.(pc :=
      if o.fails then Fail(p, DbBackupFailed)
      else if p.id in w.disk.backups then SpawnTrial(p)
      else BackupClean(p)))
  }

  /** Recursive delete of a staging directory, one file a step. */
  function StagingWithout(d: Disk, id: UpdateId, victim: Victim): Disk
    requires id in d.staging
  {
    if d.staging[id] == map[] then d.(staging := d.staging - {id})
    else if victim.Copy? then d.(staging := d.staging[id := d.staging[id] - {victim.suffix}])
    else d
  }

  function BackupCleaned(w: World, m: Memory, p: Pending, o: Oracle): World {
    if o.fails then Running(w, m.(pc := Fail(p, DbBackupFailed)))
    else if p.id in w.disk.staging then w.(disk := StagingWithout(w.disk, p.id, o.victim))
    else Running(w.(disk := w.disk.(staging := w.disk.staging[p.id := map[]])), m.(pc := BackupCopy(p, 0, false)))
  }

  function BackupCopied(w: World, m: Memory, p: Pending, i: nat, begun: bool, o: Oracle): World {
    var d := w.disk;
    if p.id !in d.staging then Running(w, m.(pc := BackupAbort(p)))
    else if i >= SUFFIX_COUNT then Running(w, m.(pc := BackupRename(p)))
    else
      var s := SuffixAt(i);
      var source := FileOf(p.dbPath, s);
      if o.fails || (source !in d.files && (begun || s == Main)) then Running(w, m.(pc := BackupAbort(p)))
      else if source !in d.files then Running(w, m.(pc := BackupCopy(p, i + 1, false)))
      else
        var written := if begun then Some(d.files[source]) else o.partial;
        Running(w.(disk := d.(staging := d.staging[p.id := Bind(d.staging[p.id], s, written)])),
                m.(pc := if begun then BackupCopy(p, i + 1, false) else BackupCopy(p, i, true)))
  }

  function BackupRenamed(w: World, m: Memory, p: Pending, o: Oracle): World {
    var d := w.disk;
    if p.id !in d.staging || (o.fails && !o.late) then Running(w, m.(pc := BackupAbort(p)))
    else Running(w.(disk := d.(staging := d.staging - {p.id}, backups := d.backups[p.id := Backup(d.staging[p.id], false)])),
                 m.(pc := if o.fails then BackupAbort(p) else SpawnTrial(p)))
  }

  function BackupAborted(w: World, m: Memory, p: Pending, o: Oracle): World {
    if o.fails || p.id !in w.disk.staging then Running(w, m.(pc := Fail(p, DbBackupFailed)))
    else w.(disk := StagingWithout(w.disk, p.id, o.victim))
  }

  /** `spawn`: the process runs before the launcher has attached to it. */
  function Spawned(w: World, m: Memory, version: Version, role: Role): World {
    Running(w, m.(pc := Attaching(Child(w.nextPid, version, role))))
    .(alive := w.alive[w.nextPid := version], nextPid := w.nextPid + 1)
  }

  function TrialSpawned(w: World, m: Memory, p: Pending, o: Oracle): World {
    if m.stopping then Running(w, m.(pc := Idle))
    else if !o.runtime || o.fails then Running(w, m.(pc := Fail(p, CandidateStartFailed)))
    else Spawned(w, m, p.target, Trial)
  }

  function ActiveSpawned(w: World, m: Memory, o: Oracle): World {
    if m.stopping then Running(w, m.(pc := Idle))
    else if !o.runtime || o.fails then Running(w, Throw(m))
    else Spawned(w, m, m.state.active, Active)
  }

  function Arm(w: World, m: Memory, e: Event): World {
    Running(w, m.(timer := Some(w.nextTimer), armed := m.armed[w.nextTimer := e])).(nextTimer := w.nextTimer + 1)
  }

  function Attached(w: World, m: Memory, c: Child): World {
    if m.stopping then Running(w, m.(pc := Terminating(c.pid, ThenIdle)))
    else
      var n := m.(child := Some(c), pc := Idle);
      if c.role == Trial then Arm(w, n, PreparedTimedOut(c.pid)) else Running(w, n)
  }

  function RestoreEntered(w: World, m: Memory, r: Rollback, o: Oracle): World {
    Running(w,
      if o.fails then Throw(m)
      else if r.pending.id in w.disk.backups then m.(pc := RestoreMark(r))
      else m.(pc := WriteOutcome(r)))
  }

  function RestoreMarked(w: World, m: Memory, r: Rollback, o: Oracle): World {
    var id := r.pending.id;
    if id !in w.disk.backups then Running(w, Throw(m))
    else
    var marked := w.(disk := w.disk.(backups := w.disk.backups[id := w.disk.backups[id].(marker := true)]));
    if o.fails then Running(if o.late then marked else w, Throw(m))
    else Running(marked, m.(pc := RestoreCopy(r, 0, false)))
  }

  function RestoreCopied(w: World, m: Memory, r: Rollback, i: nat, begun: bool, o: Oracle): World {
    var d := w.disk;
    if o.fails then Running(w, Throw(m))
    else if i >= SUFFIX_COUNT then Running(w, m.(pc := WriteOutcome(r)))
    else
      var s := SuffixAt(i);
      var target := FileOf(r.pending.dbPath, s);
      var copies := if r.pending.id in d.backups then d.backups[r.pending.id].copies else map[];
      if s in copies && !begun then
        Running(w.(disk := d.(files := Bind(d.files, target, o.partial))), m.(pc := RestoreCopy(r, i, true)))
      else
        Running(w.(disk := d.(files := Bind(d.files, target, Get(copies, s)))), m.(pc := RestoreCopy(r, i + 1, false)))
  }

  /** `writeServiceState`: rename replaces the record in one step; a throw leaves the
      record of memory unchanged whichever side of the rename it comes from. */
  function Recorded(w: World, m: Memory, next: ServiceState, o: Oracle, onward: Memory): World {
    var written := w.(disk := w.disk.(record := next));
    if o.fails then Running(if o.late then written else w, Throw(m))
    else Running(written, onward.(state := next))
  }

  function OutcomeRecord(r: Rollback): ServiceState {
    var p := r.pending;
    ServiceState(p.from, Some(Finished(p.id, p.from, p.target, r.status, r.reason)))
  }

  function CommittedRecord(p: Pending): ServiceState {
    ServiceState(p.target, Some(Finished(p.id, p.from, p.target, Committed, NoReason)))
  }

  /** Recursive delete of a backup directory, one entry a step; errors are ignored. */
  function Discarded(w: World, m: Memory, id: UpdateId, next: AfterDiscard, o: Oracle): World {
    var d := w.disk;
    var onward := m.(pc := if next.ThenSpawn? then SpawnActive else SendCommitted);
    if o.fails || id !in d.backups then Running(w, onward)
    else
      var b := d.backups[id];
      if !b.marker && b.copies == map[] then Running(w.(disk := d.(backups := d.backups - {id})), onward)
      else
        var rest := if o.victim.Marker? then b.(marker := false) else b.(copies := b.copies - {o.victim.suffix});
        w.(disk := d.(backups := d.backups[id := rest]))
  }

  function Operate(w: World, m: Memory, o: Oracle): World {
    match m.pc
    case Idle => w
    case ClearingMarker =>
      Running(w.(disk := w.disk.(stopMarker := o.fails && w.disk.stopMarker)), m.(pc := Recovering))
    case Recovering => Recovered(w, m, o)
    case Terminating(pid, after) => Terminated(w, m, pid, after)
    case BackupEntry(p) => BackupEntered(w, m, p, o)
    case BackupClean(p) => BackupCleaned(w, m, p, o)
    case BackupCopy(p, i, begun) => BackupCopied(w, m, p, i, begun, o)
    case BackupRename(p) => BackupRenamed(w, m, p, o)
    case BackupAbort(p) => BackupAborted(w, m, p, o)
    case SpawnTrial(p) => TrialSpawned(w, m, p, o)
    case RestoreEntry(r) => RestoreEntered(w, m, r, o)
    case RestoreMark(r) => RestoreMarked(w, m, r, o)
    case RestoreCopy(r, i, begun) => RestoreCopied(w, m, r, i, begun, o)
    case WriteOutcome(r) =>
      Recorded(w, m, OutcomeRecord(r), o, m.(pc := Discarding(r.pending.id, ThenSpawn)))
    case Discarding(id, next) => Discarded(w, m, id, next, o)
    case SpawnActive => ActiveSpawned(w, m, o)
    case Attaching(c) => Attached(w, m, c)
    case Rejecting => Running(w, if o.fails then Throw(m) else m.(pc := Idle))
    case WritePending(p, pid) =>
      Recorded(w, m, m.state.(update := Some(InProgress(p))), o, m.(pc := SendAccepted(pid)))
    case SendAccepted(pid) =>
      if o.fails then Running(w, Throw(m)) else Arm(w, m.(pc := Idle), HandOff(pid))
    case WriteCommitted(p, pid) =>
      Recorded(w, m, CommittedRecord(p), o,
               m.(child := if m.child.Some? then Some(m.child.value.(role := Active)) else None,
                  pc := Discarding(p.id, ThenTell(pid))))
    case SendCommitted => Running(w, if o.fails then Throw(m) else m.(pc := Idle))
  }

  // ---------------------------------------------------------------- the step relation

  /** Whether a label can happen. Identifiers drawn for an update are fresh. */
  predicate Enabled(w: World, l: Label) {
    match l
    case Write(pid, _, _) => pid in w.alive
    case Exit(pid) => pid in w.alive
    case Say(pid, _) => w.launcher.Some? && pid < w.nextPid
    case Raise(pid) => w.launcher.Some? && pid < w.nextPid
    case Fire(t) => w.launcher.Some? && t in w.launcher.value.armed
    case Signal(_) => w.launcher.Some?
    case Crash => w.launcher.Some?
    case Restart => w.launcher.None? && Decodes(w.disk.record)
    case Take(o) =>
      && w.launcher.Some? && w.launcher.value.pc == Idle && w.launcher.value.queue != []
      && o.id !in w.issued
    case Advance(_) => w.launcher.Some? && w.launcher.value.pc != Idle
  }

  function Enqueue(w: World, e: Event): World {
    if w.launcher.None? then w
    else Running(w, w.launcher.value.(queue := w.launcher.value.queue + [e]))
  }

  function Booted(s: ServiceState): Memory {
    Memory(s, None, None, false, false, false, [Recover], map[], Idle)
  }

  /** `stop`, up to the transition it queues. A failed marker write is ignored. */
  function Signalled(w: World, m: Memory, marked: bool): World {
    var x := w.(disk := w.disk.(stopMarker := marked || w.disk.stopMarker));
    if m.stopRequested || m.stopping then x
    else Running(x, ClearTimer(m).(stopRequested := true, queue := m.queue + [Stop]))
  }

  function Effect(w: World, l: Label): World
    requires Enabled(w, l)
  {
    match l
    case Write(_, path, content) => w.(disk := w.disk.(files := Bind(w.disk.files, path, content)))
    case Exit(pid) => Enqueue(w, Exited(pid)).(alive := w.alive - {pid})
    case Say(pid, message) => Enqueue(w, FromChild(pid, message))
    case Raise(pid) => Enqueue(w, ChildError(pid))
    case Fire(t) =>
      var m := w.launcher.value;
      Running(w, m.(armed := m.armed - {t}, queue := m.queue + [m.armed[t]]))
    case Signal(marked) => Signalled(w, w.launcher.value, marked)
    case Crash => w.(launcher := None, alive := map[])
    case Restart => Running(w, Booted(w.disk.record))
    case Take(o) =>
      var m := w.launcher.value;
      Running(w, Handle(m.(queue := m.queue[1..]), m.queue[0], o)).(issued := w.issued + {o.id})
    case Advance(o) => Operate(w, w.launcher.value, o)
  }

  ghost predicate Step(w: World, w': World) {
    exists l: Label :: Enabled(w, l) && w' == Effect(w, l)
  }
}
