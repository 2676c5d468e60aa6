/** Every step keeps the invariant: one lemma per kind of step. */
module LauncherPreservation {
  import opened Outcomes
  import opened ServiceProtocol
  import opened LauncherWorld
  import opened LauncherSteps
  import opened LauncherInvariant
  import opened RecordHistory

  // ---------------------------------------------------------------- history

  /** A step in which nobody dies and the record stays leaves the history alone. */
  lemma QuietHistory(h: History, w: World, w': World)
    requires DurableInv(w, h)
    requires w.alive.Keys <= w'.alive.Keys && w'.disk.record == w.disk.record
    ensures Observe(h, w, w') == h
  {
    assert Died(w, w') == {};
    assert h.left + (map v | v in Died(w, w') :: w.disk.files) == h.left;
    assert h.seen + Ids(w'.disk.record) == h.seen;
    if w.disk.record.IsPending() {
      var p := w.disk.record.PendingUpdate();
      assert h.paths[p.id := p.dbPath] == h.paths;
    }
  }

  lemma TargetIsNotFrom(s: ServiceState)
    requires Decodes(s) && s.IsPending()
    ensures s.PendingUpdate().target != s.PendingUpdate().from
  {
    var p := s.PendingUpdate();
    CompareOrder(p.target, p.from, p.from);
  }

  /** The death of the only live process: its version's entry becomes the files on disk. */
  lemma DeathHistory(w: World, h: History, w': World, pid: nat)
    requires DurableInv(w, h) && w.alive.Keys <= {pid} && pid in w.alive
    requires w'.alive == map[] && w'.disk == w.disk
    ensures LeftBy(Observe(h, w, w'), w.alive[pid]) == w.disk.files
    ensures forall v :: v != w.alive[pid] ==> LeftBy(Observe(h, w, w'), v) == LeftBy(h, v)
    ensures Observe(h, w, w').paths == h.paths && Observe(h, w, w').seen == h.seen
  {
    assert Died(w, w') == {w.alive[pid]};
    if w.disk.record.IsPending() {
      var p := w.disk.record.PendingUpdate();
      assert h.paths[p.id := p.dbPath] == h.paths;
    }
  }

  lemma Death(w: World, h: History, w': World, pid: nat)
    requires DurableInv(w, h) && w.alive.Keys <= {pid} && pid in w.alive
    requires w'.alive == map[] && w'.disk == w.disk && w'.issued == w.issued
    ensures DurableInv(w', Observe(h, w, w'))
    ensures LeftBy(Observe(h, w, w'), w.alive[pid]) == w.disk.files
    ensures forall v :: v != w.alive[pid] ==> LeftBy(Observe(h, w, w'), v) == LeftBy(h, v)
    ensures Observe(h, w, w').paths == h.paths && Observe(h, w, w').seen == h.seen
  {
    DeathHistory(w, h, w', pid);
    if w.disk.record.IsPending() {
      TargetIsNotFrom(w.disk.record);
    }
  }

  // ---------------------------------------------------------------- frames

  /** Two worlds in which the protocol's data, and with it every position, mean the same. */
  predicate SameData(w: World, w': World) {
    && w'.disk.(stopMarker := w.disk.stopMarker) == w.disk
    && w'.alive == w.alive && w'.nextPid == w.nextPid && w'.issued == w.issued
  }

  lemma DurableFrame(w: World, w': World, h: History)
    requires DurableInv(w, h) && SameData(w, w')
    ensures DurableInv(w', h)
  {
  }

  lemma PcFrame(w: World, m: Memory, w': World, m': Memory, h: History)
    requires PcInv(w, m, h) && SameData(w, w')
    requires m'.pc == m.pc && m'.child == m.child && m'.stopping == m.stopping
    ensures PcInv(w', m', h)
  {
  }

  lemma MemoryFrame(w: World, w': World, m: Memory, h: History)
    requires MemoryInv(w, m, h) && SameData(w, w')
    ensures MemoryInv(w', m, h)
  {
    PcFrame(w, m, w', m, h);
  }

  // ---------------------------------------------------------------- the environment

  lemma KeepWrite(w: World, h: History, pid: nat, path: string, content: Option<Content>)
    requires Inv(w, h) && pid in w.alive
    ensures var w' := Effect(w, Write(pid, path, content)); Inv(w', Observe(h, w, w'))
  {
    var w' := Effect(w, Write(pid, path, content));
    QuietHistory(h, w, w');
  }

  lemma KeepExit(w: World, h: History, pid: nat)
    requires Inv(w, h) && pid in w.alive
    ensures var w' := Effect(w, Exit(pid)); Inv(w', Observe(h, w, w'))
  {
    var w' := Effect(w, Exit(pid));
    assert w'.alive == map[];
    Death(w, h, w', pid);
    ExitPc(w, h, pid);
  }

  lemma ExitPc(w: World, h: History, pid: nat)
    requires Inv(w, h) && pid in w.alive
    ensures var w' := Effect(w, Exit(pid)); PcInv(w', w'.launcher.value, Observe(h, w, w'))
    ensures var m := w.launcher.value;
            m.child.Some? ==> ChildInv(Effect(w, Exit(pid)), Observe(h, w, Effect(w, Exit(pid))), m.child.value)
  {
    var w' := Effect(w, Exit(pid));
    assert w'.alive == map[];
    Death(w, h, w', pid);
  }

  lemma Enqueued(w: World, h: History, w': World, e: Event)
    requires Inv(w, h) && w.launcher.Some? && SameData(w, w') && e != Recover && !e.Exited?
    requires w'.launcher.Some?
    requires var m, m' := w.launcher.value, w'.launcher.value;
             m' == m.(queue := m.queue + [e], armed := m'.armed, timer := m'.timer, stopRequested := m'.stopRequested)
             && m'.armed.Keys <= m.armed.Keys && (forall t :: t in m'.armed ==> m'.armed[t] == m.armed[t])
    ensures Inv(w', Observe(h, w, w'))
  {
    QuietHistory(h, w, w');
    DurableFrame(w, w', h);
    var m, m' := w.launcher.value, w'.launcher.value;
    PcFrame(w, m, w', m', h);
    if Recover in m'.queue {
      assert m'.queue[1..] == m.queue[1..] + [e];
    }
  }

  lemma KeepQueue(w: World, h: History, l: Label)
    requires Inv(w, h) && Enabled(w, l)
    requires l.Say? || l.Raise? || l.Fire? || l.Signal?
    ensures var w' := Effect(w, l); Inv(w', Observe(h, w, w'))
  {
    var w' := Effect(w, l);
    match l
    case Say(pid, message) => Enqueued(w, h, w', FromChild(pid, message));
    case Raise(pid) => Enqueued(w, h, w', ChildError(pid));
    case Fire(t) => Enqueued(w, h, w', w.launcher.value.armed[t]);
    case Signal(marked) => KeepSignal(w, h, marked);
  }

  lemma KeepSignal(w: World, h: History, marked: bool)
    requires Inv(w, h) && Enabled(w, Signal(marked))
    ensures var w' := Effect(w, Signal(marked)); Inv(w', Observe(h, w, w'))
  {
    var w' := Effect(w, Signal(marked));
    var m := w.launcher.value;
    if m.stopRequested || m.stopping {
      QuietHistory(h, w, w');
      DurableFrame(w, w', h);
      PcFrame(w, m, w', m, h);
    } else {
      Enqueued(w, h, w', Stop);
    }
  }

  lemma KeepCrash(w: World, h: History)
    requires Inv(w, h) && w.launcher.Some?
    ensures var w' := Effect(w, Crash); Inv(w', Observe(h, w, w'))
  {
    var w' := Effect(w, Crash);
    if w.alive == map[] {
      QuietHistory(h, w, w');
    } else {
      var pid :| pid in w.alive;
      Death(w, h, w', pid);
    }
  }

  lemma KeepRestart(w: World, h: History)
    requires Inv(w, h) && Enabled(w, Restart)
    ensures var w' := Effect(w, Restart); Inv(w', Observe(h, w, w'))
  {
    var w' := Effect(w, Restart);
    QuietHistory(h, w, w');
  }

  // ---------------------------------------------------------------- queued transitions

  /** A launcher between transitions. */
  ghost predicate AtRest(w: World, m: Memory, h: History) {
    DurableInv(w, h) && MemoryInv(w, m, h) && m.pc == Idle && Recover !in m.queue
  }

  lemma HandledRequest(w: World, h: History, m: Memory, target: Option<Version>, dbPath: string, o: Oracle)
    requires AtRest(w, m, h) && m.child.Some?
    requires o.id in w.issued && o.id !in w.disk.backups && o.id !in h.seen
    ensures MemoryInv(w, RequestedUpdate(m, m.child.value, target, dbPath, o), h)
  {
  }

  lemma HandledPrepared(w: World, h: History, m: Memory, id: UpdateId)
    requires AtRest(w, m, h) && m.child.Some?
    ensures MemoryInv(w, ReportedPrepared(m, m.child.value, id), h)
  {
  }

  lemma HandledExit(w: World, h: History, m: Memory)
    requires AtRest(w, m, h) && m.child.Some? && m.child.value.pid !in w.alive
    ensures MemoryInv(w, ChildExited(m, m.child.value), h)
  {
    assert w.alive == map[];
  }

  lemma HandledTimer(w: World, h: History, m: Memory, e: Event, o: Oracle)
    requires AtRest(w, m, h) && (e.PreparedTimedOut? || e.HandOff?)
    ensures MemoryInv(w, Handle(m, e, o), h)
  {
  }

  lemma HandledEnd(w: World, h: History, m: Memory, e: Event, o: Oracle)
    requires AtRest(w, m, h) && (e.ChildError? || e.Stop?)
    ensures MemoryInv(w, Handle(m, e, o), h)
  {
  }

  lemma Dequeued(w: World, h: History, m: Memory, o: Oracle)
    requires Inv(w, h) && Enabled(w, Take(o)) && w.launcher == Some(m)
    ensures DurableInv(w.(issued := w.issued + {o.id}), h)
    ensures m.queue[0] != Recover ==> AtRest(w.(issued := w.issued + {o.id}), m.(queue := m.queue[1..]), h)
    ensures m.queue[0] == Recover ==> MemoryInv(w.(issued := w.issued + {o.id}), m.(queue := m.queue[1..], pc := ClearingMarker), h)
  {
    assert m.queue == [m.queue[0]] + m.queue[1..];
    assert m.child.Some? ==> ChildInv(w.(issued := w.issued + {o.id}), h, m.child.value);
  }

  lemma Handled(w: World, h: History, m: Memory, e: Event, o: Oracle)
    requires AtRest(w, m, h) && e != Recover
    requires forall pid :: e == Exited(pid) ==> pid !in w.alive
    requires o.id in w.issued && o.id !in w.disk.backups && o.id !in h.seen
    ensures MemoryInv(w, Handle(m, e, o), h)
  {
    if e.PreparedTimedOut? || e.HandOff? {
      HandledTimer(w, h, m, e, o);
    } else if e.ChildError? || e.Stop? {
      HandledEnd(w, h, m, e, o);
    } else if m.child.Some? && m.child.value.pid == e.pid && !m.stopping {
      match e
      case FromChild(_, RequestUpdate(target, dbPath)) => HandledRequest(w, h, m, target, dbPath, o);
      case FromChild(_, Prepared(id)) => HandledPrepared(w, h, m, id);
      case Exited(_) => HandledExit(w, h, m);
    }
  }

  lemma KeepTake(w: World, h: History, o: Oracle)
    requires Inv(w, h) && Enabled(w, Take(o))
    ensures var w' := Effect(w, Take(o)); Inv(w', Observe(h, w, w'))
  {
    var w' := Effect(w, Take(o));
    var m := w.launcher.value;
    var u := w.(issued := w.issued + {o.id});
    QuietHistory(h, w, w');
    Dequeued(w, h, m, o);
    DurableFrame(u, w', h);
    if m.queue[0] != Recover {
      assert m.queue[0] in m.queue;
      Handled(u, h, m.(queue := m.queue[1..]), m.queue[0], o);
    }
    MemoryFrame(u, w', w'.launcher.value, h);
  }
}
