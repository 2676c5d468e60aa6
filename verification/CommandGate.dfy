/** The command gate, the activation boundary and the order of startup, as steps that may
    interleave in any way (apps/server/src/serverRuntimeStartup.ts: `makeCommandGate`,
    `settleQueuedCommand`, the end of `make`; apps/server/src/serverActivation.ts: `forkParked`). */
module CommandGate {
  import opened Outcomes

  type Id = nat

  /** How an effect or a wait ends; `Startup` is the startup error. */
  datatype Exit = Success(value: int) | Failure(cause: int) | Startup

  /** The readiness Ref. */
  datatype Readiness = Pending | Ready | Failed

  /** What the readiness Deferred is completed with. */
  datatype Signal = Go | NoGo

  /** A fibre inside `enqueueCommand`: it has read `pending`; its command is in the queue
      and it awaits the result; it runs the effect itself; it has returned. */
  datatype Caller = Checked | Offered | Direct | Returned(exit: Exit)

  /** The worker fibre: taking from the queue, awaiting readiness inside the command it
      took, running its effect, or about to settle its result. */
  datatype Worker = Idle | Awaiting(id: Id) | Running(id: Id) | Settling(id: Id, exit: Exit)

  datatype Gate = Gate(
    readiness: Readiness,
    commandReady: Option<Signal>,
    queue: seq<Id>,
    worker: Worker,
    callers: map<Id, Caller>,
    results: map<Id, Exit>)

  const CLOSED := Gate(Pending, None, [], Idle, map[], map[])

  // ---------------------------------------------------------------- the gate's steps

  /** A Deferred keeps its first completion. */
  function Complete(g: Gate, s: Signal): Gate {
    if g.commandReady.None? then g.(commandReady := Some(s)) else g
  }

  /** The first read of `enqueueCommand` by a new caller, and the branch it takes. */
  function Call(g: Gate, id: Id): Gate {
    g.(callers := g.callers[id := match g.readiness
                                  case Pending => Checked
                                  case Ready => Direct
                                  case Failed => Returned(Startup)])
  }

  function Offer(g: Gate, id: Id): Gate {
    g.(queue := g.queue + [id], callers := g.callers[id := Offered])
  }

  function ReturnWith(g: Gate, id: Id, exit: Exit): Gate {
    g.(callers := g.callers[id := Returned(exit)])
  }

  function Take(g: Gate): Gate
    requires g.queue != []
  {
    g.(queue := g.queue[1..], worker := Awaiting(g.queue[0]))
  }

  /** Readiness has been decided: the effect starts, or the wait's error is the exit. */
  function Proceed(g: Gate): Gate
    requires g.worker.Awaiting? && g.commandReady.Some?
  {
    g.(worker := if g.commandReady.value.Go? then Running(g.worker.id) else Settling(g.worker.id, Startup))
  }

  function Settle(g: Gate): Gate
    requires g.worker.Settling?
  {
    g.(worker := Idle,
       results := if g.worker.id in g.results then g.results else g.results[g.worker.id := g.worker.exit])
  }

  // ---------------------------------------------------------------- startup and roots

  /** How far startup has come. */
  const PREPARED := 1
  const WELCOMED := 2
  const ACTIVATED := 3
  const READY_SET := 4
  const SIGNALLED := 5
  const COMPLETE := 6

  /** A parked root: forked, confirmed parked, or running its body. */
  datatype Root = Forked | Parked | Body

  /** `forking` are the roots whose `forkParked` has not yet returned to its caller. `failing`
      counts the steps of the failure path: seen, Ref set, Deferred failed. The
      histories record offers, takes, effects started from the queue, settlements, effects
      started by their callers, and how effects have ended. */
  datatype World = World(
    gate: Gate, stage: nat, failing: nat, parking: bool, activation: bool, roots: map<Id, Root>, forking: set<Id>,
    offered: seq<Id>, taken: seq<Id>, started: seq<Id>, settled: seq<Id>, direct: seq<Id>, ended: map<Id, Exit>)

  /** `parking` says that an activation effect is provided, as `server.ts` does. */
  function Start(parking: bool): World {
    World(CLOSED, 0, 0, parking, false, map[], {}, [], [], [], [], [], map[])
  }

  datatype Label =
    | Calls(id: Id)
    | Offers(id: Id)
    | DirectEnds(id: Id, exit: Exit)
    | Takes
    | Proceeds
    | EffectEnds(exit: Exit)
    | Settles
    | Returns(id: Id)
    | StartupGoesOn
    | StartupFails
    | FailureGoesOn
    | Forks(root: Id)
    | Confirms(root: Id)
    | Parks(root: Id)
    | Wakes(root: Id)

  /** `forkParked` returns once its root has confirmed. prepareTrial is asked for once every
      `forkParked` has returned: those of startup itself come before, and for the others it
      awaits `awaitAuxiliaryParked`. */
  predicate Enabled(w: World, l: Label) {
    var g := w.gate;
    match l
    case Calls(id) => id !in g.callers
    case Offers(id) => id in g.callers && g.callers[id] == Checked
    case DirectEnds(id, exit) => id in g.callers && g.callers[id] == Direct && exit != Startup
    case Takes => g.worker == Idle && g.queue != []
    case Proceeds => g.worker.Awaiting? && g.commandReady.Some?
    case EffectEnds(exit) => g.worker.Running? && exit != Startup
    case Settles => g.worker.Settling?
    case Returns(id) => id in g.callers && g.callers[id] == Offered && id in g.results
    case StartupGoesOn => w.failing == 0 && w.stage < COMPLETE && (w.stage + 1 == PREPARED ==> w.forking == {})
    case StartupFails => w.failing == 0 && w.stage < COMPLETE
    case FailureGoesOn => w.failing == 1 || w.failing == 2
    case Forks(root) => root !in w.roots && (w.parking ==> w.stage < PREPARED)
    case Confirms(root) => root in w.forking && root in w.roots && w.roots[root] != Forked
    case Parks(root) => root in w.roots && w.roots[root] == Forked
    case Wakes(root) => root in w.roots && w.roots[root] == Parked && w.activation
  }

  /** prepareTrial returns; welcome is published; roots are activated; signalCommandReady
      sets the Ref and then completes the Deferred; ready is published. */
  function StartupStep(w: World): World {
    var next := w.(stage := w.stage + 1);
    if w.stage + 1 == ACTIVATED then next.(activation := true)
    else if w.stage + 1 == READY_SET then next.(gate := w.gate.(readiness := Ready))
    else if w.stage + 1 == SIGNALLED then next.(gate := Complete(w.gate, Go))
    else next
  }

  /** failCommandReady sets the Ref and then fails the Deferred. */
  function FailureStep(w: World): World {
    var next := w.(failing := w.failing + 1);
    if w.failing == 1 then next.(gate := w.gate.(readiness := Failed))
    else next.(gate := Complete(w.gate, NoGo))
  }

  function Step(w: World, l: Label): World
    requires Enabled(w, l)
  {
    var g := w.gate;
    match l
    case Calls(id) =>
      w.(gate := Call(g, id), direct := if g.readiness.Ready? then w.direct + [id] else w.direct)
    case Offers(id) => w.(gate := Offer(g, id), offered := w.offered + [id])
    case DirectEnds(id, exit) => w.(gate := ReturnWith(g, id, exit), ended := w.ended[id := exit])
    case Takes => w.(gate := Take(g), taken := w.taken + [g.queue[0]])
    case Proceeds =>
      w.(gate := Proceed(g),
         started := if g.commandReady.value.Go? then w.started + [g.worker.id] else w.started)
    case EffectEnds(exit) => w.(gate := g.(worker := Settling(g.worker.id, exit)), ended := w.ended[g.worker.id := exit])
    case Settles => w.(gate := Settle(g), settled := w.settled + [g.worker.id])
    case Returns(id) => w.(gate := ReturnWith(g, id, g.results[id]))
    case StartupGoesOn => StartupStep(w)
    case StartupFails => w.(failing := 1)
    case FailureGoesOn => FailureStep(w)
    case Forks(root) =>
      if w.parking then w.(roots := w.roots[root := Forked], forking := w.forking + {root})
      else w.(roots := w.roots[root := Body])
    case Confirms(root) => w.(forking := w.forking - {root})
    case Parks(root) => w.(roots := w.roots[root := Parked])
    case Wakes(root) => w.(roots := w.roots[root := Body])
  }

  /** The world after the steps, if each of them can be taken. */
  function RunFrom(w: World, labels: seq<Label>): Option<World> {
    if labels == [] then Some(w)
    else
      var before := RunFrom(w, labels[..|labels| - 1]);
      var last := labels[|labels| - 1];
      if before.None? || !Enabled(before.value, last) then None else Some(Step(before.value, last))
  }

  function Run(parking: bool, labels: seq<Label>): Option<World> {
    RunFrom(Start(parking), labels)
  }

  // ---------------------------------------------------------------- what every step keeps

  /** The Ref, the Deferred and the activation are what startup has made them. */
  predicate Signals(w: World) {
    && w.stage <= COMPLETE && w.failing <= 3
    && w.gate.readiness == (if w.failing >= 2 then Failed else if w.stage >= READY_SET then Ready else Pending)
    && w.gate.commandReady == (if w.stage >= SIGNALLED then Some(Go) else if w.failing == 3 then Some(NoGo) else None)
    && w.activation == (w.stage >= ACTIVATED)
  }

  function ButLast(s: seq<Id>, b: bool): seq<Id> {
    if b && s != [] then s[..|s| - 1] else s
  }

  /** The queue is first in, first out, and what the worker has taken it has dealt with in
      that order, except for the command it is at. */
  ghost predicate InOrder(w: World) {
    var g := w.gate;
    && w.offered == w.taken + g.queue
    && (!g.worker.Idle? ==> w.taken != [] && w.taken[|w.taken| - 1] == g.worker.id)
    && w.settled == ButLast(w.taken, !g.worker.Idle?)
    && w.started == (if w.stage >= SIGNALLED then ButLast(w.taken, g.worker.Awaiting?) else [])
    && (g.worker.Running? ==> w.stage >= SIGNALLED)
    && (w.settled != [] || g.worker.Settling? ==> g.commandReady.Some?)
  }

  predicate Fits(w: World, exit: Exit) {
    exit == Startup <==> w.stage < SIGNALLED
  }

  /** No command is offered twice; results are those settled, the startup error exactly
      when startup did not signal. */
  ghost predicate Results(w: World) {
    var g := w.gate;
    && (forall i, j | 0 <= i < j < |w.offered| :: w.offered[i] != w.offered[j])
    && (forall id :: id in w.offered <==> id in g.callers && id !in w.direct && OfferedOrAfter(w, id))
    && (forall id :: id in g.results <==> id in w.settled)
    && (forall id | id in g.results :: Fits(w, g.results[id]))
    && (g.worker.Settling? ==> Fits(w, g.worker.exit))
  }

  ghost predicate OfferedOrAfter(w: World, id: Id)
    requires id in w.gate.callers
  {
    var c := w.gate.callers[id];
    c == Offered || (c.Returned? && id in w.gate.results)
  }

  /** What a caller has returned is the result of its command, its own effect's exit, or the
      startup error it read. */
  ghost predicate Callers(w: World) {
    var g := w.gate;
    && (forall id | id in w.direct :: id in g.callers && id !in g.results
          && (g.callers[id] == Direct || (g.callers[id].Returned? && g.callers[id].exit != Startup)))
    && (forall id | id in g.callers && g.callers[id] == Direct :: id in w.direct)
    && (forall id | id in g.callers && g.callers[id].Returned? && id !in w.direct ::
          if id in g.results then g.callers[id].exit == g.results[id]
          else g.callers[id].exit == Startup && w.failing >= 2)
    && (w.direct != [] ==> w.stage >= READY_SET)
  }

  /** With an activation effect no body starts before activation, and while a root has not
      confirmed, the `forkParked` that forked it has not returned, nor is it asked for after
      prepareTrial. Without one every root runs, and no `forkParked` waits. */
  predicate Roots(w: World) {
    if w.parking then
      && (forall r | r in w.roots && w.roots[r] == Body :: w.stage >= ACTIVATED)
      && (forall r | r in w.roots && w.roots[r] == Forked :: r in w.forking)
      && (w.stage >= PREPARED ==> w.forking == {})
    else
      w.forking == {} && forall r | r in w.roots :: w.roots[r] == Body
  }

  /** Results and returned exits other than the startup error are those with which the
      effects themselves ended. */
  ghost predicate Ended(w: World) {
    var g := w.gate;
    && Distinct(w.direct)
    && (forall id | id in w.ended :: w.ended[id] != Startup
          && (id in w.direct || id in w.settled || (g.worker.Settling? && g.worker.id == id)))
    && (forall id | id in g.results && g.results[id] != Startup :: id in w.ended && w.ended[id] == g.results[id])
    && (g.worker.Settling? && g.worker.exit != Startup ==>
          g.worker.id in w.ended && w.ended[g.worker.id] == g.worker.exit)
    && (forall id | id in w.direct && id in g.callers ::
          if g.callers[id].Returned? then id in w.ended && w.ended[id] == g.callers[id].exit else id !in w.ended)
  }

  ghost predicate Distinct(s: seq<Id>) {
    forall i, j | 0 <= i < j < |s| :: s[i] != s[j]
  }

  ghost predicate Base(w: World) {
    Signals(w) && InOrder(w) && Results(w) && Callers(w) && Roots(w)
  }

  ghost predicate Inv(w: World) {
    Base(w) && Ended(w)
  }

  // ---------------------------------------------------------------- each step keeps it

  /** A step of a caller leaves the worker, the queue and startup alone. */
  lemma SameOrder(w: World, v: World)
    requires Signals(w) && InOrder(w) && Roots(w)
    requires v == w.(gate := w.gate.(callers := v.gate.callers), direct := v.direct, ended := v.ended)
    ensures Signals(v) && InOrder(v) && Roots(v)
  {
  }

  lemma KeepCalls(w: World, id: Id)
    requires Base(w) && id !in w.gate.callers
    ensures Base(Step(w, Calls(id)))
  {
    var v := Step(w, Calls(id));
    SameOrder(w, v);
    assert id !in w.offered && id !in w.gate.results && id !in w.direct;
    CallsResults(w, id, v);
    CallsCallers(w, id, v);
  }

  lemma CallsResults(w: World, id: Id, v: World)
    requires Results(w) && id !in w.gate.callers && id !in w.gate.results
    requires id in v.gate.callers && v.gate.callers[id] != Offered
    requires v == w.(gate := w.gate.(callers := w.gate.callers[id := v.gate.callers[id]]),
                     direct := if v.gate.callers[id] == Direct then w.direct + [id] else w.direct)
    ensures Results(v)
  {
    forall x ensures x in v.offered <==> x in v.gate.callers && x !in v.direct && OfferedOrAfter(v, x) {
      assert x in w.gate.callers ==> (x in v.direct <==> x in w.direct) && (OfferedOrAfter(v, x) <==> OfferedOrAfter(w, x));
    }
  }

  lemma CallsCallers(w: World, id: Id, v: World)
    requires Signals(w) && Callers(w) && id !in w.gate.callers && id !in w.gate.results && id !in w.direct
    requires v == w.(gate := Call(w.gate, id), direct := if w.gate.readiness.Ready? then w.direct + [id] else w.direct)
    ensures Callers(v)
  {
    assert forall x | x in w.gate.callers :: v.gate.callers[x] == w.gate.callers[x];
    assert forall x :: x in v.direct <==> x in w.direct || (w.gate.readiness.Ready? && x == id);
  }

  lemma KeepDirectEnds(w: World, id: Id, exit: Exit)
    requires Base(w) && Enabled(w, DirectEnds(id, exit))
    ensures Base(Step(w, DirectEnds(id, exit)))
  {
    var v := Step(w, DirectEnds(id, exit));
    SameOrder(w, v);
    assert id in w.direct;
    assert forall x | x != id && x in w.gate.callers :: v.gate.callers[x] == w.gate.callers[x];
  }

  lemma KeepReturns(w: World, id: Id)
    requires Base(w) && Enabled(w, Returns(id))
    ensures Base(Step(w, Returns(id)))
  {
    var v := Step(w, Returns(id));
    SameOrder(w, v);
    ReturnsResults(w, id, v);
    ReturnsCallers(w, id, v);
  }

  lemma ReturnsResults(w: World, id: Id, v: World)
    requires Results(w) && id in w.gate.callers && w.gate.callers[id] == Offered && id in w.gate.results
    requires v == w.(gate := ReturnWith(w.gate, id, w.gate.results[id]))
    ensures Results(v)
  {
    forall x ensures x in v.offered <==> x in v.gate.callers && x !in v.direct && OfferedOrAfter(v, x) {
      assert x in w.gate.callers ==> (OfferedOrAfter(v, x) <==> OfferedOrAfter(w, x));
    }
  }

  lemma ReturnsCallers(w: World, id: Id, v: World)
    requires Callers(w) && id in w.gate.callers && w.gate.callers[id] == Offered && id in w.gate.results
    requires v == w.(gate := ReturnWith(w.gate, id, w.gate.results[id]))
    ensures Callers(v)
  {
    assert id !in w.direct;
    assert forall x | x != id && x in w.gate.callers :: v.gate.callers[x] == w.gate.callers[x];
  }

  lemma KeepOffers(w: World, id: Id)
    requires Base(w) && Enabled(w, Offers(id))
    ensures Base(Step(w, Offers(id)))
  {
    var v := Step(w, Offers(id));
    assert id !in w.direct && id !in w.offered && id !in w.gate.results;
    assert InOrder(v) by { assert v.offered == w.taken + (w.gate.queue + [id]); }
    OffersResults(w, id, v);
    OffersCallers(w, id, v);
  }

  lemma OffersCallers(w: World, id: Id, v: World)
    requires Callers(w) && id in w.gate.callers && w.gate.callers[id] == Checked && id !in w.direct
    requires v == w.(gate := Offer(w.gate, id), offered := w.offered + [id])
    ensures Callers(v)
  {
    assert forall x | x != id && x in w.gate.callers :: v.gate.callers[x] == w.gate.callers[x];
  }

  lemma OffersResults(w: World, id: Id, v: World)
    requires Results(w) && id in w.gate.callers && id !in w.offered && id !in w.direct
    requires v == w.(gate := Offer(w.gate, id), offered := w.offered + [id])
    ensures Results(v)
  {
    forall x ensures x in v.offered <==> x in v.gate.callers && x !in v.direct && OfferedOrAfter(v, x) {
      assert x in v.offered <==> x in w.offered || x == id;
      assert x != id && x in w.gate.callers ==> (OfferedOrAfter(v, x) <==> OfferedOrAfter(w, x));
    }
  }

  /** A step of the worker before it settles leaves callers, results and startup alone. */
  lemma SameCallers(w: World, v: World)
    requires Signals(w) && Results(w) && Callers(w) && Roots(w)
    requires v == w.(gate := w.gate.(queue := v.gate.queue, worker := v.gate.worker), taken := v.taken, started := v.started, ended := v.ended)
    requires v.gate.worker.Settling? ==> Fits(v, v.gate.worker.exit)
    ensures Signals(v) && Results(v) && Callers(v) && Roots(v)
  {
    forall x | x in v.gate.callers ensures OfferedOrAfter(v, x) <==> OfferedOrAfter(w, x) {}
  }

  lemma KeepTakes(w: World)
    requires Base(w) && Enabled(w, Takes)
    ensures Base(Step(w, Takes))
  {
    var v := Step(w, Takes);
    TakesOrder(w, v);
    SameCallers(w, v);
  }

  lemma TakesOrder(w: World, v: World)
    requires Signals(w) && InOrder(w) && w.gate.worker == Idle && w.gate.queue != []
    requires v == w.(gate := Take(w.gate), taken := w.taken + [w.gate.queue[0]])
    ensures InOrder(v)
  {
    assert w.gate.queue == [w.gate.queue[0]] + v.gate.queue;
    assert v.offered == v.taken + v.gate.queue;
    assert v.taken[..|v.taken| - 1] == w.taken;
  }

  lemma KeepProceeds(w: World)
    requires Base(w) && Enabled(w, Proceeds)
    ensures Base(Step(w, Proceeds))
  {
    assert w.taken == ButLast(w.taken, true) + [w.gate.worker.id];
    SameCallers(w, Step(w, Proceeds));
  }

  lemma KeepEffectEnds(w: World, exit: Exit)
    requires Base(w) && Enabled(w, EffectEnds(exit))
    ensures Base(Step(w, EffectEnds(exit)))
  {
    SameCallers(w, Step(w, EffectEnds(exit)));
  }

  /** The command being settled has been offered, and has no result yet. */
  lemma AtLast(w: World)
    requires Base(w) && !w.gate.worker.Idle?
    ensures w.gate.worker.id in w.offered && w.gate.worker.id !in w.settled
    ensures w.taken == w.settled + [w.gate.worker.id]
  {
    var n := |w.taken| - 1;
    assert w.offered[n] == w.taken[n] == w.gate.worker.id;
    forall i | 0 <= i < |w.settled| ensures w.settled[i] != w.gate.worker.id {
      assert w.offered[i] == w.taken[i] == w.settled[i];
    }
  }

  lemma KeepSettles(w: World)
    requires Base(w) && Enabled(w, Settles)
    ensures Base(Step(w, Settles))
  {
    AtLast(w);
    var v := Step(w, Settles);
    assert v.settled == w.taken;
    SettlesResults(w, v);
    SettlesCallers(w, v);
  }

  lemma SettlesResults(w: World, v: World)
    requires Results(w) && w.gate.worker.Settling? && w.gate.worker.id in w.offered && w.gate.worker.id !in w.settled
    requires v == w.(gate := Settle(w.gate), settled := w.settled + [w.gate.worker.id])
    ensures Results(v)
  {
    var id := w.gate.worker.id;
    assert forall x :: x in v.settled <==> x in w.settled || x == id;
    forall x ensures x in v.offered <==> x in v.gate.callers && x !in v.direct && OfferedOrAfter(v, x) {
      assert x in w.gate.callers && OfferedOrAfter(w, x) ==> OfferedOrAfter(v, x);
    }
  }

  lemma SettlesCallers(w: World, v: World)
    requires Results(w) && Callers(w) && w.gate.worker.Settling?
    requires w.gate.worker.id in w.offered && w.gate.worker.id !in w.settled
    requires v == w.(gate := Settle(w.gate), settled := w.settled + [w.gate.worker.id])
    ensures Callers(v)
  {
    var id := w.gate.worker.id;
    assert id !in w.direct && w.gate.callers[id] == Offered;
  }

  /** A step of startup leaves callers, results and histories alone. */
  lemma SameResults(w: World, v: World)
    requires Results(w) && Callers(w)
    requires v == w.(gate := w.gate.(readiness := v.gate.readiness, commandReady := v.gate.commandReady),
                     stage := v.stage, failing := v.failing, activation := v.activation, roots := v.roots, forking := v.forking)
    requires v.stage >= w.stage && v.failing >= w.failing
    requires (v.stage < SIGNALLED <==> w.stage < SIGNALLED) || (w.settled == [] && !w.gate.worker.Settling?)
    ensures Results(v) && Callers(v)
  {
    forall x | x in v.gate.callers ensures OfferedOrAfter(v, x) <==> OfferedOrAfter(w, x) {}
  }

  lemma GoesOnSignals(w: World, v: World)
    requires Signals(w) && Roots(w) && Enabled(w, StartupGoesOn) && v == StartupStep(w)
    ensures Signals(v) && Roots(v)
  {
  }

  lemma GoesOnOrder(w: World, v: World)
    requires Signals(w) && InOrder(w) && Enabled(w, StartupGoesOn) && v == StartupStep(w)
    ensures InOrder(v)
  {
    assert w.settled == [] ==> |w.taken| <= 1;
  }

  lemma KeepGoesOn(w: World)
    requires Base(w) && Enabled(w, StartupGoesOn)
    ensures Base(StartupStep(w))
  {
    var v := StartupStep(w);
    GoesOnSignals(w, v);
    GoesOnOrder(w, v);
    GoesOnResults(w, v);
  }

  lemma GoesOnResults(w: World, v: World)
    requires Signals(w) && InOrder(w) && Results(w) && Callers(w) && Enabled(w, StartupGoesOn) && v == StartupStep(w)
    ensures Results(v) && Callers(v)
  {
    SameResults(w, v);
  }

  lemma KeepFails(w: World)
    requires Base(w) && w.failing == 0 && w.stage < COMPLETE
    ensures Base(w.(failing := 1))
  {
    SameResults(w, w.(failing := 1));
  }

  lemma KeepFailureGoesOn(w: World)
    requires Base(w) && (w.failing == 1 || w.failing == 2)
    ensures Base(FailureStep(w))
  {
    SameResults(w, FailureStep(w));
  }

  lemma KeepRoots(w: World, v: World)
    requires Base(w) && Roots(v) && v == w.(roots := v.roots, forking := v.forking)
    ensures Base(v)
  {
    SameResults(w, v);
  }

  lemma RootsStep(w: World, l: Label)
    requires Base(w) && Enabled(w, l) && (l.Forks? || l.Confirms? || l.Parks? || l.Wakes?)
    ensures Roots(Step(w, l))
  {
  }

  lemma BaseStep(w: World, l: Label)
    requires Base(w) && Enabled(w, l)
    ensures Base(Step(w, l))
  {
    match l
    case Calls(id) => KeepCalls(w, id);
    case Offers(id) => KeepOffers(w, id);
    case DirectEnds(id, exit) => KeepDirectEnds(w, id, exit);
    case Takes => KeepTakes(w);
    case Proceeds => KeepProceeds(w);
    case EffectEnds(exit) => KeepEffectEnds(w, exit);
    case Settles => KeepSettles(w);
    case Returns(id) => KeepReturns(w, id);
    case StartupGoesOn => KeepGoesOn(w);
    case StartupFails => KeepFails(w);
    case FailureGoesOn => KeepFailureGoesOn(w);
    case _ =>
      RootsStep(w, l);
      KeepRoots(w, Step(w, l));
  }

  // What is known of effects that have ended.

  lemma EndedCalls(w: World, id: Id)
    requires Inv(w) && id !in w.gate.callers
    ensures Ended(Step(w, Calls(id)))
  {
    var v := Step(w, Calls(id));
    assert id !in w.direct && id !in w.offered && id !in w.settled && id !in w.gate.results;
    assert id !in w.ended by {
      if !w.gate.worker.Idle? {
        AtLast(w);
      }
    }
    assert forall x :: x in v.direct <==> x in w.direct || (w.gate.readiness.Ready? && x == id);
    assert forall x | x in w.gate.callers :: v.gate.callers[x] == w.gate.callers[x];
  }

  lemma EndedDirectEnds(w: World, id: Id, exit: Exit)
    requires Inv(w) && Enabled(w, DirectEnds(id, exit))
    ensures Ended(Step(w, DirectEnds(id, exit)))
  {
    assert id in w.direct && id !in w.gate.results && id !in w.offered;
    if !w.gate.worker.Idle? {
      AtLast(w);
    }
    DirectEnded(w, id, exit, Step(w, DirectEnds(id, exit)));
  }

  lemma DirectEnded(w: World, id: Id, exit: Exit, v: World)
    requires Ended(w) && exit != Startup && id in w.direct && id in w.gate.callers && id !in w.gate.results
    requires w.gate.worker.Settling? ==> w.gate.worker.id != id
    requires v == w.(gate := ReturnWith(w.gate, id, exit), ended := w.ended[id := exit])
    ensures Ended(v)
  {
  }

  lemma EndedEffectEnds(w: World, exit: Exit)
    requires Inv(w) && Enabled(w, EffectEnds(exit))
    ensures Ended(Step(w, EffectEnds(exit)))
    ensures w.gate.worker.id !in w.ended
  {
    AtLast(w);
    assert w.gate.worker.id !in w.direct && w.gate.worker.id !in w.gate.results;
  }

  lemma EndedSettles(w: World)
    requires Inv(w) && Enabled(w, Settles)
    ensures Ended(Step(w, Settles))
  {
    AtLast(w);
    SettleEnded(w, Step(w, Settles));
  }

  lemma SettleEnded(w: World, v: World)
    requires Ended(w) && w.gate.worker.Settling? && w.gate.worker.id !in w.gate.results
    requires v == w.(gate := Settle(w.gate), settled := w.settled + [w.gate.worker.id])
    ensures Ended(v)
  {
    assert forall x :: x in v.settled <==> x in w.settled || x == w.gate.worker.id;
  }

  lemma EndedReturns(w: World, id: Id)
    requires Inv(w) && Enabled(w, Returns(id))
    ensures Ended(Step(w, Returns(id)))
  {
    assert id !in w.direct;
  }

  lemma EndedOffers(w: World, id: Id)
    requires Inv(w) && Enabled(w, Offers(id))
    ensures Ended(Step(w, Offers(id)))
  {
    assert id !in w.direct;
  }

  lemma EndedProceeds(w: World)
    requires Inv(w) && Enabled(w, Proceeds)
    ensures Ended(Step(w, Proceeds))
  {
  }

  lemma EndedWorkerStep(w: World, l: Label)
    requires Inv(w) && Enabled(w, l) && ByWorker(l)
    ensures Ended(Step(w, l))
  {
    match l
    case Takes =>
    case Proceeds => EndedProceeds(w);
    case EffectEnds(exit) => EndedEffectEnds(w, exit);
    case Settles => EndedSettles(w);
  }

  lemma EndedCallerStep(w: World, l: Label)
    requires Inv(w) && Enabled(w, l) && (l.Calls? || l.Offers? || l.DirectEnds? || l.Returns?)
    ensures Ended(Step(w, l))
  {
    match l
    case Calls(id) => EndedCalls(w, id);
    case Offers(id) => EndedOffers(w, id);
    case DirectEnds(id, exit) => EndedDirectEnds(w, id, exit);
    case Returns(id) => EndedReturns(w, id);
  }

  lemma EndedStep(w: World, l: Label)
    requires Inv(w) && Enabled(w, l)
    ensures Ended(Step(w, l))
  {
    if ByWorker(l) {
      EndedWorkerStep(w, l);
    } else if l.Calls? || l.Offers? || l.DirectEnds? || l.Returns? {
      EndedCallerStep(w, l);
    }
  }

  lemma KeepStep(w: World, l: Label)
    requires Inv(w) && Enabled(w, l)
    ensures Inv(Step(w, l))
  {
    BaseStep(w, l);
    EndedStep(w, l);
  }

  lemma StepKeepsParking(w: World, l: Label)
    requires Enabled(w, l)
    ensures Step(w, l).parking == w.parking
  {
  }

  lemma {:induction false} ParkingFixed(parking: bool, labels: seq<Label>)
    requires Run(parking, labels).Some?
    ensures Run(parking, labels).value.parking == parking
  {
    if labels != [] {
      var n := |labels| - 1;
      ParkingFixed(parking, labels[..n]);
      StepKeepsParking(Run(parking, labels[..n]).value, labels[n]);
    }
  }

  lemma {:induction false} InvAlways(parking: bool, labels: seq<Label>)
    requires Run(parking, labels).Some?
    ensures Inv(Run(parking, labels).value)
  {
    if labels != [] {
      var n := |labels| - 1;
      InvAlways(parking, labels[..n]);
      KeepStep(Run(parking, labels[..n]).value, labels[n]);
    }
  }

  lemma {:induction false} PrefixRuns(parking: bool, labels: seq<Label>, n: nat)
    requires Run(parking, labels).Some? && n <= |labels|
    ensures Run(parking, labels[..n]).Some?
  {
    if n < |labels| {
      var k := |labels| - 1;
      PrefixRuns(parking, labels[..k], n);
      assert labels[..k][..n] == labels[..n];
    } else {
      assert labels[..n] == labels;
    }
  }

  // ---------------------------------------------------------------- what holds of every run

  /** No command effect and no parked root body starts before prepareTrial has returned:
      commands wait for the ready signal, bodies for activation. When prepareTrial is asked
      for every root has confirmed that it is parked, and none is merely forked later. */
  lemma NothingBeforePrepared(labels: seq<Label>)
    requires Run(true, labels).Some?
    ensures var w := Run(true, labels).value;
            && (w.started != [] ==> w.stage >= SIGNALLED > PREPARED)
            && (w.direct != [] ==> w.stage >= READY_SET > PREPARED)
            && (forall r | r in w.roots && w.roots[r] == Body :: w.stage >= ACTIVATED > PREPARED)
            && (w.stage >= PREPARED ==> forall r | r in w.roots :: w.roots[r] != Forked)
  {
    InvAlways(true, labels);
    ParkingFixed(true, labels);
  }

  /** Without an activation effect the body of every root starts as soon as it is forked. */
  lemma UnparkedRunsAtOnce(labels: seq<Label>)
    requires Run(false, labels).Some?
    ensures forall r | r in Run(false, labels).value.roots :: Run(false, labels).value.roots[r] == Body
  {
    InvAlways(false, labels);
    ParkingFixed(false, labels);
  }

  /** Queued effects start in the order they were offered, none twice, and settle in that
      order, each exactly once. */
  lemma OfferOrder(parking: bool, labels: seq<Label>)
    requires Run(parking, labels).Some?
    ensures var w := Run(parking, labels).value;
            && w.started <= w.offered && w.settled <= w.offered && Distinct(w.offered)
            && (w.started != [] ==> w.settled <= w.started)
            && w.gate.results.Keys == (set id | id in w.settled)
  {
    InvAlways(parking, labels);
    var w := Run(parking, labels).value;
    assert w.taken <= w.offered;
    assert w.started <= w.taken && w.settled <= w.taken;
  }

  /** Each command's effect runs at most once, from the queue or by its caller. A caller
      that has returned got the startup error, and then its effect never ran, or the exit
      with which its own effect ended. */
  lemma CallersGetTheirs(parking: bool, labels: seq<Label>, id: Id)
    requires Run(parking, labels).Some?
    ensures var w := Run(parking, labels).value;
            && Distinct(w.started + w.direct)
            && (id in w.gate.callers && w.gate.callers[id].Returned? ==> Served(w, id, w.gate.callers[id].exit))
  {
    InvAlways(parking, labels);
    var w := Run(parking, labels).value;
    RunsOnce(w);
    if id in w.gate.callers && w.gate.callers[id].Returned? {
      ReturnedServed(w, id);
    }
  }

  ghost predicate Served(w: World, id: Id, exit: Exit) {
    if exit == Startup then w.failing >= 2 && id !in w.started && id !in w.direct
    else id in w.ended && w.ended[id] == exit && id in w.started + w.direct
  }

  lemma RunsOnce(w: World)
    requires Inv(w)
    ensures Distinct(w.started + w.direct)
  {
    assert w.started <= w.offered;
    forall i, j | 0 <= i < |w.started| && 0 <= j < |w.direct| ensures w.started[i] != w.direct[j] {
      assert w.started[i] == w.offered[i] && w.direct[j] in w.direct;
    }
  }

  lemma ReturnedServed(w: World, id: Id)
    requires Inv(w) && id in w.gate.callers && w.gate.callers[id].Returned?
    ensures Served(w, id, w.gate.callers[id].exit)
  {
    assert w.started <= w.taken <= w.offered;
    if id in w.gate.results {
      assert id in w.settled && w.settled <= w.taken;
      assert w.stage >= SIGNALLED ==> w.settled <= w.started;
    }
  }

  /** Until startup signals, no queued command runs, and a result or an exit other than a
      direct caller's own is the startup error; until it sets the gate ready, no command
      runs at all. So a startup that fails before the signal runs no queued command, and one
      that fails before the gate is ready runs none. */
  lemma NothingBeforeTheSignal(parking: bool, labels: seq<Label>)
    requires Run(parking, labels).Some?
    ensures var w := Run(parking, labels).value;
            && (w.stage < SIGNALLED ==>
                  && w.started == []
                  && (forall id | id in w.gate.results :: w.gate.results[id] == Startup)
                  && (forall id | id in w.gate.callers && w.gate.callers[id].Returned? && id !in w.direct ::
                        w.gate.callers[id].exit == Startup))
            && (w.stage < READY_SET ==> w.direct == [])
  {
    InvAlways(parking, labels);
  }

  lemma Then(w: World, labels: seq<Label>, v: World, l: Label, next: World)
    requires RunFrom(w, labels) == Some(v) && Enabled(v, l) && next == Step(v, l)
    ensures RunFrom(w, labels + [l]) == Some(next)
  {
    assert (labels + [l])[..|labels|] == labels;
  }

  /** Startup signals while one command is queued. */
  function QueuedWorld(stage: nat): World {
    var callers: map<Id, Caller> := map[1 := Offered];
    var readiness := if stage >= READY_SET then Ready else Pending;
    var signal := if stage >= SIGNALLED then Some(Go) else None;
    World(Gate(readiness, signal, [1], Idle, callers, map[]), stage, 0, true, stage >= ACTIVATED, map[], {},
          [1], [], [], [], [], map[])
  }

  function Repeat(n: nat): seq<Label> {
    if n == 0 then [] else Repeat(n - 1) + [StartupGoesOn]
  }

  lemma FirstQueued()
    ensures RunFrom(Start(true), [Calls(1), Offers(1)]) == Some(QueuedWorld(0))
  {
    var w := Start(true);
    var called := w.(gate := w.gate.(callers := map[1 := Checked]));
    assert w.gate.callers[1 := Checked] == map[1 := Checked];
    assert called.gate.callers[1 := Offered] == map[1 := Offered];
    assert [] + [Calls(1)] == [Calls(1)] && [Calls(1)] + [Offers(1)] == [Calls(1), Offers(1)];
    Then(w, [], w, Calls(1), called);
    Then(w, [Calls(1)], called, Offers(1), QueuedWorld(0));
  }

  lemma OneMore(labels: seq<Label>, n: nat, v: World, next: World)
    requires n > 0 && RunFrom(Start(true), labels + Repeat(n - 1)) == Some(v)
    requires Enabled(v, StartupGoesOn) && Step(v, StartupGoesOn) == next
    ensures RunFrom(Start(true), labels + Repeat(n)) == Some(next)
  {
    Then(Start(true), labels + Repeat(n - 1), v, StartupGoesOn, next);
    assert labels + Repeat(n) == labels + Repeat(n - 1) + [StartupGoesOn];
  }

  lemma QueuedNext(n: nat)
    requires n < SIGNALLED
    ensures Enabled(QueuedWorld(n), StartupGoesOn)
    ensures Step(QueuedWorld(n), StartupGoesOn) == QueuedWorld(n + 1)
  {
  }

  lemma {:induction false} StartupWithQueue(n: nat)
    requires n <= SIGNALLED
    ensures RunFrom(Start(true), [Calls(1), Offers(1)] + Repeat(n)) == Some(QueuedWorld(n))
  {
    if n == 0 {
      FirstQueued();
      assert [Calls(1), Offers(1)] + Repeat(0) == [Calls(1), Offers(1)];
    } else {
      StartupWithQueue(n - 1);
      QueuedNext(n - 1);
      OneMore([Calls(1), Offers(1)], n, QueuedWorld(n - 1), QueuedWorld(n));
    }
  }

  /** Startup has signalled and failed, and a caller has come since: it got the error. */
  function LateWorld(): World {
    var w := QueuedWorld(SIGNALLED);
    w.(failing := 3, gate := w.gate.(readiness := Failed, callers := w.gate.callers[2 := Returned(Startup)]))
  }

  lemma LateStart() returns (labels: seq<Label>)
    ensures RunFrom(Start(true), labels) == Some(LateWorld())
  {
    StartupWithQueue(SIGNALLED);
    var w := Start(true);
    var a := QueuedWorld(SIGNALLED);
    labels := [Calls(1), Offers(1)] + Repeat(SIGNALLED);
    var b := a.(failing := 1);
    Then(w, labels, a, StartupFails, b);
    var c := b.(failing := 2, gate := b.gate.(readiness := Failed));
    Then(w, labels + [StartupFails], b, FailureGoesOn, c);
    labels := labels + [StartupFails] + [FailureGoesOn];
    var d := c.(gate := c.gate.(callers := c.gate.callers[2 := Returned(Startup)]));
    Then(w, labels, c, Calls(2), d);
    Then(w, labels + [Calls(2)], d, FailureGoesOn, LateWorld());
    labels := labels + [Calls(2)] + [FailureGoesOn];
  }

  /** A failure after the ready signal is different: the queued command runs, while a caller
      that comes later gets the startup error. */
  lemma LateFailure() returns (labels: seq<Label>)
    ensures var r := Run(true, labels);
            && r.Some? && r.value.failing == 3 && r.value.stage < COMPLETE && r.value.started == [1]
            && 2 in r.value.gate.callers && r.value.gate.callers[2] == Returned(Startup)
  {
    labels := LateStart();
    var w := Start(true);
    var e := LateWorld();
    var f := e.(gate := e.gate.(queue := [], worker := Awaiting(1)), taken := [1]);
    assert e.gate.queue[1..] == [];
    Then(w, labels, e, Takes, f);
    var g := f.(gate := f.gate.(worker := Running(1)), started := [1]);
    Then(w, labels + [Takes], f, Proceeds, g);
    labels := labels + [Takes] + [Proceeds];
  }

  // ---------------------------------------------------------------- everyone is settled

  ghost predicate Drained(w: World) {
    && w.gate.queue == [] && w.gate.worker == Idle
    && forall id | id in w.offered :: id in w.gate.results && Fits(w, w.gate.results[id])
  }

  lemma AllSettled(w: World)
    requires Inv(w) && w.gate.worker == Idle && w.gate.queue == []
    ensures Drained(w)
  {
    assert w.settled == w.taken == w.offered;
  }

  lemma Extend(w: World, a: seq<Label>, v: World, b: seq<Label>)
    requires RunFrom(w, a) == Some(v)
    ensures RunFrom(w, a + b) == RunFrom(v, b)
    decreases |b|
  {
    if b == [] {
      assert a + b == a;
    } else {
      assert (a + b)[..|a + b| - 1] == a + b[..|b| - 1];
      Extend(w, a, v, b[..|b| - 1]);
    }
  }

  lemma FirstThen(w: World, l: Label, v: World, rest: seq<Label>)
    requires Enabled(w, l) && v == Step(w, l)
    ensures RunFrom(w, [l] + rest) == RunFrom(v, rest)
  {
    Then(w, [], w, l, v);
    assert [] + [l] == [l];
    Extend(w, [l], v, rest);
  }

  predicate ByWorker(l: Label) {
    l.Takes? || l.Proceeds? || l.EffectEnds? || l.Settles?
  }

  lemma WorkerStep(w: World) returns (l: Label, v: World)
    requires Inv(w) && w.gate.commandReady.Some? && (w.gate.worker != Idle || w.gate.queue != [])
    ensures ByWorker(l) && Enabled(w, l) && v == Step(w, l) && Inv(v)
    ensures v.offered == w.offered && v.stage == w.stage && v.failing == w.failing
    ensures v.gate.commandReady == w.gate.commandReady
    ensures |v.gate.queue| < |w.gate.queue|
         || (v.gate.queue == w.gate.queue && Distance(v.gate.worker) < Distance(w.gate.worker))
  {
    l := match w.gate.worker
    case Idle => Takes
    case Awaiting(_) => Proceeds
    case Running(_) => EffectEnds(Success(0))
    case Settling(_, _) => Settles;
    v := Step(w, l);
    KeepStep(w, l);
  }

  /** Once readiness is decided, the worker alone can bring every offered command to its
      result: with the startup error exactly when startup did not signal. */
  lemma {:induction false} EveryoneSettles(w: World) returns (labels: seq<Label>)
    requires Inv(w) && w.gate.commandReady.Some?
    ensures (forall l | l in labels :: ByWorker(l)) && RunFrom(w, labels).Some?
    ensures var v := RunFrom(w, labels).value;
            Drained(v) && v.offered == w.offered && v.stage == w.stage && v.failing == w.failing
    decreases |w.gate.queue|, Distance(w.gate.worker)
  {
    var g := w.gate;
    if g.worker == Idle && g.queue == [] {
      labels := [];
      AllSettled(w);
    } else {
      var l, v := WorkerStep(w);
      var rest := EveryoneSettles(v);
      FirstThen(w, l, v, rest);
      labels := [l] + rest;
    }
  }

  function Distance(worker: Worker): nat {
    match worker
    case Idle => 0
    case Awaiting(_) => 3
    case Running(_) => 2
    case Settling(_, _) => 1
  }
}
