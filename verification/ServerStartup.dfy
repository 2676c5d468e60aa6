/** `makeCommandGate`, `forkParked` and the end of server startup in the form of the source
    (apps/server/src/serverRuntimeStartup.ts, apps/server/src/serverActivation.ts): whole
    fibres, each taking its own atomic operations while all others may take theirs in
    between. A ghost sequence records every operation of every fibre, so what CommandGate
    proves of all interleavings holds of this object at every moment. A fibre that waits
    may wait forever: the methods then return without a result. */
module ServerStartup {
  import opened Outcomes
  import opened CommandGate

  /** Whose operations are not the others'. Startup forks roots of its own. */
  datatype Fibre = CallerOf(id: Id) | TheWorker | TheStartup(own: set<Id>) | ForkerOf(root: Id) | RootOf(root: Id)

  predicate ByOthers(me: Fibre, l: Label) {
    match me
    case CallerOf(id) => !(l.Calls? || l.Offers? || l.DirectEnds? || l.Returns?) || l.id != id
    case TheWorker => !ByWorker(l)
    case TheStartup(own) =>
      && !(l.StartupGoesOn? || l.StartupFails? || l.FailureGoesOn?)
      && ((l.Forks? || l.Confirms?) ==> l.root !in own)
    case ForkerOf(root) => l != Forks(root) && l != Confirms(root)
    case RootOf(root) => l != Parks(root) && l != Wakes(root)
  }

  /** What the others leave alone: where the fibre itself stands and what only it writes. */
  ghost predicate Undisturbed(me: Fibre, w: World, v: World) {
    match me
    case CallerOf(id) => Same(w.gate.callers, v.gate.callers, id)
    case TheWorker =>
      && v.gate.worker == w.gate.worker && v.gate.results == w.gate.results
      && v.taken == w.taken && v.started == w.started && v.settled == w.settled
      && w.gate.queue <= v.gate.queue
    case TheStartup(own) =>
      && v.stage == w.stage && v.failing == w.failing && v.activation == w.activation
      && v.gate.readiness == w.gate.readiness && v.gate.commandReady == w.gate.commandReady
      && (forall r | r in own :: (r in v.roots <==> r in w.roots) && (r in v.forking <==> r in w.forking))
    case ForkerOf(root) => (root in v.roots <==> root in w.roots) && (root in v.forking <==> root in w.forking)
    case RootOf(root) => root in w.roots ==> Same(w.roots, v.roots, root)
  }

  predicate Same<T(==)>(m: map<Id, T>, n: map<Id, T>, id: Id) {
    (id in m <==> id in n) && (id in m ==> m[id] == n[id])
  }

  lemma OthersLeave(me: Fibre, w: World, l: Label)
    requires ByOthers(me, l) && Enabled(w, l)
    ensures Undisturbed(me, w, Step(w, l))
  {
    match me
    case CallerOf(id) => OthersLeaveCaller(id, w, l);
    case TheWorker => OthersLeaveWorker(w, l);
    case TheStartup(own) => OthersLeaveStartup(own, w, l);
    case ForkerOf(root) => OthersLeaveForker(root, w, l);
    case RootOf(root) => OthersLeaveRoot(root, w, l);
  }

  lemma OthersLeaveStartup(own: set<Id>, w: World, l: Label)
    requires ByOthers(TheStartup(own), l) && Enabled(w, l)
    ensures Undisturbed(TheStartup(own), w, Step(w, l))
  {
  }

  lemma OthersLeaveForker(root: Id, w: World, l: Label)
    requires ByOthers(ForkerOf(root), l) && Enabled(w, l)
    ensures Undisturbed(ForkerOf(root), w, Step(w, l))
  {
  }

  lemma OthersLeaveRoot(root: Id, w: World, l: Label)
    requires ByOthers(RootOf(root), l) && Enabled(w, l)
    ensures Undisturbed(RootOf(root), w, Step(w, l))
  {
  }

  lemma OthersLeaveCaller(id: Id, w: World, l: Label)
    requires ByOthers(CallerOf(id), l) && Enabled(w, l)
    ensures Undisturbed(CallerOf(id), w, Step(w, l))
  {
  }

  lemma OthersLeaveWorker(w: World, l: Label)
    requires ByOthers(TheWorker, l) && Enabled(w, l)
    ensures Undisturbed(TheWorker, w, Step(w, l))
  {
  }

  lemma UndisturbedTwice(me: Fibre, a: World, b: World, c: World)
    requires Undisturbed(me, a, b) && Undisturbed(me, b, c)
    ensures Undisturbed(me, a, c)
  {
  }

  /** A world without its histories. */
  function Bare(w: World): World {
    w.(offered := [], taken := [], started := [], settled := [], direct := [], ended := map[])
  }

  lemma BareEnabled(w: World, l: Label)
    ensures Enabled(w, l) <==> Enabled(Bare(w), l)
  {
  }

  lemma BareStep(w: World, l: Label)
    requires Enabled(w, l) && Enabled(Bare(w), l)
    ensures Bare(Step(w, l)) == Bare(Step(Bare(w), l))
  {
    if ByWorker(l) {
      BareWorkerStep(w, l);
    } else if l.Calls? || l.Offers? || l.DirectEnds? || l.Returns? {
      BareCallerStep(w, l);
    }
  }

  lemma BareWorkerStep(w: World, l: Label)
    requires ByWorker(l) && Enabled(w, l) && Enabled(Bare(w), l)
    ensures Bare(Step(w, l)) == Bare(Step(Bare(w), l))
  {
  }

  lemma BareCallerStep(w: World, l: Label)
    requires l.Calls? || l.Offers? || l.DirectEnds? || l.Returns?
    requires Enabled(w, l) && Enabled(Bare(w), l)
    ensures Bare(Step(w, l)) == Bare(Step(Bare(w), l))
  {
  }

  lemma OneMoreRoot(own: seq<Id>, i: nat, before: map<Id, Root>, after: map<Id, Root>)
    requires i < |own| && Distinct(own) && forall k | 0 <= k < |own| :: own[k] in before <==> k < i
    requires forall r | r in own :: r in after <==> r in before || r == own[i]
    ensures forall k | 0 <= k < |own| :: own[k] in after <==> k < i + 1
  {
    forall k | 0 <= k < |own| ensures own[k] in after <==> k < i + 1 {
      assert own[k] in own;
    }
  }

  datatype Progress = Done | Broke | Waits

  /** How a command's effect behaves when it is run. */
  datatype Ending = Never | Succeeds(value: int) | Fails(cause: int)

  function ExitOf(e: Ending): (r: Option<Exit>)
    ensures r.None? <==> e.Never?
    ensures r != Some(Startup)
  {
    match e
    case Never => None
    case Succeeds(value) => Some(Success(value))
    case Fails(cause) => Some(Failure(cause))
  }

  class Server {
    /** The effects the callers hand over. */
    const effects: Id -> Ending
    /** The Ref, the Deferred, the queue and the Deferreds of the results. */
    var commandReadinessState: Readiness
    var commandReady: Option<Signal>
    var commandQueue: seq<Id>
    var results: map<Id, Exit>
    /** Whether an activation effect is provided, and whether it has completed. */
    const parking: bool
    var activated: bool
    /** Where each fibre stands. */
    var callers: map<Id, Caller>
    var worker: Worker
    var stage: nat
    var failing: nat
    var roots: map<Id, Root>
    /** The roots whose `forkParked` has not returned. */
    var forking: set<Id>
    ghost var world: World
    ghost var labels: seq<Label>

    function View(): World
      reads this
    {
      World(Gate(commandReadinessState, commandReady, commandQueue, worker, callers, results),
            stage, failing, parking, activated, roots, forking, [], [], [], [], [], map[])
    }

    /** The operations recorded lead from the start to where the object is. */
    ghost predicate Valid()
      reads this
    {
      && Run(parking, labels) == Some(world) && Bare(world) == View()
      && forall id | id in world.ended :: Some(world.ended[id]) == ExitOf(effects(id))
    }

    /** An effect that ends does so as it behaves. */
    predicate Truthful(l: Label)
      reads this
    {
      match l
      case DirectEnds(id, exit) => Some(exit) == ExitOf(effects(id))
      case EffectEnds(exit) => worker.Running? && Some(exit) == ExitOf(effects(worker.id))
      case _ => true
    }

    constructor (parking: bool, effects: Id -> Ending)
      ensures Valid() && this.parking == parking && this.effects == effects
      ensures labels == [] && world == Start(parking)
    {
      this.effects := effects;
      commandReadinessState, commandReady, commandQueue, worker := Pending, None, [], Idle;
      callers, results, roots, forking := map[], map[], map[], {};
      stage, failing, activated := 0, 0, false;
      this.parking := parking;
      world := Start(parking);
      labels := [];
    }

    // -------------------------------------------------------------- bookkeeping

    /** Record the operation just carried out. */
    ghost method Took(l: Label)
      requires Run(parking, labels) == Some(world) && Enabled(world, l) && Bare(Step(world, l)) == View()
      requires forall id | id in Step(world, l).ended :: Some(Step(world, l).ended[id]) == ExitOf(effects(id))
      modifies this`world, this`labels
      ensures Valid() && world == Step(old(world), l) && labels == old(labels) + [l]
    {
      Then(Start(parking), labels, world, l, Step(world, l));
      world := Step(world, l);
      labels := labels + [l];
    }

    ghost method Know()
      requires Valid()
      ensures Inv(world)
    {
      InvAlways(parking, labels);
    }

    /** At every moment the object has passed through, nothing had run before prepareTrial
        returned, and every root was parked by then. */
    lemma AtEveryMoment(n: nat)
      requires Valid() && parking && n <= |labels|
      ensures Run(true, labels[..n]).Some?
      ensures var w := Run(true, labels[..n]).value;
              && (w.started != [] || w.direct != [] ==> w.stage > PREPARED)
              && (forall r | r in w.roots && w.roots[r] == Body :: w.stage > PREPARED)
              && (w.stage >= PREPARED ==> forall r | r in w.roots :: w.roots[r] != Forked)
    {
      PrefixRuns(true, labels, n);
      NothingBeforePrepared(labels[..n]);
    }

    /** One operation of another fibre. */
    method Interfere(me: Fibre, l: Label)
      requires Valid() && ByOthers(me, l) && Enabled(View(), l) && Truthful(l)
      modifies this
      ensures Valid() && old(labels) <= labels && Undisturbed(me, old(world), world)
    {
      BareEnabled(world, l);
      BareStep(world, l);
      OthersLeave(me, world, l);
      StepKeepsParking(View(), l);
      EndsTruthfully(l);
      Become(Step(View(), l));
      Took(l);
    }

    lemma EndsTruthfully(l: Label)
      requires Valid() && Enabled(world, l) && Truthful(l)
      ensures forall id | id in Step(world, l).ended :: Some(Step(world, l).ended[id]) == ExitOf(effects(id))
    {
      assert View().gate.worker == world.gate.worker;
    }

    method Become(v: World)
      requires v.parking == parking
      modifies this`commandReadinessState, this`commandReady, this`commandQueue, this`results, this`callers,
        this`worker, this`roots, this`forking, this`stage, this`failing, this`activated
      ensures View() == Bare(v)
    {
      var g := v.gate;
      commandReadinessState, commandReady, commandQueue, results := g.readiness, g.commandReady, g.queue, g.results;
      callers, worker, roots, forking := g.callers, g.worker, v.roots, v.forking;
      stage, failing, activated := v.stage, v.failing, v.activation;
    }

    /** Anything the other fibres may do before this one goes on. */
    method Others(me: Fibre)
      requires Valid()
      modifies this
      ensures Valid() && old(labels) <= labels && Undisturbed(me, old(world), world)
    {
      var n: nat := *;
      while n > 0
        invariant Valid() && old(labels) <= labels && Undisturbed(me, old(world), world)
      {
        var l: Label := *;
        if ByOthers(me, l) && Enabled(View(), l) && Truthful(l) {
          ghost var before := world;
          Interfere(me, l);
          UndisturbedTwice(me, old(world), before, world);
        }
        n := n - 1;
      }
    }

    // -------------------------------------------------------------- enqueueCommand

    /** `enqueueCommand`: the caller gets the exit of its own effect, which ran once, after
        the gate was set ready; or the startup error, and then its effect never ran and
        startup has failed. */
    method EnqueueCommand(id: Id) returns (exit: Option<Exit>)
      requires Valid() && id !in callers
      modifies this
      ensures Valid() && old(labels) <= labels
      ensures exit.Some? ==> Served(world, id, exit.value) && Distinct(world.started + world.direct)
      ensures exit.Some? && exit.value != Startup ==> stage >= READY_SET && exit == ExitOf(effects(id))
      ensures exit.None? ==> id in callers && if callers[id] == Direct then effects(id).Never?
                                              else callers[id] == Offered && id !in results
    {
      var readinessState := commandReadinessState;
      if readinessState == Ready {
        callers := callers[id := Direct];
        Took(Calls(id));
        exit := RunDirectly(id);
      } else if readinessState == Failed {
        callers := callers[id := Returned(Startup)];
        Took(Calls(id));
        exit := Some(Startup);
      } else {
        callers := callers[id := Checked];
        Took(Calls(id));
        exit := OfferAndAwait(id);
      }
      if exit.Some? {
        ServedNow(id);
      }
    }

    ghost method ServedNow(id: Id)
      requires Valid() && id in callers && callers[id].Returned?
      ensures Served(world, id, callers[id].exit) && Distinct(world.started + world.direct)
      ensures callers[id].exit != Startup ==> stage >= READY_SET && Some(callers[id].exit) == ExitOf(effects(id))
    {
      Know();
      RunsOnce(world);
      assert world.gate.callers == callers;
      ReturnedServed(world, id);
    }

    /** The gate is ready: the caller runs its effect itself. */
    method RunDirectly(id: Id) returns (exit: Option<Exit>)
      requires Valid() && id in callers && callers[id] == Direct
      modifies this
      ensures Valid() && old(labels) <= labels && id in callers
      ensures if exit.Some? then callers[id] == Returned(exit.value) else callers[id] == Direct && effects(id).Never?
    {
      Others(CallerOf(id));
      exit := ExitOf(effects(id));
      if exit.Some? {
        callers := callers[id := Returned(exit.value)];
        Took(DirectEnds(id, exit.value));
      }
    }

    /** The command goes into the queue, and its caller waits for the result. */
    method OfferAndAwait(id: Id) returns (exit: Option<Exit>)
      requires Valid() && id in callers && callers[id] == Checked
      modifies this
      ensures Valid() && old(labels) <= labels && id in callers
      ensures if exit.Some? then callers[id] == Returned(exit.value) else callers[id] == Offered && id !in results
    {
      Others(CallerOf(id));
      commandQueue := commandQueue + [id];
      callers := callers[id := Offered];
      Took(Offers(id));
      exit := AwaitResult(id);
    }

    method AwaitResult(id: Id) returns (exit: Option<Exit>)
      requires Valid() && id in callers && callers[id] == Offered
      modifies this
      ensures Valid() && old(labels) <= labels && id in callers
      ensures if exit.Some? then callers[id] == Returned(exit.value) else callers[id] == Offered && id !in results
    {
      Others(CallerOf(id));
      if id !in results {
        return None;
      }
      exit := Some(results[id]);
      callers := callers[id := Returned(results[id])];
      Took(Returns(id));
    }

    // -------------------------------------------------------------- the worker

    /** What one turn of the worker has done to the histories and results. */
    ghost predicate Turned(w: World, v: World) {
      && |v.taken| == |w.taken| + 1
      && (var id := v.taken[|w.taken|];
          && v.taken == w.taken + [id] && v.settled == w.settled + [id]
          && id !in w.gate.results && id in v.gate.results
          && v.gate.results == w.gate.results[id := v.gate.results[id]]
          && v.started == (if v.gate.results[id] == Startup then w.started else w.started + [id]))
    }

    /** Where the worker may stand forever: nothing is queued, readiness is undecided, or it
        runs an effect that does not end. */
    predicate WorkerWaits()
      reads this
    {
      match worker
      case Idle => commandQueue == []
      case Awaiting(_) => commandReady.None?
      case Running(id) => effects(id).Never?
      case Settling(_, _) => false
    }

    /** One turn of the worker: unless it waits, the next command in offer order has been
        settled, for the first time, with the exit of its effect, which has run, when startup
        signalled, and with the startup error otherwise. */
    method RunCommand() returns (done: bool)
      requires Valid() && worker == Idle
      modifies this
      ensures Valid() && old(labels) <= labels
      ensures done ==> worker == Idle && Turned(old(world), world) && world.taken <= world.offered
      ensures done ==> var id := world.taken[|old(world.taken)|];
                       if stage < SIGNALLED then results[id] == Startup
                       else id in world.ended && Some(results[id]) == ExitOf(effects(id))
      ensures !done ==> WorkerWaits() && results == old(results) && world.settled == old(world.settled)
    {
      done := TakeCommand();
      if !done {
        return;
      }
      done := Proceed();
      if done {
        SettleQueuedCommand();
        TurnKnown(world.taken[|old(world.taken)|]);
      }
    }

    method TakeCommand() returns (taken: bool)
      requires Valid() && worker == Idle
      modifies this
      ensures Valid() && old(labels) <= labels
      ensures results == old(results) && world.settled == old(world.settled) && world.started == old(world.started)
      ensures if taken then worker.Awaiting? && world.taken == old(world.taken) + [worker.id]
              else worker == Idle && commandQueue == []
    {
      Others(TheWorker);
      taken := commandQueue != [];
      if taken {
        worker := Awaiting(commandQueue[0]);
        commandQueue := commandQueue[1..];
        Took(Takes);
      }
    }

    ghost method TurnKnown(id: Id)
      requires Valid() && id in results
      ensures if stage < SIGNALLED then results[id] == Startup
              else id in world.ended && Some(results[id]) == ExitOf(effects(id))
      ensures world.taken <= world.offered
    {
      Know();
      assert world.gate.results == results;
    }

    /** The command's `run` up to its exit: wait for readiness; then run the effect, or pass
        the startup error on. */
    method Proceed() returns (done: bool)
      requires Valid() && worker.Awaiting?
      modifies this
      ensures Valid() && old(labels) <= labels
      ensures world.taken == old(world.taken) && world.settled == old(world.settled) && results == old(results)
      ensures if done then worker.Settling? && worker.id == old(worker).id else WorkerWaits()
      ensures done ==> world.started == if worker.exit == Startup then old(world.started)
                                        else old(world.started) + [worker.id]
    {
      Others(TheWorker);
      done := commandReady.Some?;
      if done {
        if commandReady.value == NoGo {
          worker := Settling(worker.id, Startup);
          Took(Proceeds);
        } else {
          worker := Running(worker.id);
          Took(Proceeds);
          done := RunEffect();
        }
      }
    }

    method RunEffect() returns (done: bool)
      requires Valid() && worker.Running?
      modifies this
      ensures Valid() && old(labels) <= labels
      ensures world.taken == old(world.taken) && world.settled == old(world.settled) && results == old(results)
      ensures world.started == old(world.started)
      ensures if done then worker.Settling? && worker.id == old(worker).id && worker.exit != Startup
              else WorkerWaits()
    {
      Others(TheWorker);
      var exit := ExitOf(effects(worker.id));
      done := exit.Some?;
      if done {
        worker := Settling(worker.id, exit.value);
        Took(EffectEnds(exit.value));
      }
    }

    /** The command being settled is the last one taken, and has no result yet. */
    ghost method SettlingKnown()
      requires Valid() && worker.Settling?
      ensures worker.id !in results && world.taken == world.settled + [worker.id]
      ensures world.gate.worker == worker && world.gate.results == results
    {
      Know();
      assert world.gate.worker == worker && world.gate.results == results;
      AtLast(world);
    }

    /** `settleQueuedCommand`: a Deferred keeps its first completion; this is the first. */
    method SettleQueuedCommand()
      requires Valid() && worker.Settling?
      modifies this
      ensures Valid() && old(labels) <= labels && worker == Idle
      ensures old(worker).id !in old(results) && results == old(results)[old(worker).id := old(worker).exit]
      ensures world.taken == old(world.taken) && world.started == old(world.started)
      ensures world.settled == old(world.settled) + [old(worker).id] && world.taken == world.settled
    {
      Others(TheWorker);
      SettlingKnown();
      if worker.id !in results {
        results := results[worker.id := worker.exit];
      }
      worker := Idle;
      Took(Settles);
    }

    /** The worker fibre, `Effect.forever`, seen for so many turns: each of them settles a
        command, in the order of the offers, until the worker waits forever; what it had
        settled stays settled as it was. */
    method RunWorker(turns: nat)
      requires Valid() && worker == Idle
      modifies this
      ensures Valid() && old(labels) <= labels
      ensures old(world.settled) <= world.settled <= world.offered
      ensures |world.settled| == |old(world.settled)| + turns || WorkerWaits()
      ensures forall id | id in old(results) :: id in results && results[id] == old(results[id])
    {
      var n, going := 0, true;
      while n < turns && going
        invariant n <= turns && Valid() && old(labels) <= labels
        invariant old(world.settled) <= world.settled
        invariant if going then worker == Idle && |world.settled| == |old(world.settled)| + n else WorkerWaits()
        invariant forall id | id in old(results) :: id in results && results[id] == old(results[id])
      {
        going := RunCommand();
        n := n + 1;
      }
      Know();
    }

    // -------------------------------------------------------------- startup

    /** The end of `make`, with the roots it forks: when a phase breaks, the gate fails.
        `fates` says how each phase ends; startup waits in a phase, or breaks in it, only
        as that phase does, and waits for the trial also while some `forkParked` has not
        returned. */
    method Make(own: seq<Id>, fates: nat -> Progress) returns (outcome: Progress)
      requires Valid() && stage == 0 && failing == 0
      requires (forall r | r in own :: r !in roots) && Distinct(own)
      modifies this
      ensures Valid() && old(labels) <= labels && Outcome(outcome) && Fated(outcome, fates)
      ensures stage >= PREPARED ==> forall r | r in own :: r in roots
      ensures stage >= PREPARED ==> forall r | r in roots :: roots[r] != Forked
    {
      outcome := RunToItsEnd(own, (set r | r in own), fates);
      MadeKnown(outcome);
    }

    method RunToItsEnd(own: seq<Id>, mine: set<Id>, fates: nat -> Progress) returns (outcome: Progress)
      requires Valid() && stage == 0 && failing == 0 && mine == (set r | r in own)
      requires (forall r | r in own :: r !in roots) && Distinct(own)
      modifies this
      ensures Valid() && old(labels) <= labels && Fated(outcome, fates)
      ensures if outcome == Broke then failing == 3 else failing == 0 && (stage == COMPLETE <==> outcome == Done)
      ensures stage >= PREPARED ==> forall r | r in own :: r in roots
    {
      outcome := RunPhases(own, mine, fates);
      if outcome == Broke {
        FailCommandReady(mine);
      }
    }

    /** The roots parked, prepareTrial, the welcome, activation, the ready signal and its
        publication, in this order. */
    method RunPhases(own: seq<Id>, mine: set<Id>, fates: nat -> Progress) returns (outcome: Progress)
      requires Valid() && stage == 0 && failing == 0 && mine == (set r | r in own)
      requires (forall r | r in own :: r !in roots) && Distinct(own)
      modifies this
      ensures Valid() && old(labels) <= labels && Reached(outcome, COMPLETE, fates)
      ensures stage >= PREPARED ==> forall r | r in own :: r in roots
    {
      outcome := ForkRoots(own, mine);
      if outcome == Done {
        outcome := PrepareTrial(mine, fates);
      }
      if outcome == Done {
        outcome := AfterTrial(mine, fates);
      }
    }

    /** What follows prepareTrial. */
    method AfterTrial(mine: set<Id>, fates: nat -> Progress) returns (outcome: Progress)
      requires Valid() && stage == PREPARED && failing == 0
      modifies this
      ensures Valid() && old(labels) <= labels && Reached(outcome, COMPLETE, fates)
      ensures forall r | r in mine :: r in roots <==> r in old(roots)
    {
      outcome := Phase(WELCOMED, mine, fates);
      if outcome == Done {
        outcome := Phase(ACTIVATED, mine, fates);
      }
      if outcome == Done {
        outcome := SignalCommandReady(mine, fates);
      }
      if outcome == Done {
        outcome := Phase(COMPLETE, mine, fates);
      }
    }

    /** Startup's own roots, each confirmed before the next is forked. */
    method ForkRoots(own: seq<Id>, mine: set<Id>) returns (outcome: Progress)
      requires Valid() && stage == 0 && failing == 0 && mine == (set r | r in own)
      requires (forall r | r in own :: r !in roots) && Distinct(own)
      modifies this
      ensures Valid() && old(labels) <= labels && stage == 0 && failing == 0
      ensures match outcome
              case Done => forall r | r in own :: r in roots
              case Waits => forking != {}
              case Broke => false
    {
      var i := 0;
      while i < |own|
        invariant i <= |own| && Valid() && old(labels) <= labels && stage == 0 && failing == 0
        invariant forall k | 0 <= k < |own| :: own[k] in roots <==> k < i
      {
        ghost var before := roots;
        var confirmed := ForkOwn(own[i], mine);
        if !confirmed {
          return Waits;
        }
        OneMoreRoot(own, i, before, roots);
        i := i + 1;
      }
      outcome := Done;
    }

    method ForkOwn(root: Id, mine: set<Id>) returns (confirmed: bool)
      requires Valid() && stage == 0 && failing == 0 && root in mine && root !in roots
      modifies this
      ensures Valid() && old(labels) <= labels && stage == 0 && failing == 0
      ensures !confirmed ==> root in forking
      ensures forall r | r in mine :: r in roots <==> r in old(roots) || r == root
    {
      Others(TheStartup(mine));
      confirmed := ForkParked(root, TheStartup(mine));
    }

    /** How startup may end: complete and signalled; failed, with the Deferred failed too
        unless it had been completed; or waiting in some phase. */
    ghost predicate Outcome(outcome: Progress)
      reads this
    {
      match outcome
      case Done => stage == COMPLETE && activated && commandReadinessState == Ready && commandReady == Some(Go)
      case Broke => failing == 3 && commandReadinessState == Failed
                    && commandReady == Some(if stage >= SIGNALLED then Go else NoGo)
      case Waits => stage < COMPLETE && commandReadinessState == (if stage >= READY_SET then Ready else Pending)
    }

    ghost method MadeKnown(outcome: Progress)
      requires Valid()
      requires if outcome == Broke then failing == 3 else failing == 0 && (stage == COMPLETE <==> outcome == Done)
      ensures Outcome(outcome)
      ensures stage >= PREPARED ==> forall r | r in roots :: roots[r] != Forked
    {
      InvAlways(parking, labels);
      ParkingFixed(parking, labels);
      assert Signals(world) && Roots(world);
      assert View().gate.readiness == world.gate.readiness && View().gate.commandReady == world.gate.commandReady;
      assert View().roots == world.roots && View().forking == world.forking;
    }

    /** Startup asks for the trial once every `forkParked` has returned, and waits otherwise. */
    method PrepareTrial(mine: set<Id>, fates: nat -> Progress) returns (outcome: Progress)
      requires Valid() && stage == 0 && failing == 0
      modifies this
      ensures Valid() && old(labels) <= labels && Reached(outcome, PREPARED, fates)
      ensures forall r | r in mine :: r in roots <==> r in old(roots)
    {
      Others(TheStartup(mine));
      if forking != {} {
        return Waits;
      }
      outcome := Advance(PREPARED, fates);
    }

    /** Where a phase that ends in `next` leaves startup. */
    ghost predicate Reached(outcome: Progress, next: nat, fates: nat -> Progress)
      reads this
    {
      && Fated(outcome, fates)
      && match outcome
         case Done => stage == next && failing == 0
         case Broke => stage < next && failing == 1
         case Waits => stage < next && failing == 0
    }

    /** Startup has stopped short of a phase only as the phase did, or for a root that has
        not confirmed. */
    ghost predicate Fated(outcome: Progress, fates: nat -> Progress)
      reads this
    {
      outcome == Done || fates(stage + 1) == outcome || (outcome == Waits && stage == 0 && forking != {})
    }

    /** A phase after the first. */
    method Phase(next: nat, mine: set<Id>, fates: nat -> Progress) returns (outcome: Progress)
      requires Valid() && PREPARED < stage + 1 == next <= COMPLETE && failing == 0
      modifies this
      ensures Valid() && old(labels) <= labels && Reached(outcome, next, fates)
      ensures forall r | r in mine :: r in roots <==> r in old(roots)
    {
      Others(TheStartup(mine));
      outcome := Advance(next, fates);
    }

    /** A phase may break, or wait forever: its fate says. */
    method Advance(next: nat, fates: nat -> Progress) returns (outcome: Progress)
      requires Valid() && stage + 1 == next <= COMPLETE && failing == 0
      requires next == PREPARED ==> forking == {}
      modifies this
      ensures Valid() && old(labels) <= labels && Reached(outcome, next, fates) && roots == old(roots)
    {
      outcome := fates(next);
      if outcome == Broke {
        failing := 1;
        Took(StartupFails);
      } else if outcome == Done {
        GoOn();
      }
    }

    /** The operation a phase consists of. */
    method GoOn()
      requires Valid() && failing == 0 && stage < COMPLETE && (stage + 1 == PREPARED ==> forking == {})
      modifies this
      ensures Valid() && labels == old(labels) + [StartupGoesOn] && stage == old(stage) + 1 && failing == 0
      ensures roots == old(roots)
    {
      BareEnabled(world, StartupGoesOn);
      stage := stage + 1;
      if stage == ACTIVATED {
        activated := true;
      } else if stage == READY_SET {
        commandReadinessState := Ready;
      } else if stage == SIGNALLED && commandReady.None? {
        commandReady := Some(Go);
      }
      Took(StartupGoesOn);
    }

    /** `signalCommandReady`: the Ref first, then the Deferred. */
    method SignalCommandReady(mine: set<Id>, fates: nat -> Progress) returns (outcome: Progress)
      requires Valid() && stage == ACTIVATED && failing == 0
      modifies this
      ensures Valid() && old(labels) <= labels && Reached(outcome, SIGNALLED, fates)
      ensures forall r | r in mine :: r in roots <==> r in old(roots)
    {
      outcome := Phase(READY_SET, mine, fates);
      if outcome == Done {
        outcome := Phase(SIGNALLED, mine, fates);
      }
    }

    /** `failCommandReady`: the Ref first, then the Deferred, which keeps what it has. */
    method FailCommandReady(mine: set<Id>)
      requires Valid() && failing == 1
      modifies this
      ensures Valid() && old(labels) <= labels && failing == 3 && stage == old(stage)
      ensures forall r | r in mine :: r in roots <==> r in old(roots)
    {
      FailRef(mine);
      Others(TheStartup(mine));
      if commandReady.None? {
        commandReady := Some(NoGo);
      }
      failing := 3;
      Took(FailureGoesOn);
    }

    method FailRef(mine: set<Id>)
      requires Valid() && failing == 1
      modifies this
      ensures Valid() && old(labels) <= labels && failing == 2 && stage == old(stage)
      ensures forall r | r in mine :: r in roots <==> r in old(roots)
    {
      Others(TheStartup(mine));
      commandReadinessState, failing := Failed, 2;
      Took(FailureGoesOn);
    }

    // -------------------------------------------------------------- forkParked

    /** `forkParked`, called by startup or by another fibre: with an activation effect it
        returns only once its root has confirmed that it is parked; without one the body
        runs at once. */
    method ForkParked(root: Id, me: Fibre) returns (confirmed: bool)
      requires Valid() && root !in roots && (parking ==> stage < PREPARED)
      requires me == ForkerOf(root) || (me.TheStartup? && root in me.own)
      modifies this
      ensures Valid() && old(labels) <= labels && root in roots
      ensures parking ==> (confirmed <==> roots[root] != Forked) && (confirmed <==> root !in forking)
                          && (roots[root] == Body ==> stage >= ACTIVATED)
      ensures !parking ==> confirmed && roots[root] == Body
      ensures me.TheStartup? ==> stage == old(stage) && failing == old(failing)
      ensures me.TheStartup? ==> forall r | r in me.own :: r in roots <==> r in old(roots) || r == root
    {
      if parking {
        roots, forking := roots[root := Forked], forking + {root};
        Took(Forks(root));
        Others(me);
        confirmed := roots[root] != Forked;
        if confirmed {
          forking := forking - {root};
          Took(Confirms(root));
        }
      } else {
        roots := roots[root := Body];
        Took(Forks(root));
        confirmed := true;
      }
      RootKnown(root);
    }

    ghost method RootKnown(root: Id)
      requires Valid() && root in roots
      ensures parking && roots[root] == Body ==> stage >= ACTIVATED
    {
      Know();
      ParkingFixed(parking, labels);
      assert View().roots == world.roots;
    }

    /** The fibre `forkParked` forks: it confirms, waits for activation, and runs its body. */
    method RunRoot(root: Id) returns (running: bool)
      requires Valid() && parking && root in roots && roots[root] == Forked
      modifies this
      ensures Valid() && old(labels) <= labels && root in roots
      ensures roots[root] == (if running then Body else Parked) && (running <==> activated)
      ensures running ==> stage >= ACTIVATED > PREPARED
    {
      roots := roots[root := Parked];
      Took(Parks(root));
      running := AwaitActivation(root);
    }

    method AwaitActivation(root: Id) returns (running: bool)
      requires Valid() && parking && root in roots && roots[root] == Parked
      modifies this
      ensures Valid() && old(labels) <= labels && root in roots
      ensures roots[root] == (if running then Body else Parked) && (running <==> activated)
      ensures running ==> stage >= ACTIVATED > PREPARED
    {
      Others(RootOf(root));
      running := activated;
      if running {
        roots := roots[root := Body];
        Took(Wakes(root));
      }
      RootKnown(root);
    }
  }
}
