/**
The scheduler's Service object, and the object together with its threads.

Service has the fields of the program and one method for each critical section or statement outside
of one; Do runs the step a program point stands for. System keeps the threads beside a service and
performs any schedule of actions: the states it goes through are the runs of the transition system, so
what is proved of those holds of the fields. StopAndWait and Restart are whole calls of one caller.
*/
module SchedulerService {
  import opened Wrappers
  import opened SchedulerLifecycle
  import opened LifecycleSafety

  // The shared memory right after Start made a run, before it spawns the workers.
  function RunMade(sh: Shared, workers: nat): Shared {
    var g := sh.rt.nextId;
    sh.(svc := sh.svc.(stopCh := Some(g), queue := Some(g), cron := Some(g + 1)),
        rt := sh.rt.(queues := sh.rt.queues[g := []], crons := sh.rt.crons[g + 1 := true], nextId := g + 2),
        wg := sh.wg + workers)
  }

  function Numbered(sh: Shared, workers: nat): Shared {
    sh.(rt := sh.rt.(nextTid := sh.rt.nextTid + workers))
  }

  lemma StartIsPool(sh: Shared)
    requires sh.svc.stopCh.None?
    ensures var n := PoolSize(sh.svc.size);
            StartSection(sh) == Effect(Numbered(RunMade(sh, n), n), Some(StartTimers),
                                       Pool(sh.rt.nextTid, n, sh.rt.nextId))
  {
  }

  class Service {
    var size: int
    var tz: nat
    var stopCh: Option<nat>
    var stopDone: Option<nat>
    var queue: Option<nat>
    var c: Option<nat>
    var workerWG: int

    // channels, contexts and crons by number
    var nextTid: nat
    var nextId: nat
    var queues: map<nat, seq<Queued>>
    var closed: multiset<nat>
    var cancelled: set<nat>
    var doneClosed: multiset<nat>
    var crons: map<nat, bool>

    ghost var mu: Option<nat>
    ghost var tmu: Option<nat>
    ghost var aux: Aux

    ghost function View(): Shared
      reads this
    {
      Shared(mu, tmu, SchedulerLifecycle.Service.Service(size, tz, stopCh, stopDone, queue, c), workerWG,
             Runtime(nextTid, nextId, queues, closed, cancelled, doneClosed, crons), aux)
    }

    constructor (size: int, tz: nat)
      ensures View() == Init(size, tz).sh
    {
      this.size, this.tz := size, tz;
      stopCh, stopDone, queue, c := None, None, None, None;
      workerWG, nextTid, nextId := 0, 0, 0;
      queues, closed, cancelled, doneClosed, crons := map[], multiset{}, {}, multiset{}, map[];
      mu, tmu, aux := None, None, Aux(map[], None, false, {}, false, []);
    }

    // Start, from the test of stopCh to the rebuilding of the one-time timers.
    method Start() returns (next: Option<Pc>, spawned: map<nat, Pc>)
      modifies this
      ensures Effect(View(), next, spawned) == StartSection(old(View()))
      ensures size == old(size) && tz == old(tz)
      ensures old(stopCh) == None ==> workerWG == old(workerWG) + if size <= 0 then 2 else size
    {
      if stopCh.Some? {
        spawned := map[];
        mu := None;
        next := if stopDone.None? then None else Some(StartWait(stopDone.value));
        return;
      }
      StartIsPool(View());
      var run, workers := nextId, size;
      if workers <= 0 {
        workers := DEFAULT_WORKERS;
      }
      MakeRun(workers);
      spawned := SpawnPool(workers, run);
      next := Some(StartTimers);
    }

    // make(chan struct{}), make(chan task, 256), cron.New and workerWG.Add for a new run.
    method MakeRun(workers: nat)
      modifies this
      ensures View() == RunMade(old(View()), workers)
    {
      var run := MakeChannels();
      stopCh, queue, c := Some(run), Some(run), Some(run + 1);
      workerWG := workerWG + workers;
    }

    method MakeChannels() returns (run: nat)
      modifies this`queues, this`crons, this`nextId
      ensures run == old(nextId) && nextId == run + 2
      ensures queues == old(queues)[run := []] && crons == old(crons)[run + 1 := true]
    {
      run := nextId;
      queues := queues[run := []];
      crons := crons[run + 1 := true];
      nextId := run + 2;
    }

    // The loop of go statements; every worker captures the run's context, stop channel and queue.
    method SpawnPool(workers: nat, run: nat) returns (spawned: map<nat, Pc>)
      modifies this`nextTid
      ensures spawned == Pool(old(nextTid), workers, run) && View() == Numbered(old(View()), workers)
    {
      spawned := map[];
      for i := 0 to workers
        invariant spawned == Pool(old(nextTid), i, run) && nextTid == old(nextTid) + i
      {
        spawned := spawned[nextTid := WorkerTop(run)];
        nextTid := nextTid + 1;
      }
    }

    // Stop's first critical section.
    method Stop(ghost t: nat) returns (next: Option<Pc>)
      modifies this
      ensures Effect(View(), next, map[]) == StopSection(old(View()), t)
    {
      if stopCh.None? {
        mu := None;
        return None;
      }
      if stopDone.Some? {
        mu := None;
        return Some(StopWait(stopDone.value));
      }
      var done := nextId;
      nextId := nextId + 1;
      next := Some(Charge(Close, stopCh.value, done, c));
      aux := aux.(stops := aux.stops[done := StopInfo(stopCh.value, t)], retiring := c);
      stopDone := Some(done);
      c := None;
      mu := None;
    }

    method Reset()
      modifies this`stopCh, this`queue, this`stopDone, this`mu
      ensures stopCh == None && queue == None && stopDone == None && mu == None
    {
      stopCh, queue, stopDone := None, None, None;
      mu := None;
    }

    method SpawnFinalizer(run: nat, done: nat, captured: Option<nat>) returns (spawned: map<nat, Pc>)
      modifies this`aux, this`nextTid
      ensures spawned == map[old(nextTid) := Charge(Join, run, done, captured)] && nextTid == old(nextTid) + 1
      ensures aux == old(aux).(stops := old(aux).stops[done := StopInfo(run, old(nextTid))])
    {
      aux := aux.(stops := aux.stops[done := StopInfo(run, nextTid)]);
      spawned := map[nextTid := Charge(Join, run, done, captured)];
      nextTid := nextTid + 1;
    }

    // One statement of the rest of Stop or of its background goroutine.
    method WindDown(stage: Stage, run: nat, done: nat, captured: Option<nat>) returns (next: Pc, spawned: map<nat, Pc>)
      modifies this
      ensures Effect(View(), Some(next), spawned) == ChargeStep(old(View()), stage, run, done, captured)
    {
      spawned := map[];
      match stage
      case Close =>
        closed := closed + multiset{run};
        next := Charge(Cancel, run, done, captured);
      case Cancel =>
        cancelled := cancelled + {run};
        next := Charge(CronStop, run, done, captured);
      case CronStop =>
        if captured.Some? {
          crons := crons[captured.value := false];
        }
        aux := aux.(retiring := None);
        next := Charge(Drain, run, done, captured);
      case Drain =>
        next := Charge(Timers, run, done, captured);
      case Timers =>
        tmu := None;
        next := Charge(Spawn, run, done, captured);
      case Spawn =>
        spawned := SpawnFinalizer(run, done, captured);
        next := StopWait(done);
      case Join =>
        next := Charge(Stage.Finalize, run, done, captured);
      case Finalize =>
        Reset();
        next := FinClose(done);
    }

    // Apply, up to the point where restartLocked has to wait for the old cron.
    method Apply(newSize: int, newTz: nat) returns (next: Option<Pc>)
      modifies this
      ensures Effect(View(), next, map[]) == ApplySection(old(View()), newSize, newTz)
      ensures size == newSize && tz == newTz
    {
      var oldTz := tz;
      size, tz := newSize, newTz;
      next := None;
      if stopCh.None? {
        mu := None;
        return;
      }
      if oldTz != newTz {
        if c.Some? {
          crons := crons[c.value := false];
          aux := aux.(orphans := aux.orphans - {c.value}, restarting := true);
          next := Some(ApplyWait(c.value));
        } else {
          FinishRestart();
        }
      } else {
        mu := None;
      }
    }

    // The second half of restartLocked.
    method FinishRestart()
      modifies this
      ensures View() == NewCron(old(View()))
    {
      aux := if stopDone.Some?
             then aux.(restarting := false, orphans := aux.orphans + {nextId}, tzWhileStopping := true)
             else aux.(restarting := false);
      c, crons := Some(nextId), crons[nextId := true];
      nextId := nextId + 1;
      mu := None;
    }

    // enqueue reads the queue under the lock and sends without blocking after it.
    method Enqueue(task: nat, from: Option<nat>) returns (next: Option<Pc>)
      modifies this
      ensures Effect(View(), next, map[]) == EnqueueSection(old(View()), task, from)
    {
      next := if queue.None? then None else Some(EnqSend(task, from, queue.value));
      mu := None;
    }

    method Send(task: nat, q: nat)
      modifies this
      ensures View() == SendStep(old(View()), task, q).sh
    {
      if q in queues && |queues[q]| < QUEUE_CAP {
        queues := queues[q := queues[q] + [Queued(task, q)]];
      }
    }

    // The locks of any other call, one section after another.
    method LeaveSection(locks: seq<Lock>) returns (next: Option<Pc>)
      requires |locks| > 0
      modifies this
      ensures Effect(View(), next, map[]) == SectionStep(old(View()), locks)
    {
      if locks[0] == Mu {
        mu := None;
      } else {
        tmu := None;
      }
      next := if |locks| == 1 then None else Some(Section(locks[1..]));
    }

    // The worker's loop, but for the receive: it looks at the signals first, leaves when the run is over,
    // and releases the lock after copying the configuration.
    method Work(pc: Pc) returns (next: Option<Pc>)
      requires IsWorker(pc)
      modifies this
      ensures forall t :: Effect(View(), next, map[]) == Body(old(View()), t, pc)
    {
      match pc
      case WorkerTop(run) =>
        if closed[run] > 0 || run in cancelled {
          workerWG := workerWG - 1;
          return None;
        }
        next := Some(WorkerSelect(run));
      case WorkerSelect(_) =>
        workerWG := workerWG - 1;
        next := None;
      case WorkerLock(run, task) =>
        mu := None;
        next := Some(WorkerRun(run, task));
      case WorkerRun(run, _) =>
        next := Some(WorkerTop(run));
    }

    // The receive from the run's queue.
    method Receive(run: nat) returns (next: Option<Pc>)
      requires CanTake(View(), run)
      modifies this
      ensures Effect(View(), next, map[]) == TakeBody(old(View()), run)
    {
      var head := queues[run][0];
      queues := queues[run := queues[run][1..]];
      aux := aux.(ran := aux.ran + [Ran(head.task, head.put, run, stopCh)]);
      next := Some(WorkerLock(run, head.task));
    }

    // The step at a program point, whichever it is.
    method Do(ghost t: nat, pc: Pc) returns (next: Option<Pc>, spawned: map<nat, Pc>)
      modifies this
      ensures Effect(View(), next, spawned) == Body(old(View()), t, pc)
    {
      next, spawned := None, map[];
      match pc
      case StartEnter => next, spawned := Start();
      case StartWait(_) => next := Some(StartEnter);
      case StartTimers => mu, tmu := None, None;
      case StopEnter => next := Stop(t);
      case StopWait(_) =>
      case Charge(stage, run, done, captured) =>
        var after;
        after, spawned := WindDown(stage, run, done, captured);
        next := Some(after);
      case FinClose(done) => doneClosed := doneClosed + multiset{done};
      case ApplyEnter(newSize, newTz) => next := Apply(newSize, newTz);
      case ApplyWait(_) => FinishRestart();
      case FnStart(task, cron) => next := Some(EnqEnter(task, Some(cron)));
      case EnqEnter(task, from) => next := Enqueue(task, from);
      case EnqSend(task, _, q) => Send(task, q);
      case Section(locks) =>
        if |locks| > 0 {
          next := LeaveSection(locks);
        }
      case _ => next := Work(pc);
    }

    // ----- whole calls of one caller, with nobody else about -----

    // close(stopCh), cancel(), c.Stop(), and the timers.
    method Signal(run: nat, done: nat, captured: Option<nat>)
      modifies this
      ensures closed == old(closed) + multiset{run} && cancelled == old(cancelled) + {run}
      ensures crons == if captured.Some? then old(crons)[captured.value := false] else old(crons)
      ensures View() == old(View()).(tmu := None, aux := aux,
                                     rt := old(View()).rt.(closed := closed, cancelled := cancelled, crons := crons))
    {
      var next, spawned := WindDown(Close, run, done, captured);
      next, spawned := WindDown(Cancel, run, done, captured);
      next, spawned := WindDown(CronStop, run, done, captured);
      next, spawned := WindDown(Timers, run, done, captured);
    }

    // Every worker of the run looks at its signals and leaves.
    method AwaitWorkers(run: nat)
      requires 0 <= workerWG && closed[run] > 0
      modifies this
      ensures View() == old(View()).(wg := 0)
    {
      while workerWG > 0
        invariant 0 <= workerWG && closed[run] > 0
        invariant View() == old(View()).(wg := workerWG)
        decreases workerWG
      {
        ghost var before := View();
        var next := Work(WorkerTop(run));
        assert Effect(View(), next, map[]) == Body(before, 0, WorkerTop(run));
      }
    }

    // The background goroutine after the workers are gone.
    method Finish(run: nat, done: nat, captured: Option<nat>)
      modifies this
      ensures stopCh == None && queue == None && stopDone == None
      ensures doneClosed == old(doneClosed) + multiset{done}
      ensures View() == old(View()).(mu := None,
                                     svc := old(View()).svc.(stopCh := None, queue := None, stopDone := None),
                                     rt := old(View()).rt.(doneClosed := doneClosed))
    {
      var next, spawned := WindDown(Stage.Finalize, run, done, captured);
      doneClosed := doneClosed + multiset{done};
    }

    // Stop to the end: the service is stopped, no worker is left, the run's stop channel and the stop's
    // done channel were closed once more each, the cron is dead. Queues and configuration stay.
    method StopAndWait(ghost t: nat) returns (run: nat, done: nat)
      requires stopCh.Some? && stopDone.None? && 0 <= workerWG
      modifies this
      ensures old(stopCh) == Some(run) && done == old(nextId) && nextId == done + 1
      ensures stopCh == None && stopDone == None && queue == None && c == None && workerWG == 0
      ensures closed == old(closed) + multiset{run} && doneClosed == old(doneClosed) + multiset{done}
      ensures cancelled == old(cancelled) + {run}
      ensures crons == if old(c).Some? then old(crons)[old(c).value := false] else old(crons)
      ensures queues == old(queues) && size == old(size) && tz == old(tz)
    {
      var captured := c;
      run, done := stopCh.value, nextId;
      var next := Stop(t);
      Signal(run, done, captured);
      AwaitWorkers(run);
      Finish(run, done, captured);
    }

    // Stop and Start again: one pool of the configured size in a run with a number never used, an empty
    // queue of its own and a live cron of its own; what was left in the old run's queue stays there, and
    // the old cron is dead.
    method Restart(ghost t: nat) returns (was: nat, run: nat, spawned: map<nat, Pc>)
      requires stopCh.Some? && stopDone.None? && 0 <= workerWG
      requires Ids(View()) && stopCh.value in queues
      modifies this
      ensures old(stopCh) == Some(was) && stopCh == Some(run) == queue && stopDone == None && was < run
      ensures run !in old(queues) && queues == old(queues)[run := []]
      ensures workerWG == (if size <= 0 then 2 else size) == |spawned.Keys|
      ensures forall w :: w in spawned ==> spawned[w] == WorkerTop(run)
      ensures c.Some? && c.value !in old(crons) && c.value in crons && crons[c.value]
      ensures old(c).Some? ==> old(c).value in crons && !crons[old(c).value]
    {
      var done;
      was, done := StopAndWait(t);
      run := nextId;
      var next;
      next, spawned := Start();
    }
  }

  class System {
    const svc: Service
    var threads: map<nat, Pc>

    ghost function View(): State
      reads this, svc
    {
      State(svc.View(), threads)
    }

    constructor (size: int, tz: nat)
      ensures View() == Init(size, tz) && fresh(svc)
    {
      svc := new Service(size, tz);
      threads := map[];
    }

    // A thread goes on or ends, and others begin.
    method Move(t: nat, next: Option<Pc>, spawned: map<nat, Pc>)
      requires t in threads
      modifies this
      ensures threads == Commit(old(threads), t, Effect(svc.View(), next, spawned)).threads
    {
      threads := (if next.Some? then threads[t := next.value] else threads - {t}) + spawned;
    }

    method Begin(pc: Pc)
      modifies this, svc
      ensures View() == Spawned(old(View()), pc)
    {
      threads := threads[svc.nextTid := pc];
      svc.nextTid := svc.nextTid + 1;
    }

    // Every action of the transition system is one method call on the objects.
    method Perform(a: Action)
      requires Enabled(View(), a)
      modifies this, svc
      ensures View() == Step(old(View()), a)
    {
      match a
      case Acquire(t, lock) =>
        if lock == Mu {
          svc.mu := Some(t);
        } else {
          svc.tmu := Some(t);
        }
      case Do(t) =>
        var next, spawned := svc.Do(t, threads[t]);
        Move(t, next, spawned);
      case Take(t) =>
        var next := svc.Receive(threads[t].run);
        Move(t, next, map[]);
      case Skip(t) =>
        Move(t, None, map[]);
      case GiveUp(t) =>
        Move(t, None, map[]);
      case Call(pc) =>
        Begin(pc);
      case Fire(cron, task) =>
        Begin(FnStart(task, cron));
      case CancelRun(run) =>
        svc.cancelled := svc.cancelled + {run};
    }
  }

  // Any schedule of actions performed on new objects. At its end the wait group counts the workers, all of
  // them of the current run, a stopped service has none, and no channel was closed twice.
  method Execute(size: int, tz: nat, acts: seq<Action>) returns (sys: System)
    requires Possible(Init(size, tz), acts)
    ensures fresh(sys) && fresh(sys.svc) && sys.View() == After(Init(size, tz), acts)
    ensures sys.svc.workerWG == |Workers(sys.threads)|
    ensures forall t :: t in Workers(sys.threads) ==> sys.svc.stopCh == Some(sys.threads[t].run)
    ensures sys.svc.stopCh == None ==> Workers(sys.threads) == {} && sys.svc.queue == None && sys.svc.stopDone == None
    ensures forall x :: sys.svc.closed[x] <= 1 && sys.svc.doneClosed[x] <= 1
  {
    sys := new System(size, tz);
    for i := 0 to |acts|
      invariant fresh(sys) && fresh(sys.svc)
      invariant Possible(sys.View(), acts[i..]) && After(sys.View(), acts[i..]) == After(Init(size, tz), acts)
    {
      assert acts[i..][0] == acts[i] && acts[i..][1..] == acts[i + 1..];
      sys.Perform(acts[i]);
    }
    OnePool(size, tz, acts);
  }
}
