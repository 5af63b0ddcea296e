/**
The start/stop protocol of the scheduler service as a transition system.

Every goroutine is a thread with a program counter. One action of a thread is one critical
section, one blocking wait that came true, or one statement outside any lock. The two mutexes
are explicit: a thread first acquires a lock and then runs the section, so a section that needs a
second lock (or waits for something else) while it holds the first one is visible.

Channels, contexts, queues and crons are numbered from one counter, so every `make`, every
`context.WithCancel` and every `cron.New` yields a number never used before.
*/
module SchedulerLifecycle {
  import opened Wrappers

  const QUEUE_CAP := 256
  const DEFAULT_WORKERS := 2

  datatype Lock = Mu | Tmu

  // What the thread in charge of a stop has left to do, in program order. Join and Finalize belong
  // to the background goroutine that Stop spawns.
  datatype Stage = Close | Cancel | CronStop | Drain | Timers | Spawn | Join | Finalize

  datatype Pc =
    | StartEnter
    | StartWait(done: nat)
    | StartTimers                               // run created, s.mu still held, s.tmu wanted
    | StopEnter
    | StopWait(done: nat)
    | Charge(stage: Stage, run: nat, done: nat, captured: Option<nat>)
    | FinClose(done: nat)
    | ApplyEnter(size: int, tz: nat)
    | ApplyWait(prev: nat)                      // restartLocked: s.mu held, old cron still draining
    | FnStart(task: nat, cron: nat)             // a cron's function, before the test of its running flag
    | EnqEnter(task: nat, from: Option<nat>)    // enqueue; from is the cron that fired it, if any
    | EnqSend(task: nat, from: Option<nat>, into: nat)
    | Section(locks: seq<Lock>)                 // any other API call: these locks, one after another
    | WorkerTop(run: nat)
    | WorkerSelect(run: nat)
    | WorkerLock(run: nat, task: nat)           // execOne copies the config under s.mu
    | WorkerRun(run: nat, task: nat)

  // Auxiliary: which run a done channel belongs to and which thread will close it.
  datatype StopInfo = StopInfo(run: nat, closer: nat)

  datatype Queued = Queued(task: nat, put: nat)

  // Auxiliary: one line per task a worker took.
  datatype Ran = Ran(task: nat, put: nat, worker: nat, current: Option<nat>)

  // The fields of the Service struct that s.mu guards.
  datatype Service = Service(
    size: int,
    tz: nat,
    stopCh: Option<nat>,
    stopDone: Option<nat>,
    queue: Option<nat>,
    cron: Option<nat>)

  // Channels, contexts and crons, by number, and the counters numbers come from.
  datatype Runtime = Runtime(
    nextTid: nat,
    nextId: nat,
    queues: map<nat, seq<Queued>>,
    closed: multiset<nat>,
    cancelled: set<nat>,
    doneClosed: multiset<nat>,
    crons: map<nat, bool>)

  // Auxiliary: no step reads these to decide what to do.
  datatype Aux = Aux(
    stops: map<nat, StopInfo>,
    retiring: Option<nat>,        // taken out of the service by Stop, not stopped yet
    restarting: bool,             // a thread is inside restartLocked
    orphans: set<nat>,            // crons started by an Apply that found the service stopping
    tzWhileStopping: bool,        // such an Apply happened
    ran: seq<Ran>)

  // The memory all threads share.
  datatype Shared = Shared(
    mu: Option<nat>,
    tmu: Option<nat>,
    svc: Service,
    wg: int,
    rt: Runtime,
    aux: Aux)

  datatype State = State(sh: Shared, threads: map<nat, Pc>)

  // What one action of a thread does: new shared memory, the thread's next program counter (None
  // when it ends), and threads it spawned.
  datatype Effect = Effect(sh: Shared, next: Option<Pc>, spawned: map<nat, Pc>)

  datatype Action =
    | Acquire(t: nat, lock: Lock)
    | Do(t: nat)
    | Take(t: nat)
    | Skip(t: nat)                              // a cron's function finds the previous run still running
    | GiveUp(t: nat)                            // the caller's context ended while waiting
    | Call(pc: Pc)                              // a new call of the API, or a timer callback
    | Fire(cron: nat, task: nat)                // a live cron starts one of its functions
    | CancelRun(run: nat)                       // the context Start was given is cancelled

  function Init(size: int, tz: nat): State {
    State(Shared(None, None, Service(size, tz, None, None, None, None), 0,
                 Runtime(0, 0, map[], multiset{}, {}, multiset{}, map[]),
                 Aux(map[], None, false, {}, false, [])),
          map[])
  }

  // ----- program counters -----

  predicate MuEntry(pc: Pc) {
    || pc.StartEnter? || pc.StopEnter? || pc.ApplyEnter? || pc.EnqEnter? || pc.WorkerLock?
    || (pc.Charge? && pc.stage == Finalize)
    || (pc.Section? && |pc.locks| > 0 && pc.locks[0] == Mu)
  }

  // Program points that are only reached with s.mu held.
  predicate MuInside(pc: Pc) {
    pc.StartTimers? || pc.ApplyWait?
  }

  predicate TmuEntry(pc: Pc) {
    || pc.StartTimers?
    || (pc.Charge? && pc.stage == Timers)
    || (pc.Section? && |pc.locks| > 0 && pc.locks[0] == Tmu)
  }

  predicate IsWorker(pc: Pc) {
    pc.WorkerTop? || pc.WorkerSelect? || pc.WorkerLock? || pc.WorkerRun?
  }

  // The cron a thread counts as in flight for.
  function InFlightOf(pc: Pc): Option<nat> {
    if pc.FnStart? then Some(pc.cron) else if pc.EnqEnter? || pc.EnqSend? then pc.from else None
  }

  ghost predicate InFlight(s: State, c: nat) {
    exists t :: t in s.threads && InFlightOf(s.threads[t]) == Some(c)
  }

  predicate Over(sh: Shared, run: nat) {
    sh.rt.closed[run] > 0 || run in sh.rt.cancelled
  }

  predicate Stopped(sh: Shared) { sh.svc.stopCh.None? }
  predicate Running(sh: Shared) { sh.svc.stopCh.Some? && sh.svc.stopDone.None? }
  predicate Stopping(sh: Shared) { sh.svc.stopCh.Some? && sh.svc.stopDone.Some? }

  // ----- the sections -----

  function Ends(sh: Shared): Effect { Effect(sh, None, map[]) }
  function Goes(sh: Shared, pc: Pc): Effect { Effect(sh, Some(pc), map[]) }

  function PoolSize(size: int): nat {
    if size <= 0 then DEFAULT_WORKERS else size
  }

  // The worker threads of one run, numbered from first.
  function Pool(first: nat, n: nat, run: nat): (r: map<nat, Pc>)
    ensures forall t: nat :: t in r <==> first <= t < first + n
    ensures forall t :: t in r ==> r[t] == WorkerTop(run)
    ensures |r.Keys| == n
  {
    if n == 0 then map[] else Pool(first, n - 1, run)[first + n - 1 := WorkerTop(run)]
  }

  function StartSection(sh: Shared): Effect {
    if sh.svc.stopCh.None? then
      var n := PoolSize(sh.svc.size);
      var g := sh.rt.nextId;
      Effect(
        sh.(svc := sh.svc.(stopCh := Some(g), queue := Some(g), cron := Some(g + 1)),
            rt := sh.rt.(queues := sh.rt.queues[g := []], crons := sh.rt.crons[g + 1 := true],
                         nextId := g + 2, nextTid := sh.rt.nextTid + n),
            wg := sh.wg + n),
        Some(StartTimers),
        Pool(sh.rt.nextTid, n, sh.rt.nextId))
    else if sh.svc.stopDone.None? then
      Ends(sh.(mu := None))
    else
      Goes(sh.(mu := None), StartWait(sh.svc.stopDone.value))
  }

  function StopSection(sh: Shared, t: nat): Effect {
    if sh.svc.stopCh.None? then
      Ends(sh.(mu := None))
    else if sh.svc.stopDone.Some? then
      Goes(sh.(mu := None), StopWait(sh.svc.stopDone.value))
    else
      var d := sh.rt.nextId;
      Goes(sh.(mu := None,
               svc := sh.svc.(stopDone := Some(d), cron := None),
               rt := sh.rt.(nextId := d + 1),
               aux := sh.aux.(stops := sh.aux.stops[d := StopInfo(sh.svc.stopCh.value, t)],
                              retiring := sh.svc.cron)),
           Charge(Close, sh.svc.stopCh.value, d, sh.svc.cron))
  }

  // The second half of restartLocked: a new cron, started at once.
  function NewCron(sh: Shared): Shared {
    var c := sh.rt.nextId;
    sh.(mu := None,
        svc := sh.svc.(cron := Some(c)),
        rt := sh.rt.(crons := sh.rt.crons[c := true], nextId := c + 1),
        aux := if sh.svc.stopDone.Some?
               then sh.aux.(restarting := false, orphans := sh.aux.orphans + {c}, tzWhileStopping := true)
               else sh.aux.(restarting := false))
  }

  function ApplySection(sh: Shared, size: int, tz: nat): Effect {
    var sh1 := sh.(svc := sh.svc.(size := size, tz := tz));
    if sh.svc.stopCh.None? || sh.svc.tz == tz then
      Ends(sh1.(mu := None))
    else if sh.svc.cron.Some? then
      var c := sh.svc.cron.value;
      Goes(sh1.(rt := sh.rt.(crons := sh.rt.crons[c := false]),
                aux := sh.aux.(orphans := sh.aux.orphans - {c}, restarting := true)),
           ApplyWait(c))
    else
      Ends(NewCron(sh1))
  }

  function EnqueueSection(sh: Shared, task: nat, from: Option<nat>): Effect {
    if sh.svc.queue.None? then Ends(sh.(mu := None))
    else Goes(sh.(mu := None), EnqSend(task, from, sh.svc.queue.value))
  }

  function SendStep(sh: Shared, task: nat, q: nat): Effect {
    if q in sh.rt.queues && |sh.rt.queues[q]| < QUEUE_CAP then
      Ends(sh.(rt := sh.rt.(queues := sh.rt.queues[q := sh.rt.queues[q] + [Queued(task, q)]])))
    else
      Ends(sh)
  }

  function ChargeStep(sh: Shared, stage: Stage, run: nat, done: nat, c: Option<nat>): Effect {
    match stage
    case Close => 
      Goes(sh.(rt := sh.rt.(closed := sh.rt.closed + multiset{run})), Charge(Cancel, run, done, c))
    case Cancel => 
      Goes(sh.(rt := sh.rt.(cancelled := sh.rt.cancelled + {run})), Charge(CronStop, run, done, c))
    case CronStop =>
      Goes(sh.(rt := if c.Some? then sh.rt.(crons := sh.rt.crons[c.value := false]) else sh.rt,
               aux := sh.aux.(retiring := None)),
           Charge(Drain, run, done, c))
    case Drain => Goes(sh, Charge(Timers, run, done, c))
    case Timers => Goes(sh.(tmu := None), Charge(Spawn, run, done, c))
    case Spawn =>
      Effect(sh.(rt := sh.rt.(nextTid := sh.rt.nextTid + 1),
                 aux := sh.aux.(stops := sh.aux.stops[done := StopInfo(run, sh.rt.nextTid)])),
             Some(StopWait(done)),
             map[sh.rt.nextTid := Charge(Join, run, done, c)])
    case Join => Goes(sh, Charge(Finalize, run, done, c))
    case Finalize =>
      Goes(sh.(mu := None, svc := sh.svc.(stopCh := None, queue := None, stopDone := None)),
           FinClose(done))
  }

  function SectionStep(sh: Shared, locks: seq<Lock>): Effect
    requires |locks| > 0
  {
    var sh1 := if locks[0] == Mu then sh.(mu := None) else sh.(tmu := None);
    if |locks| == 1 then Ends(sh1) else Goes(sh1, Section(locks[1..]))
  }

  function WorkerExit(sh: Shared): Effect {
    Ends(sh.(wg := sh.wg - 1))
  }

  function Body(sh: Shared, t: nat, pc: Pc): Effect {
    match pc
    case StartEnter => StartSection(sh)
    case StartWait(_) => Goes(sh, StartEnter)
    case StartTimers => Ends(sh.(mu := None, tmu := None))
    case StopEnter => StopSection(sh, t)
    case StopWait(_) => Ends(sh)
    case Charge(stage, run, done, c) => ChargeStep(sh, stage, run, done, c)
    case FinClose(d) => Ends(sh.(rt := sh.rt.(doneClosed := sh.rt.doneClosed + multiset{d})))
    case ApplyEnter(size, tz) => ApplySection(sh, size, tz)
    case ApplyWait(_) => Ends(NewCron(sh))
    case FnStart(task, cron) => Goes(sh, EnqEnter(task, Some(cron)))
    case EnqEnter(task, from) => EnqueueSection(sh, task, from)
    case EnqSend(task, _, q) => SendStep(sh, task, q)
    case Section(locks) => if |locks| == 0 then Ends(sh) else SectionStep(sh, locks)
    case WorkerTop(run) => if Over(sh, run) then WorkerExit(sh) else Goes(sh, WorkerSelect(run))
    case WorkerSelect(_) => WorkerExit(sh)
    case WorkerLock(run, task) => Goes(sh.(mu := None), WorkerRun(run, task))
    case WorkerRun(run, _) => Goes(sh, WorkerTop(run))
  }

  predicate CanTake(sh: Shared, run: nat) {
    run in sh.rt.queues && |sh.rt.queues[run]| > 0
  }

  function TakeBody(sh: Shared, run: nat): Effect
    requires CanTake(sh, run)
  {
    var head := sh.rt.queues[run][0];
    Goes(sh.(rt := sh.rt.(queues := sh.rt.queues[run := sh.rt.queues[run][1..]]),
             aux := sh.aux.(ran := sh.aux.ran + [Ran(head.task, head.put, run, sh.svc.stopCh)])),
         WorkerLock(run, head.task))
  }

  // ----- actions -----

  // The part of a thread's guard that reads shared memory.
  predicate SharedGuard(sh: Shared, t: nat, pc: Pc) {
    && (MuEntry(pc) || MuInside(pc) ==> sh.mu == Some(t))
    && (TmuEntry(pc) ==> sh.tmu == Some(t))
    && match pc
       case StartWait(d) => sh.rt.doneClosed[d] > 0
       case StopWait(d) => sh.rt.doneClosed[d] > 0
       case Charge(stage, _, _, _) => stage == Join ==> sh.wg == 0
       case WorkerSelect(run) => Over(sh, run)
       case _ => true
  }

  // The cron a thread waits for: cron.Stop().Done() fires when none of its functions is in flight.
  function Draining(pc: Pc): Option<nat> {
    match pc
    case Charge(stage, _, _, c) => if stage == Drain then c else None
    case ApplyWait(c) => Some(c)
    case _ => None
  }

  ghost predicate Ready(s: State, t: nat)
    requires t in s.threads
  {
    var pc := s.threads[t];
    SharedGuard(s.sh, t, pc) && (Draining(pc).Some? ==> !InFlight(s, Draining(pc).value))
  }

  // Calls a client of the service may start at any time; crons fire through Fire only.
  predicate Callable(pc: Pc) {
    || pc.StartEnter? || pc.StopEnter? || pc.ApplyEnter?
    || (pc.EnqEnter? && pc.from.None?)
    || (pc.Section? && |pc.locks| > 0)
  }

  ghost predicate Enabled(s: State, a: Action) {
    match a
    case Acquire(t, lock) =>
      && t in s.threads
      && (lock == Mu ==> MuEntry(s.threads[t]) && s.sh.mu.None?)
      && (lock == Tmu ==> TmuEntry(s.threads[t]) && s.sh.tmu.None?)
    case Do(t) => t in s.threads && Ready(s, t)
    case Take(t) => t in s.threads && s.threads[t].WorkerSelect? && CanTake(s.sh, s.threads[t].run)
    case Skip(t) => t in s.threads && s.threads[t].FnStart?
    case GiveUp(t) => t in s.threads && (s.threads[t].StartWait? || s.threads[t].StopWait?)
    case Call(pc) => Callable(pc)
    case Fire(c, _) => c in s.sh.rt.crons && s.sh.rt.crons[c]
    case CancelRun(run) => run < s.sh.rt.nextId
  }

  function Commit(threads: map<nat, Pc>, t: nat, e: Effect): State {
    State(e.sh, (if e.next.Some? then threads[t := e.next.value] else threads - {t}) + e.spawned)
  }

  function Spawned(s: State, pc: Pc): State {
    State(s.sh.(rt := s.sh.rt.(nextTid := s.sh.rt.nextTid + 1)), s.threads[s.sh.rt.nextTid := pc])
  }

  function Step(s: State, a: Action): State
    requires Enabled(s, a)
  {
    match a
    case Acquire(t, lock) =>
      s.(sh := if lock == Mu then s.sh.(mu := Some(t)) else s.sh.(tmu := Some(t)))
    case Do(t) => Commit(s.threads, t, Body(s.sh, t, s.threads[t]))
    case Take(t) => Commit(s.threads, t, TakeBody(s.sh, s.threads[t].run))
    case Skip(t) => Commit(s.threads, t, Ends(s.sh))
    case GiveUp(t) => Commit(s.threads, t, Ends(s.sh))
    case Call(pc) => Spawned(s, pc)
    case Fire(c, task) => Spawned(s, FnStart(task, c))
    case CancelRun(run) => s.(sh := s.sh.(rt := s.sh.rt.(cancelled := s.sh.rt.cancelled + {run})))
  }

  // `acts` is a run of the service from s.
  ghost predicate Possible(s: State, acts: seq<Action>)
    decreases |acts|
  {
    acts == [] || (Enabled(s, acts[0]) && Possible(Step(s, acts[0]), acts[1..]))
  }

  ghost function After(s: State, acts: seq<Action>): State
    requires Possible(s, acts)
    decreases |acts|
  {
    if acts == [] then s else After(Step(s, acts[0]), acts[1..])
  }
}
