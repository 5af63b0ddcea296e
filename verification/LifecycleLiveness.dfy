/**
What the service does when it is left alone: no new calls, no firings, no contexts ended from outside.

Every step then uses something up, so the service comes to rest, whatever the order of the steps and
without any fairness. At rest all that is left are idle workers; every stop has been completed. The
only other way to come to rest is the deadlock of LifecycleProgress, and the one action that leads
into it is named exactly.
*/
module LifecycleLiveness {
  import opened Wrappers
  import opened SchedulerLifecycle
  import opened LifecycleSafety
  import opened LifecycleProgress

  // ----- how much is left to do -----

  // The sum of the first n values of f.
  ghost function Total(f: nat -> nat, n: nat): nat {
    if n == 0 then 0 else Total(f, n - 1) + f(n - 1)
  }

  lemma {:induction false} TotalSame(f: nat -> nat, g: nat -> nat, n: nat)
    requires forall i: nat :: i < n ==> f(i) <= g(i)
    ensures Total(f, n) <= Total(g, n)
  {
    if n > 0 {
      TotalSame(f, g, n - 1);
    }
  }

  // One of the values falls by k (grows, where k is negative) and no other one grows.
  lemma {:induction false} TotalShift(f: nat -> nat, g: nat -> nat, n: nat, t: nat, k: int)
    requires t < n && f(t) + k <= g(t) && forall i: nat :: i < n && i != t ==> f(i) <= g(i)
    ensures Total(f, n) + k <= Total(g, n)
  {
    if t == n - 1 {
      TotalSame(f, g, n - 1);
    } else {
      TotalShift(f, g, n - 1, t, k);
    }
  }

  lemma {:induction false} TotalTail(f: nat -> nat, m: nat, n: nat)
    requires m <= n && forall i: nat :: m <= i < n ==> f(i) == 0
    ensures Total(f, n) == Total(f, m)
  {
    if m < n {
      TotalTail(f, m, n - 1);
    }
  }

  const ITEM := 12      // what a task in a queue stands for

  function StageRank(stage: Stage): nat {
    match stage
    case Close => 11
    case Cancel => 10
    case CronStop => 9
    case Drain => 8
    case Timers => 7
    case Spawn => 6
    case Join => 3
    case Finalize => 2
  }

  // How far a thread is from its end. A Start that waits for a stop may have to wait for one more that
  // has already begun.
  function Rank(svc: SchedulerLifecycle.Service, pc: Pc): nat {
    match pc
    case StartEnter => if svc.stopDone.Some? then 5 else 3
    case StartWait(d) => if svc.stopDone.Some? && svc.stopDone != Some(d) then 6 else 4
    case StartTimers => 1
    case StopEnter => 1
    case StopWait(_) => 1
    case Charge(stage, _, _, _) => StageRank(stage)
    case FinClose(_) => 1
    case ApplyEnter(_, _) => 2
    case ApplyWait(_) => 1
    case FnStart(_, _) => 7
    case EnqEnter(_, _) => 6
    case EnqSend(_, _, _) => 5
    case Section(locks) => |locks|
    case WorkerTop(_) => 2
    case WorkerSelect(_) => 1
    case WorkerLock(_, _) => 4
    case WorkerRun(_, _) => 3
  }

  // Three for each step, and one for each lock the thread still has to take for it.
  function Weight(sh: Shared, t: nat, pc: Pc): nat {
    3 * Rank(sh.svc, pc)
    + (if MuEntry(pc) && sh.mu != Some(t) then 1 else 0)
    + (if TmuEntry(pc) && sh.tmu != Some(t) then 1 else 0)
  }

  predicate Starter(pc: Pc) {
    pc.StartEnter? || pc.StartWait?
  }

  ghost function Weights(s: State): nat -> nat {
    t => if t in s.threads then Weight(s.sh, t, s.threads[t]) else 0
  }

  ghost function StopEnters(s: State): nat -> nat {
    t => if t in s.threads && s.threads[t].StopEnter? then 1 else 0
  }

  ghost function StartCalls(s: State): nat -> nat {
    t => if t in s.threads && Starter(s.threads[t]) then 1 else 0
  }

  ghost function QueueLengths(sh: Shared): nat -> nat {
    q => if q in sh.rt.queues then |sh.rt.queues[q]| else 0
  }

  ghost function Stoppers(s: State): nat {
    Total(StopEnters(s), s.sh.rt.nextTid)
  }

  ghost function Starters(s: State): nat {
    Total(StartCalls(s), s.sh.rt.nextTid)
  }

  ghost function Queued(sh: Shared): nat {
    Total(QueueLengths(sh), sh.rt.nextId)
  }

  ghost function Work(s: State): nat {
    Total(Weights(s), s.sh.rt.nextTid) + ITEM * Queued(s.sh)
  }

  // Stops yet to begin count most: each may make waiting Starts wait again. Then Starts, each of which
  // may make a pool of any size. Then steps.
  ghost predicate Less(s': State, s: State) {
    || Stoppers(s') < Stoppers(s)
    || (Stoppers(s') == Stoppers(s)
        && (Starters(s') < Starters(s) || (Starters(s') == Starters(s) && Work(s') < Work(s))))
  }

  // ----- what one step uses up -----

  // Threads spawned have new numbers, and no step makes calls of Start or Stop.
  predicate NewThreads(sh: Shared, e: Effect) {
    sh.rt.nextTid <= e.sh.rt.nextTid && forall t2 :: t2 in e.spawned ==> sh.rt.nextTid <= t2 < e.sh.rt.nextTid
  }

  predicate NoCalls(pc: Pc, e: Effect) {
    && (e.next.Some? ==> !e.next.value.StopEnter? && (Starter(e.next.value) ==> Starter(pc)))
    && (forall t2 :: t2 in e.spawned ==> !e.spawned[t2].StopEnter? && !Starter(e.spawned[t2]))
  }

  lemma BodyNumbers(sh: Shared, t: nat, pc: Pc)
    ensures NewThreads(sh, Body(sh, t, pc))
  {
  }

  lemma BodyCalls(sh: Shared, t: nat, pc: Pc)
    ensures NoCalls(pc, Body(sh, t, pc))
  {
  }

  predicate Begins(sh: Shared, pc: Pc) {
    pc.StopEnter? || (pc.StartEnter? && sh.svc.stopCh.None?)
  }

  ghost predicate Numbered(s: State) {
    forall t :: t in s.threads ==> t < s.sh.rt.nextTid
  }

  lemma InvNumbered(s: State)
    requires Inv(s)
    ensures Numbered(s)
  {
    forall t | t in s.threads ensures t < s.sh.rt.nextTid {
      assert Local(s.sh, t, s.threads[t]);
    }
  }

  lemma StopCallsFall(s: State, t: nat, e: Effect)
    requires Numbered(s) && t in s.threads && NewThreads(s.sh, e) && NoCalls(s.threads[t], e)
    ensures Stoppers(Commit(s.threads, t, e)) <= Stoppers(s) - (if s.threads[t].StopEnter? then 1 else 0)
  {
    var s', n := Commit(s.threads, t, e), s.sh.rt.nextTid;
    TotalTail(StopEnters(s'), n, s'.sh.rt.nextTid);
    TotalShift(StopEnters(s'), StopEnters(s), n, t, if s.threads[t].StopEnter? then 1 else 0);
  }

  lemma StartCallsFall(s: State, t: nat, e: Effect, k: nat)
    requires Numbered(s) && t in s.threads && NewThreads(s.sh, e) && NoCalls(s.threads[t], e)
    requires k == 0 || (k == 1 && Starter(s.threads[t]) && (e.next.Some? ==> !Starter(e.next.value)))
    ensures Starters(Commit(s.threads, t, e)) <= Starters(s) - k
  {
    var s', n := Commit(s.threads, t, e), s.sh.rt.nextTid;
    TotalTail(StartCalls(s'), n, s'.sh.rt.nextTid);
    TotalShift(StartCalls(s'), StartCalls(s), n, t, k);
  }

  // A step makes no other thread's way longer.
  lemma OthersWeight(sh: Shared, t: nat, pc: Pc, t2: nat, pc2: Pc)
    requires Local(sh, t, pc) && SharedGuard(sh, t, pc) && !Begins(sh, pc) && Local(sh, t2, pc2) && t != t2
    ensures Weight(Body(sh, t, pc).sh, t2, pc2) <= Weight(sh, t2, pc2)
  {
    BodyLocks(sh, t, pc);
    BodyStopDone(sh, t, pc);
    RankFalls(sh.svc, Body(sh, t, pc).sh.svc, pc2);
  }

  lemma BodyStopDone(sh: Shared, t: nat, pc: Pc)
    requires !Begins(sh, pc)
    ensures var svc := Body(sh, t, pc).sh.svc; svc.stopDone == sh.svc.stopDone || svc.stopDone == None
  {
  }

  lemma RankFalls(svc: SchedulerLifecycle.Service, svc': SchedulerLifecycle.Service, pc: Pc)
    requires svc'.stopDone == svc.stopDone || svc'.stopDone == None
    ensures Rank(svc', pc) <= Rank(svc, pc)
  {
  }

  // ----- the thread's own way -----

  predicate Spawns(pc: Pc) {
    pc.Charge? && pc.stage == Spawn
  }

  // What the step leaves of the thread: its own rest, and the threads and queued tasks it made.
  function Rest(sh: Shared, t: nat, e: Effect): nat {
    if e.next.Some? then Weight(e.sh, t, e.next.value) else 0
  }

  predicate Nearer(sh: Shared, pc: Pc, e: Effect) {
    && e.spawned == map[] && 0 < Rank(sh.svc, pc)
    && (e.next.Some? ==> Rank(e.sh.svc, e.next.value) < Rank(sh.svc, pc))
  }

  lemma NearerFalls(sh: Shared, t: nat, pc: Pc, e: Effect)
    requires Nearer(sh, pc, e)
    ensures Rest(sh, t, e) < Weight(sh, t, pc)
  {
  }

  lemma ChargeNearer(sh: Shared, stage: Stage, run: nat, done: nat, c: Option<nat>)
    requires stage != Spawn
    ensures Nearer(sh, Charge(stage, run, done, c), ChargeStep(sh, stage, run, done, c))
  {
  }

  lemma PlainNearer(sh: Shared, t: nat, pc: Pc)
    requires Local(sh, t, pc) && !Begins(sh, pc) && !pc.EnqSend? && !Starter(pc) && !pc.Charge?
    ensures Nearer(sh, pc, Body(sh, t, pc))
  {
  }

  // A Start waits again only for the stop that is under way now; the one it waited for is over.
  lemma StarterNearer(sh: Shared, t: nat, pc: Pc)
    requires Phases(sh) && SharedGuard(sh, t, pc) && !Begins(sh, pc) && Starter(pc)
    ensures Nearer(sh, pc, Body(sh, t, pc))
  {
  }

  lemma SpawnFalls(sh: Shared, t: nat, pc: Pc)
    requires Spawns(pc)
    ensures var e := Body(sh, t, pc);
            && Rest(sh, t, e) + 10 <= Weight(sh, t, pc)
            && e.spawned == map[sh.rt.nextTid := Charge(Join, pc.run, pc.done, pc.captured)]
            && e.sh.rt.nextTid == sh.rt.nextTid + 1 && Weight(e.sh, sh.rt.nextTid, e.spawned[sh.rt.nextTid]) == 9
  {
  }

  // ----- the work of all threads together -----

  ghost predicate OthersNoFurther(s: State, t: nat, sh': Shared) {
    forall t2 :: t2 in s.threads && t2 != t ==> Weight(sh', t2, s.threads[t2]) <= Weight(s.sh, t2, s.threads[t2])
  }

  lemma ThreadsFall(s: State, t: nat, e: Effect, k: int)
    requires Numbered(s) && t in s.threads && e.spawned == map[] && OthersNoFurther(s, t, e.sh)
    requires Rest(s.sh, t, e) + k <= Weight(s.sh, t, s.threads[t])
    ensures Total(Weights(Commit(s.threads, t, e)), s.sh.rt.nextTid) + k <= Total(Weights(s), s.sh.rt.nextTid)
  {
    TotalShift(Weights(Commit(s.threads, t, e)), Weights(s), s.sh.rt.nextTid, t, k);
  }

  lemma SpawnThreadsFall(s: State, t: nat, e: Effect, pc: Pc)
    requires Numbered(s) && t in s.threads && OthersNoFurther(s, t, e.sh)
    requires Rest(s.sh, t, e) + 10 <= Weight(s.sh, t, s.threads[t])
    requires e.spawned == map[s.sh.rt.nextTid := pc] && e.sh.rt.nextTid == s.sh.rt.nextTid + 1
    requires Weight(e.sh, s.sh.rt.nextTid, pc) == 9
    ensures Total(Weights(Commit(s.threads, t, e)), s.sh.rt.nextTid + 1) < Total(Weights(s), s.sh.rt.nextTid)
  {
    var w', n := Weights(Commit(s.threads, t, e)), s.sh.rt.nextTid;
    TotalShift(w', Weights(s), n, t, 10);
    assert w'(n) == 9;
  }

  lemma BodyQueues(sh: Shared, t: nat, pc: Pc)
    requires !Begins(sh, pc) && !pc.EnqSend?
    ensures Body(sh, t, pc).sh.rt.queues == sh.rt.queues && sh.rt.nextId <= Body(sh, t, pc).sh.rt.nextId
    ensures !Spawns(pc) ==> Body(sh, t, pc).sh.rt.nextTid == sh.rt.nextTid
  {
  }

  lemma QueuedSame(sh: Shared, sh': Shared)
    requires Ids(sh) && sh'.rt.queues == sh.rt.queues && sh.rt.nextId <= sh'.rt.nextId
    ensures Queued(sh') == Queued(sh)
  {
    TotalTail(QueueLengths(sh'), sh.rt.nextId, sh'.rt.nextId);
    TotalSame(QueueLengths(sh'), QueueLengths(sh), sh.rt.nextId);
    TotalSame(QueueLengths(sh), QueueLengths(sh'), sh.rt.nextId);
  }

  // One queue got k tasks shorter, or longer where k is negative.
  lemma QueuedShift(sh: Shared, sh': Shared, q: nat, tasks: seq<SchedulerLifecycle.Queued>, k: int)
    requires Ids(sh) && q in sh.rt.queues && sh'.rt == sh.rt.(queues := sh.rt.queues[q := tasks])
    requires |tasks| + k <= |sh.rt.queues[q]|
    ensures Queued(sh') + k <= Queued(sh)
  {
    TotalShift(QueueLengths(sh'), QueueLengths(sh), sh.rt.nextId, q, k);
  }

  lemma OthersKeep(s: State, t: nat)
    requires Inv(s) && t in s.threads && SharedGuard(s.sh, t, s.threads[t]) && !Begins(s.sh, s.threads[t])
    ensures OthersNoFurther(s, t, Body(s.sh, t, s.threads[t]).sh)
  {
    assert Local(s.sh, t, s.threads[t]);
    forall t2 | t2 in s.threads && t2 != t
      ensures Weight(Body(s.sh, t, s.threads[t]).sh, t2, s.threads[t2]) <= Weight(s.sh, t2, s.threads[t2])
    {
      assert Local(s.sh, t2, s.threads[t2]);
      OthersWeight(s.sh, t, s.threads[t], t2, s.threads[t2]);
    }
  }

  lemma PlainWork(s: State, t: nat, e: Effect)
    requires Inv(s) && t in s.threads && OthersNoFurther(s, t, e.sh) && Nearer(s.sh, s.threads[t], e)
    requires e.sh.rt.queues == s.sh.rt.queues && s.sh.rt.nextId <= e.sh.rt.nextId && e.sh.rt.nextTid == s.sh.rt.nextTid
    ensures Work(Commit(s.threads, t, e)) < Work(s)
  {
    InvNumbered(s);
    NearerFalls(s.sh, t, s.threads[t], e);
    ThreadsFall(s, t, e, 1);
    QueuedSame(s.sh, e.sh);
  }

  lemma SpawnWork(s: State, t: nat, e: Effect, pc: Pc)
    requires Inv(s) && t in s.threads && OthersNoFurther(s, t, e.sh)
    requires Rest(s.sh, t, e) + 10 <= Weight(s.sh, t, s.threads[t])
    requires e.spawned == map[s.sh.rt.nextTid := pc] && e.sh.rt.nextTid == s.sh.rt.nextTid + 1
    requires Weight(e.sh, s.sh.rt.nextTid, pc) == 9
    requires e.sh.rt.queues == s.sh.rt.queues && s.sh.rt.nextId <= e.sh.rt.nextId
    ensures Work(Commit(s.threads, t, e)) < Work(s)
  {
    InvNumbered(s);
    SpawnThreadsFall(s, t, e, pc);
    QueuedSame(s.sh, e.sh);
  }

  // A step by which one queue gets k tasks shorter.
  lemma QueueWork(s: State, t: nat, e: Effect, q: nat, tasks: seq<SchedulerLifecycle.Queued>, k: int)
    requires Inv(s) && t in s.threads && e.spawned == map[] && OthersNoFurther(s, t, e.sh)
    requires q in s.sh.rt.queues && e.sh.rt == s.sh.rt.(queues := s.sh.rt.queues[q := tasks])
    requires |tasks| + k <= |s.sh.rt.queues[q]|
    requires Rest(s.sh, t, e) < Weight(s.sh, t, s.threads[t]) + ITEM * k
    ensures Work(Commit(s.threads, t, e)) < Work(s)
  {
    InvNumbered(s);
    ThreadsFall(s, t, e, 1 - ITEM * k);
    QueuedShift(s.sh, e.sh, q, tasks, k);
  }

  lemma SendWork(s: State, t: nat, task: nat, from: Option<nat>, q: nat)
    requires Inv(s) && t in s.threads && s.threads[t] == EnqSend(task, from, q)
    requires OthersNoFurther(s, t, SendStep(s.sh, task, q).sh)
    ensures Work(Commit(s.threads, t, SendStep(s.sh, task, q))) < Work(s)
  {
    var e := SendStep(s.sh, task, q);
    if e == Ends(s.sh) {
      PlainWork(s, t, e);
    } else {
      QueueWork(s, t, e, q, s.sh.rt.queues[q] + [SchedulerLifecycle.Queued.Queued(task, q)], -1);
    }
  }

  lemma DoWork(s: State, t: nat)
    requires Inv(s) && t in s.threads && SharedGuard(s.sh, t, s.threads[t]) && !Begins(s.sh, s.threads[t])
    ensures Work(Commit(s.threads, t, Body(s.sh, t, s.threads[t]))) < Work(s)
  {
    var pc := s.threads[t];
    OthersKeep(s, t);
    assert Local(s.sh, t, pc);
    if Spawns(pc) {
      SpawnFalls(s.sh, t, pc);
      BodyQueues(s.sh, t, pc);
      SpawnWork(s, t, Body(s.sh, t, pc), Charge(Join, pc.run, pc.done, pc.captured));
    } else if pc.EnqSend? {
      SendWork(s, t, pc.task, pc.from, pc.into);
    } else {
      BodyQueues(s.sh, t, pc);
      if Starter(pc) {
        StarterNearer(s.sh, t, pc);
      } else if pc.Charge? {
        ChargeNearer(s.sh, pc.stage, pc.run, pc.done, pc.captured);
      } else {
        PlainNearer(s.sh, t, pc);
      }
      PlainWork(s, t, Body(s.sh, t, pc));
    }
  }

  lemma TakeRest(sh: Shared, t: nat, run: nat)
    requires CanTake(sh, run)
    ensures Rest(sh, t, TakeBody(sh, run)) <= 13
  {
  }

  lemma TakeWork(s: State, t: nat, run: nat)
    requires Inv(s) && t in s.threads && s.threads[t] == WorkerSelect(run) && CanTake(s.sh, run)
    ensures Work(Commit(s.threads, t, TakeBody(s.sh, run))) < Work(s)
  {
    var e := TakeBody(s.sh, run);
    TakeRest(s.sh, t, run);
    QueueWork(s, t, e, run, s.sh.rt.queues[run][1..], 1);
  }

  function Locked(sh: Shared, t: nat, lock: Lock): Shared {
    if lock == Mu then sh.(mu := Some(t)) else sh.(tmu := Some(t))
  }

  // Taking a lock is one step less to go for its owner, and none for the others.
  lemma LockedWeight(sh: Shared, t: nat, lock: Lock, t2: nat, pc2: Pc)
    requires if lock == Mu then sh.mu == None else sh.tmu == None
    requires t2 == t ==> if lock == Mu then MuEntry(pc2) else TmuEntry(pc2)
    ensures Weight(Locked(sh, t, lock), t2, pc2) + (if t2 == t then 1 else 0) <= Weight(sh, t2, pc2)
  {
  }

  lemma AcquireWork(s: State, t: nat, lock: Lock)
    requires Inv(s) && Enabled(s, Acquire(t, lock))
    ensures Work(Step(s, Acquire(t, lock))) < Work(s)
  {
    var s', n := Step(s, Acquire(t, lock)), s.sh.rt.nextTid;
    InvNumbered(s);
    forall t2 | t2 in s.threads
      ensures Weight(s'.sh, t2, s.threads[t2]) + (if t2 == t then 1 else 0) <= Weight(s.sh, t2, s.threads[t2])
    {
      LockedWeight(s.sh, t, lock, t2, s.threads[t2]);
    }
    TotalShift(Weights(s'), Weights(s), n, t, 1);
    QueuedSame(s.sh, s'.sh);
  }

  lemma SameCalls(s: State, s': State)
    requires s'.threads == s.threads && s'.sh.rt.nextTid == s.sh.rt.nextTid
    ensures Stoppers(s') <= Stoppers(s) && Starters(s') <= Starters(s)
  {
    TotalSame(StopEnters(s'), StopEnters(s), s.sh.rt.nextTid);
    TotalSame(StartCalls(s'), StartCalls(s), s.sh.rt.nextTid);
  }

  lemma UsesUp(s: State, t: nat, e: Effect)
    requires Numbered(s) && t in s.threads && NewThreads(s.sh, e) && NoCalls(s.threads[t], e)
    requires || s.threads[t].StopEnter?
             || (s.threads[t].StartEnter? && (e.next.Some? ==> !Starter(e.next.value)))
             || Work(Commit(s.threads, t, e)) < Work(s)
    ensures Less(Commit(s.threads, t, e), s)
  {
    StopCallsFall(s, t, e);
    StartCallsFall(s, t, e, 0);
    if s.threads[t].StartEnter? && (e.next.Some? ==> !Starter(e.next.value)) {
      StartCallsFall(s, t, e, 1);
    }
  }

  lemma DoUsesUp(s: State, t: nat)
    requires Inv(s) && t in s.threads && SharedGuard(s.sh, t, s.threads[t])
    ensures Less(Commit(s.threads, t, Body(s.sh, t, s.threads[t])), s)
  {
    InvNumbered(s);
    BodyNumbers(s.sh, t, s.threads[t]);
    BodyCalls(s.sh, t, s.threads[t]);
    if !Begins(s.sh, s.threads[t]) {
      DoWork(s, t);
    }
    UsesUp(s, t, Body(s.sh, t, s.threads[t]));
  }

  lemma TakeUsesUp(s: State, t: nat, run: nat)
    requires Inv(s) && t in s.threads && s.threads[t] == WorkerSelect(run) && CanTake(s.sh, run)
    ensures Less(Commit(s.threads, t, TakeBody(s.sh, run)), s)
  {
    InvNumbered(s);
    TakeWork(s, t, run);
    UsesUp(s, t, TakeBody(s.sh, run));
  }

  lemma SkipUsesUp(s: State, t: nat)
    requires Inv(s) && Enabled(s, Skip(t))
    ensures Less(Step(s, Skip(t)), s)
  {
    InvNumbered(s);
    PlainWork(s, t, Ends(s.sh));
    UsesUp(s, t, Ends(s.sh));
  }

  // Everything the service does by itself uses something up.
  lemma StepUsesUp(s: State, a: Action)
    requires Inv(s) && Internal(a) && Enabled(s, a)
    ensures Less(Step(s, a), s)
  {
    match a
    case Acquire(t, lock) =>
      AcquireWork(s, t, lock);
      SameCalls(s, Step(s, a));
    case Do(t) => DoUsesUp(s, t);
    case Take(t) => TakeUsesUp(s, t, s.threads[t].run);
    case Skip(t) => SkipUsesUp(s, t);
  }

  // ----- left alone -----

  ghost predicate InternalStep(s: State, a: Action, s': State) {
    Internal(a) && Enabled(s, a) && s' == Step(s, a)
  }

  lemma OneDown(s: State, a: Action, s': State)
    requires Inv(s) && InternalStep(s, a, s')
    ensures Inv(s') && Less(s', s)
  {
    StepUsesUp(s, a);
    StepInv(s, a);
  }

  ghost predicate Advances(states: nat -> State, acts: nat -> Action, j: nat) {
    InternalStep(states(j), acts(j), states(j + 1))
  }

  lemma {:induction false} Descends(states: nat -> State, acts: nat -> Action, i: nat, s: State)
    requires s == states(i) && Inv(s) && forall j: nat :: Advances(states, acts, j)
    ensures false
    decreases Stoppers(s), Starters(s), Work(s)
  {
    assert Advances(states, acts, i);
    OneDown(s, acts(i), states(i + 1));
    Descends(states, acts, i + 1, states(i + 1));
  }

  // Left alone, the service cannot go on for ever: no endless sequence of states from one that satisfies
  // the invariant consists of the service's own steps, whichever threads get their turns.
  lemma NoEndlessRun(states: nat -> State, acts: nat -> Action)
    requires Inv(states(0))
    ensures exists j: nat :: !InternalStep(states(j), acts(j), states(j + 1))
  {
    if forall j: nat :: InternalStep(states(j), acts(j), states(j + 1)) {
      assert forall j: nat :: Advances(states, acts, j);
      Descends(states, acts, 0, states(0));
    }
  }

  // A run of the service left alone.
  ghost predicate OwnRun(s: State, acts: seq<Action>) {
    Possible(s, acts) && forall i :: 0 <= i < |acts| ==> Internal(acts[i])
  }

  // A run that goes on, with nothing in its queue.
  predicate Idles(sh: Shared, run: nat) {
    && sh.rt.closed[run] == 0 && run !in sh.rt.cancelled
    && (run in sh.rt.queues ==> sh.rt.queues[run] == [])
  }

  // Nothing is left but idle workers: no stop is under way, every stop has closed its done channel, and
  // no call of Start, Stop or Apply, no firing and no callback is still waiting.
  ghost predicate AllDone(s: State) {
    && (forall t :: t in s.threads ==> s.threads[t].WorkerSelect? && Idles(s.sh, s.threads[t].run))
    && !Stopping(s.sh)
    && (forall d :: d in s.sh.aux.stops ==> s.sh.rt.doneClosed[d] == 1)
  }

  lemma RestIsDone(s: State)
    requires Inv(s) && !CanMove(s) && !Doomed(s)
    ensures AllDone(s)
  {
    forall t | t in s.threads ensures s.threads[t].WorkerSelect? && Idles(s.sh, s.threads[t].run) {
      if Unfinished(s.sh, s.threads[t]) {
        UnfinishedMeansProgress(s, t);
      }
    }
    forall d | d in s.sh.aux.stops ensures s.sh.rt.doneClosed[d] == 1 {
      assert s.sh.rt.doneClosed[d] == 0 ==> CloserOf(s.threads, s.sh.aux.stops[d].closer, d);
    }
  }

  // No Apply on its way has another timezone.
  ghost predicate SameTz(s: State) {
    forall t :: t in s.threads ==> !s.threads[t].ApplyWait? && (s.threads[t].ApplyEnter? ==>
        s.threads[t].tz == s.sh.svc.tz)
  }

  lemma BodySameTz(sh: Shared, t: nat, pc: Pc)
    requires !pc.ApplyWait? && (pc.ApplyEnter? ==> pc.tz == sh.svc.tz)
    ensures var e := Body(sh, t, pc);
            && e.sh.svc.tz == sh.svc.tz
            && (e.next.Some? ==> !e.next.value.ApplyWait? && !e.next.value.ApplyEnter?)
            && (forall t2 :: t2 in e.spawned ==> !e.spawned[t2].ApplyWait? && !e.spawned[t2].ApplyEnter?)
  {
  }

  lemma StepSameTz(s: State, a: Action)
    requires SameTz(s) && Internal(a) && Enabled(s, a)
    ensures SameTz(Step(s, a))
  {
    if a.Do? {
      BodySameTz(s.sh, a.t, s.threads[a.t]);
      CommitSameTz(s, a.t, Body(s.sh, a.t, s.threads[a.t]));
    }
  }

  lemma CommitSameTz(s: State, t: nat, e: Effect)
    requires SameTz(s) && e.sh.svc.tz == s.sh.svc.tz
    requires e.next.Some? ==> !e.next.value.ApplyWait? && !e.next.value.ApplyEnter?
    requires forall t2 :: t2 in e.spawned ==> !e.spawned[t2].ApplyWait? && !e.spawned[t2].ApplyEnter?
    ensures SameTz(Commit(s.threads, t, e))
  {
  }

  lemma {:induction false} OwnRunKeeps(s: State, acts: seq<Action>)
    requires Inv(s) && OwnRun(s, acts)
    ensures Inv(After(s, acts)) && (SameTz(s) ==> SameTz(After(s, acts)))
    decreases |acts|
  {
    if acts != [] {
      var rest := acts[1..];
      assert forall i :: 0 <= i < |rest| ==> rest[i] == acts[i + 1];
      StepInv(s, acts[0]);
      if SameTz(s) {
        StepSameTz(s, acts[0]);
      }
      OwnRunKeeps(Step(s, acts[0]), rest);
    }
  }

  // A run of the service left alone, up to where nothing moves any more.
  ghost predicate RunToRest(s: State, acts: seq<Action>) {
    OwnRun(s, acts) && !CanMove(After(s, acts))
  }

  lemma OneMore(s: State, a: Action, rest: seq<Action>)
    requires Internal(a) && Enabled(s, a) && RunToRest(Step(s, a), rest)
    ensures RunToRest(s, [a] + rest)
  {
    assert ([a] + rest)[1..] == rest;
  }

  lemma NextStep(s: State) returns (a: Action)
    requires Inv(s) && CanMove(s)
    ensures Internal(a) && Enabled(s, a) && Inv(Step(s, a)) && Less(Step(s, a), s)
  {
    a :| Internal(a) && Enabled(s, a);
    StepUsesUp(s, a);
    StepInv(s, a);
  }

  lemma {:induction false} ComesToRest(s: State)
    requires Inv(s)
    ensures exists acts :: RunToRest(s, acts)
    decreases Stoppers(s), Starters(s), Work(s)
  {
    if CanMove(s) {
      var a := NextStep(s);
      ComesToRest(Step(s, a));
      var rest :| RunToRest(Step(s, a), rest);
      OneMore(s, a, rest);
    } else {
      assert RunToRest(s, []);
    }
  }

  lemma AtRest(s: State, acts: seq<Action>)
    requires Inv(s) && RunToRest(s, acts)
    ensures AllDone(After(s, acts)) || (Doomed(After(s, acts)) && !SameTz(s))
  {
    OwnRunKeeps(s, acts);
    if !Doomed(After(s, acts)) {
      RestIsDone(After(s, acts));
    } else {
      NotDoomed(After(s, acts));
    }
  }

  lemma NotDoomed(s: State)
    requires Doomed(s)
    ensures !SameTz(s)
  {
  }

  // From every reachable state: the service left alone comes to rest, and wherever it does, in whatever
  // order its threads moved, everything begun has been completed or it is stuck in restartLocked; the
  // latter cannot be if no Apply with another timezone is on its way.
  lemma LeftAlone(size: int, tz: nat, before: seq<Action>)
    requires Possible(Init(size, tz), before)
    ensures exists acts :: RunToRest(After(Init(size, tz), before), acts)
    ensures var s := After(Init(size, tz), before);
            forall acts :: RunToRest(s, acts) ==>
              AllDone(After(s, acts)) || (Doomed(After(s, acts)) && !SameTz(s))
  {
    var s := After(Init(size, tz), before);
    InitInv(size, tz);
    RunInv(Init(size, tz), before);
    ComesToRest(s);
    forall acts | RunToRest(s, acts) ensures AllDone(After(s, acts)) || (Doomed(After(s, acts)) && !SameTz(s)) {
      AtRest(s, acts);
    }
  }

  // ----- the way into the deadlock -----

  // An Apply gets its turn with another timezone while a function of the service's cron is on its way to
  // the lock of enqueue.
  ghost predicate ApplyDooms(s: State, a: Action) {
    && ChangesTz(s, a) && s.sh.svc.stopCh.Some? && s.sh.svc.cron.Some?
    && exists fn :: fn in s.threads && s.threads[fn].EnqEnter? && s.threads[fn].from == s.sh.svc.cron
  }

  ghost predicate WaitsFor(s: State, holder: nat, cron: nat) {
    holder in s.threads && s.threads[holder] == ApplyWait(cron) && s.sh.mu == Some(holder)
  }

  // While an Apply already waits for its cron, a function of that cron passes the test of its running flag
  // instead of ending there.
  ghost predicate FunctionDooms(s: State, a: Action) {
    a.Do? && a.t in s.threads && s.threads[a.t].FnStart? && exists holder :: WaitsFor(s, holder, s.threads[a.t].cron)
  }

  ghost predicate Dooms(s: State, a: Action) {
    ApplyDooms(s, a) || FunctionDooms(s, a)
  }

  lemma DoomedBefore(s: State, a: Action, holder: nat, fn: nat)
    requires Inv(s) && Enabled(s, a) && !a.Do? && DoomedBy(Step(s, a), holder, fn)
    ensures DoomedBy(s, holder, fn)
  {
    if holder in s.threads {
      assert Local(s.sh, holder, s.threads[holder]);
    }
  }

  lemma BodyNoFunctions(sh: Shared, t: nat, pc: Pc)
    ensures var e := Body(sh, t, pc);
            && (e.next.Some? && e.next.value.EnqEnter? ==>
                pc.FnStart? && e.next.value.from == Some(pc.cron) && e.sh == sh)
            && (e.next.Some? && e.next.value.ApplyWait? ==>
                  pc.ApplyEnter? && pc.tz != sh.svc.tz && sh.svc.stopCh.Some? && sh.svc.cron == Some(e.next.value.prev))
            && (forall t2 :: t2 in e.spawned ==> !e.spawned[t2].EnqEnter? && !e.spawned[t2].ApplyWait?)
  {
  }

  lemma DoomedByDo(s: State, t: nat, holder: nat, fn: nat)
    requires Inv(s) && Enabled(s, Do(t)) && DoomedBy(Step(s, Do(t)), holder, fn)
    ensures DoomedBy(s, holder, fn) || Dooms(s, Do(t))
  {
    BodyNoFunctions(s.sh, t, s.threads[t]);
    assert fn in s.threads && holder in s.threads;
    assert Local(s.sh, holder, s.threads[holder]);
    if fn == t {
      assert WaitsFor(s, holder, s.threads[t].cron);
    }
  }

  lemma DoomsIndeed(s: State, a: Action)
    requires Inv(s) && Enabled(s, a) && Dooms(s, a)
    ensures Doomed(Step(s, a))
  {
    if ApplyDooms(s, a) {
      var fn :| fn in s.threads && s.threads[fn].EnqEnter? && s.threads[fn].from == s.sh.svc.cron;
      assert DoomedBy(Step(s, a), a.t, fn);
    } else {
      var holder :| WaitsFor(s, holder, s.threads[a.t].cron);
      assert DoomedBy(Step(s, a), holder, a.t);
    }
  }

  lemma DoomsOnly(s: State, a: Action)
    requires Inv(s) && Enabled(s, a) && !Doomed(s) && Doomed(Step(s, a))
    ensures Dooms(s, a)
  {
    var holder, fn :| DoomedBy(Step(s, a), holder, fn);
    if a.Do? {
      DoomedByDo(s, a.t, holder, fn);
    } else {
      DoomedBefore(s, a, holder, fn);
    }
  }

  // In every reachable state that is not stuck already, exactly these two kinds of action make it so.
  lemma DoomExactly(size: int, tz: nat, before: seq<Action>, a: Action)
    requires Possible(Init(size, tz), before)
    requires var s := After(Init(size, tz), before); Enabled(s, a) && !Doomed(s)
    ensures var s := After(Init(size, tz), before); Doomed(Step(s, a)) <==> Dooms(s, a)
  {
    var s := After(Init(size, tz), before);
    InitInv(size, tz);
    RunInv(Init(size, tz), before);
    if Dooms(s, a) {
      DoomsIndeed(s, a);
    } else if Doomed(Step(s, a)) {
      DoomsOnly(s, a);
    }
  }
}
