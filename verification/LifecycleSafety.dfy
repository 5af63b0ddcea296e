/**
What every action of the start/stop protocol keeps, and the safety of whole runs.

The invariant has three parts: Global speaks of the shared memory alone, Local of one thread and the
shared memory, Owners of the threads the shared memory points at. A step of one thread keeps every
other thread's Local (Undisturbed), so the proof never reasons about two threads' steps at once.
*/
module LifecycleSafety {
  import opened Wrappers
  import opened SchedulerLifecycle

  predicate Live(sh: Shared, c: nat) {
    c in sh.rt.crons && sh.rt.crons[c]
  }

  ghost predicate Ids(sh: Shared) {
    && (sh.mu.Some? ==> sh.mu.value < sh.rt.nextTid)
    && (sh.tmu.Some? ==> sh.tmu.value < sh.rt.nextTid)
    && (sh.svc.stopCh.Some? ==> sh.svc.stopCh.value < sh.rt.nextId)
    && (sh.svc.cron.Some? ==> sh.svc.cron.value in sh.rt.crons)
    && (forall c :: c in sh.rt.crons ==> c < sh.rt.nextId)
    && (forall q :: q in sh.rt.queues ==> q < sh.rt.nextId)
    && (forall d :: d in sh.aux.stops ==> d < sh.rt.nextId && sh.aux.stops[d].run < sh.rt.nextId)
    && (forall x :: x in sh.rt.closed ==> x < sh.rt.nextId)
    && (forall d :: d in sh.rt.doneClosed ==> d in sh.aux.stops)
  }

  // Stopped, running or stopping. Stop channels and done channels are closed at most once, and a
  // run that is no longer current will not become current again.
  ghost predicate Phases(sh: Shared) {
    && (sh.svc.stopDone.Some? ==> sh.svc.stopCh.Some?)
    && (sh.svc.stopDone.Some? ==> sh.svc.stopDone.value in sh.aux.stops && sh.rt.doneClosed[sh.svc.stopDone.value] == 0)
    && sh.svc.queue == sh.svc.stopCh
    && (sh.svc.stopCh.Some? ==> sh.svc.stopCh.value in sh.rt.queues)
    && (Stopped(sh) ==> sh.wg == 0)
    && (forall x :: sh.rt.closed[x] <= 1)
    && (forall d :: sh.rt.doneClosed[d] <= 1)
    && (Running(sh) ==> sh.rt.closed[sh.svc.stopCh.value] == 0)
    && (forall d :: d in sh.aux.stops ==>
          if sh.svc.stopDone == Some(d) then sh.svc.stopCh == Some(sh.aux.stops[d].run)
          else sh.svc.stopCh != Some(sh.aux.stops[d].run))
  }

  // A live cron is the service's own, is about to be stopped, or was started by an Apply that found
  // the service stopping.
  ghost predicate Crons(sh: Shared) {
    && (forall c :: c in sh.rt.crons && sh.rt.crons[c] ==>
          (Running(sh) && sh.svc.cron == Some(c)) || sh.aux.retiring == Some(c) || c in sh.aux.orphans)
    && (forall c :: c in sh.aux.orphans ==> Live(sh, c))
    && (sh.aux.orphans != {} ==> sh.aux.tzWhileStopping)
    && (sh.aux.tzWhileStopping && sh.aux.orphans == {} ==> sh.aux.restarting && Stopping(sh))
    && (sh.aux.restarting ==> sh.svc.stopCh.Some? && sh.mu.Some?)
    && (Running(sh) && !sh.aux.restarting ==> sh.svc.cron.Some? && Live(sh, sh.svc.cron.value))
    && (Running(sh) ==> sh.svc.cron.Some? && sh.svc.cron.value !in sh.aux.orphans)
    && (!Running(sh) && !sh.aux.restarting && sh.svc.cron.Some? ==> sh.svc.cron.value in sh.aux.orphans)
    && (sh.aux.retiring.Some? ==> Stopping(sh) && sh.aux.retiring.value in sh.rt.crons)
    && (sh.aux.retiring.Some? ==> sh.aux.retiring.value !in sh.aux.orphans && sh.svc.cron != sh.aux.retiring)
  }

  // Every task a worker took had been put in the queue of the run that was current at that moment.
  ghost predicate Log(sh: Shared) {
    && (forall q, i :: q in sh.rt.queues && 0 <= i < |sh.rt.queues[q]| ==> sh.rt.queues[q][i].put == q)
    && (forall i :: 0 <= i < |sh.aux.ran| ==>
          sh.aux.ran[i].put == sh.aux.ran[i].worker && sh.aux.ran[i].current == Some(sh.aux.ran[i].worker))
    && (forall q :: q in sh.rt.queues ==> |sh.rt.queues[q]| <= 256)
  }

  ghost predicate Global(sh: Shared) {
    Ids(sh) && Phases(sh) && Crons(sh) && Log(sh)
  }

  predicate Local(sh: Shared, t: nat, pc: Pc) {
    && t < sh.rt.nextTid
    && (MuInside(pc) ==> sh.mu == Some(t))
    && (sh.mu == Some(t) ==> (MuEntry(pc) || MuInside(pc)) && (sh.aux.restarting ==> pc.ApplyWait?))
    && (sh.tmu == Some(t) ==> TmuEntry(pc))
    && (IsWorker(pc) ==> sh.svc.stopCh == Some(pc.run))
    && (pc.Charge? ==> ChargeOk(sh, t, pc))
    && (pc.FinClose? ==>
          && pc.done in sh.aux.stops && sh.aux.stops[pc.done].closer == t
          && sh.rt.doneClosed[pc.done] == 0 && sh.svc.stopDone != Some(pc.done))
    && (pc.StopWait? || pc.StartWait? ==> pc.done in sh.aux.stops)
    && (pc.ApplyWait? ==>
          sh.aux.restarting && sh.svc.cron == Some(pc.prev) && pc.prev in sh.rt.crons && !sh.rt.crons[pc.prev])
    && (pc.Section? ==> |pc.locks| > 0)
  }

  // Stages up to and including the one that stops the captured cron.
  predicate Early(stage: Stage) {
    stage.Close? || stage.Cancel? || stage.CronStop?
  }

  predicate ChargeOk(sh: Shared, t: nat, pc: Pc)
    requires pc.Charge?
  {
    && sh.svc.stopCh == Some(pc.run) && sh.svc.stopDone == Some(pc.done)
    && pc.done in sh.aux.stops && sh.aux.stops[pc.done] == StopInfo(pc.run, t)
    && sh.rt.doneClosed[pc.done] == 0
    && sh.rt.closed[pc.run] == (if pc.stage == Close then 0 else 1)
    && (pc.stage == Finalize ==> sh.wg == 0)
    && sh.aux.retiring == (if Early(pc.stage) then pc.captured else None)
    && (!Early(pc.stage) && pc.captured.Some? ==>
          pc.captured.value in sh.rt.crons && !sh.rt.crons[pc.captured.value])
    && (pc.captured.Some? ==> pc.captured.value !in sh.aux.orphans)
  }

  ghost predicate Locals(s: State) {
    forall t :: t in s.threads ==> Local(s.sh, t, s.threads[t])
  }

  ghost function Workers(threads: map<nat, Pc>): set<nat> {
    set t | t in threads && IsWorker(threads[t])
  }

  // Which thread will close a done channel that is still open.
  ghost predicate CloserOf(threads: map<nat, Pc>, t: nat, d: nat) {
    t in threads && (threads[t].Charge? || threads[t].FinClose?) && threads[t].done == d
  }

  // The threads the shared memory refers to exist.
  ghost predicate Owners(s: State) {
    && (s.sh.mu.Some? ==> s.sh.mu.value in s.threads)
    && (s.sh.tmu.Some? ==> s.sh.tmu.value in s.threads)
    && s.sh.wg == |Workers(s.threads)|
    && (forall d :: d in s.sh.aux.stops && s.sh.rt.doneClosed[d] == 0 ==>
          CloserOf(s.threads, s.sh.aux.stops[d].closer, d))
  }

  ghost predicate Inv(s: State) {
    Global(s.sh) && Locals(s) && Owners(s)
  }

  // ----- one step of one thread: Global -----

  lemma NewCronCrons(sh: Shared)
    requires Ids(sh) && Crons(sh) && sh.svc.stopCh.Some?
    requires sh.svc.cron.None? || (sh.aux.restarting && !Live(sh, sh.svc.cron.value))
    ensures Crons(NewCron(sh))
  {
    if sh.svc.stopDone.Some? {
      assert sh.rt.nextId in NewCron(sh).aux.orphans;
    }
  }

  lemma StartIds(sh: Shared, t: nat)
    requires Global(sh) && Local(sh, t, StartEnter) && sh.mu == Some(t)
    ensures Ids(StartSection(sh).sh)
  {
  }

  lemma StartPhases(sh: Shared, t: nat)
    requires Global(sh) && Local(sh, t, StartEnter) && sh.mu == Some(t)
    ensures Phases(StartSection(sh).sh)
  {
  }

  lemma StartCrons(sh: Shared, t: nat)
    requires Global(sh) && Local(sh, t, StartEnter) && sh.mu == Some(t)
    ensures Crons(StartSection(sh).sh)
  {
  }

  lemma StartLog(sh: Shared, t: nat)
    requires Global(sh) && Local(sh, t, StartEnter) && sh.mu == Some(t)
    ensures Log(StartSection(sh).sh)
  {
  }

  lemma StopIds(sh: Shared, t: nat)
    requires Global(sh) && Local(sh, t, StopEnter) && sh.mu == Some(t)
    ensures Ids(StopSection(sh, t).sh)
  {
  }

  lemma StopPhases(sh: Shared, t: nat)
    requires Global(sh) && Local(sh, t, StopEnter) && sh.mu == Some(t)
    ensures Phases(StopSection(sh, t).sh)
  {
  }

  lemma StopCrons(sh: Shared, t: nat)
    requires Global(sh) && Local(sh, t, StopEnter) && sh.mu == Some(t)
    ensures Crons(StopSection(sh, t).sh)
  {
  }

  lemma StopLog(sh: Shared, t: nat)
    requires Global(sh) && Local(sh, t, StopEnter) && sh.mu == Some(t)
    ensures Log(StopSection(sh, t).sh)
  {
  }

  lemma ApplyIds(sh: Shared, t: nat, size: int, tz: nat)
    requires Global(sh) && Local(sh, t, ApplyEnter(size, tz)) && sh.mu == Some(t)
    ensures Ids(ApplySection(sh, size, tz).sh)
  {
  }

  lemma ApplyPhases(sh: Shared, t: nat, size: int, tz: nat)
    requires Global(sh) && Local(sh, t, ApplyEnter(size, tz)) && sh.mu == Some(t)
    ensures Phases(ApplySection(sh, size, tz).sh)
  {
  }

  lemma ApplyCrons(sh: Shared, t: nat, size: int, tz: nat)
    requires Global(sh) && Local(sh, t, ApplyEnter(size, tz)) && sh.mu == Some(t)
    ensures Crons(ApplySection(sh, size, tz).sh)
  {
    if sh.svc.stopCh.Some? && sh.svc.tz != tz && sh.svc.cron.None? {
      NewCronCrons(sh.(svc := sh.svc.(size := size, tz := tz)));
    }
  }

  lemma ApplyLog(sh: Shared, t: nat, size: int, tz: nat)
    requires Global(sh) && Local(sh, t, ApplyEnter(size, tz)) && sh.mu == Some(t)
    ensures Log(ApplySection(sh, size, tz).sh)
  {
  }

  lemma RestartGlobal(sh: Shared, t: nat, c: nat)
    requires Global(sh) && Local(sh, t, ApplyWait(c)) && sh.mu == Some(t)
    ensures Global(NewCron(sh))
  {
    NewCronCrons(sh);
  }

  lemma ChargeIds(sh: Shared, t: nat, stage: Stage, run: nat, done: nat, c: Option<nat>)
    requires Global(sh) && Local(sh, t, Charge(stage, run, done, c)) && stage != Finalize
    ensures Ids(ChargeStep(sh, stage, run, done, c).sh)
  {
  }

  lemma ChargePhases(sh: Shared, t: nat, stage: Stage, run: nat, done: nat, c: Option<nat>)
    requires Global(sh) && Local(sh, t, Charge(stage, run, done, c)) && stage != Finalize
    ensures Phases(ChargeStep(sh, stage, run, done, c).sh)
  {
  }

  lemma ChargeCrons(sh: Shared, t: nat, stage: Stage, run: nat, done: nat, c: Option<nat>)
    requires Global(sh) && Local(sh, t, Charge(stage, run, done, c)) && stage != Finalize
    ensures Crons(ChargeStep(sh, stage, run, done, c).sh)
  {
  }

  lemma ChargeLog(sh: Shared, t: nat, stage: Stage, run: nat, done: nat, c: Option<nat>)
    requires Global(sh) && Local(sh, t, Charge(stage, run, done, c)) && stage != Finalize
    ensures Log(ChargeStep(sh, stage, run, done, c).sh)
  {
  }

  lemma FinalGlobal(sh: Shared, t: nat, run: nat, done: nat, c: Option<nat>)
    requires Global(sh) && Local(sh, t, Charge(Finalize, run, done, c)) && sh.mu == Some(t)
    ensures Global(ChargeStep(sh, Finalize, run, done, c).sh)
  {
  }

  // ----- one step of one thread: its own Local, and that of every other thread -----

  lemma StartLocal(sh: Shared, t: nat, pc: Pc)
    requires pc.StartEnter?
    requires Global(sh) && Local(sh, t, pc) && sh.mu == Some(t)
    ensures var e := Body(sh, t, pc); e.next.Some? ==> Local(e.sh, t, e.next.value)
  {
  }

  lemma StartUndisturbed(sh: Shared, t: nat, pc: Pc, t2: nat, pc2: Pc)
    requires pc.StartEnter?
    requires Global(sh) && Local(sh, t, pc) && sh.mu == Some(t)
    requires t != t2 && Local(sh, t2, pc2)
    ensures Local(Body(sh, t, pc).sh, t2, pc2)
  {
  }

  lemma StopLocal(sh: Shared, t: nat, pc: Pc)
    requires pc.StopEnter?
    requires Global(sh) && Local(sh, t, pc) && sh.mu == Some(t)
    ensures var e := Body(sh, t, pc); e.next.Some? ==> Local(e.sh, t, e.next.value)
  {
  }

  lemma StopUndisturbed(sh: Shared, t: nat, pc: Pc, t2: nat, pc2: Pc)
    requires pc.StopEnter?
    requires Global(sh) && Local(sh, t, pc) && sh.mu == Some(t)
    requires t != t2 && Local(sh, t2, pc2)
    ensures Local(Body(sh, t, pc).sh, t2, pc2)
  {
  }

  lemma ApplyLocal(sh: Shared, t: nat, pc: Pc)
    requires pc.ApplyEnter?
    requires Global(sh) && Local(sh, t, pc) && sh.mu == Some(t)
    ensures var e := Body(sh, t, pc); e.next.Some? ==> Local(e.sh, t, e.next.value)
  {
  }

  lemma ApplyUndisturbed(sh: Shared, t: nat, size: int, tz: nat, t2: nat, pc2: Pc)
    requires Global(sh) && Local(sh, t, ApplyEnter(size, tz)) && sh.mu == Some(t)
    requires t != t2 && Local(sh, t2, pc2)
    ensures Local(ApplySection(sh, size, tz).sh, t2, pc2)
  {
  }

  lemma EarlyLocal(sh: Shared, t: nat, stage: Stage, run: nat, done: nat, c: Option<nat>)
    requires Early(stage) && Local(sh, t, Charge(stage, run, done, c))
    requires Global(sh)
    ensures Local(ChargeStep(sh, stage, run, done, c).sh, t, ChargeStep(sh, stage, run, done, c).next.value)
  {
  }

  lemma FinalizeLocal(sh: Shared, t: nat, run: nat, done: nat, c: Option<nat>)
    requires Local(sh, t, Charge(Finalize, run, done, c)) && Ids(sh) && Phases(sh)
    ensures Local(ChargeStep(sh, Finalize, run, done, c).sh, t, FinClose(done))
  {
  }

  lemma SpawnLocal(sh: Shared, t: nat, run: nat, done: nat, c: Option<nat>)
    requires Local(sh, t, Charge(Spawn, run, done, c)) && Ids(sh)
    ensures Local(ChargeStep(sh, Spawn, run, done, c).sh, t, StopWait(done))
  {
  }

  lemma LateLocal(sh: Shared, t: nat, stage: Stage, run: nat, done: nat, c: Option<nat>)
    requires !Early(stage) && stage != Finalize && stage != Spawn && Local(sh, t, Charge(stage, run, done, c))
    requires Ids(sh) && Phases(sh)
    requires stage == Join ==> sh.wg == 0
    ensures Local(ChargeStep(sh, stage, run, done, c).sh, t, ChargeStep(sh, stage, run, done, c).next.value)
  {
  }

  lemma ChargeUndisturbed(sh: Shared, t: nat, stage: Stage, run: nat, done: nat, c: Option<nat>, t2: nat, pc2: Pc)
    requires Global(sh) && Local(sh, t, Charge(stage, run, done, c))
    requires stage == Finalize ==> sh.mu == Some(t)
    requires stage == Timers ==> sh.tmu == Some(t)
    requires t != t2 && Local(sh, t2, pc2) && (IsWorker(pc2) ==> sh.wg > 0)
    ensures Local(ChargeStep(sh, stage, run, done, c).sh, t2, pc2)
  {
  }

  lemma RestartUndisturbed(sh: Shared, t: nat, c: nat, t2: nat, pc2: Pc)
    requires Global(sh) && Local(sh, t, ApplyWait(c)) && sh.mu == Some(t)
    requires t != t2 && Local(sh, t2, pc2)
    ensures Local(NewCron(sh), t2, pc2)
  {
  }

  // Steps that write nothing but the locks their thread owns.
  predicate OnlyReleases(sh: Shared, sh': Shared, t: nat) {
    && sh' == sh.(mu := sh'.mu, tmu := sh'.tmu)
    && (sh'.mu == sh.mu || (sh.mu == Some(t) && sh'.mu == None))
    && (sh'.tmu == sh.tmu || (sh.tmu == Some(t) && sh'.tmu == None))
  }

  predicate Quiet(sh: Shared, pc: Pc) {
    || pc.StartWait? || pc.StartTimers? || pc.StopWait? || pc.FnStart? || pc.EnqEnter? || pc.Section?
    || (pc.WorkerTop? && !Over(sh, pc.run)) || pc.WorkerLock? || pc.WorkerRun?
  }

  lemma QuietReleases(sh: Shared, t: nat, pc: Pc)
    requires Quiet(sh, pc) && Local(sh, t, pc) && SharedGuard(sh, t, pc)
    ensures OnlyReleases(sh, Body(sh, t, pc).sh, t)
  {
  }

  lemma ReleaseGlobal(sh: Shared, sh': Shared, t: nat)
    requires Global(sh) && OnlyReleases(sh, sh', t)
    requires sh'.mu != sh.mu ==> !sh.aux.restarting
    ensures Global(sh')
  {
  }

  lemma ReleaseUndisturbed(sh: Shared, sh': Shared, t: nat, t2: nat, pc2: Pc)
    requires OnlyReleases(sh, sh', t) && t != t2 && Local(sh, t2, pc2)
    ensures Local(sh', t2, pc2)
  {
  }

  lemma QuietLocal(sh: Shared, t: nat, pc: Pc)
    requires Quiet(sh, pc) && Local(sh, t, pc) && SharedGuard(sh, t, pc)
    ensures var e := Body(sh, t, pc); e.next.Some? ==> Local(e.sh, t, e.next.value)
  {
  }

  lemma SendGlobal(sh: Shared, task: nat, q: nat)
    requires Global(sh)
    ensures Global(SendStep(sh, task, q).sh)
  {
  }

  lemma SendUndisturbed(sh: Shared, task: nat, q: nat, t2: nat, pc2: Pc)
    requires Local(sh, t2, pc2)
    ensures Local(SendStep(sh, task, q).sh, t2, pc2)
  {
  }

  lemma FinCloseGlobal(sh: Shared, t: nat, d: nat)
    requires Global(sh) && Local(sh, t, FinClose(d))
    ensures Global(Body(sh, t, FinClose(d)).sh)
  {
  }

  lemma FinCloseUndisturbed(sh: Shared, t: nat, d: nat, t2: nat, pc2: Pc)
    requires Local(sh, t, FinClose(d)) && t != t2 && Local(sh, t2, pc2)
    ensures Local(Body(sh, t, FinClose(d)).sh, t2, pc2)
  {
  }

  lemma ExitGlobal(sh: Shared)
    requires Global(sh) && sh.wg > 0
    ensures Global(WorkerExit(sh).sh)
  {
  }

  lemma ExitUndisturbed(sh: Shared, t2: nat, pc2: Pc)
    requires sh.wg > 0 && Local(sh, t2, pc2)
    ensures Local(WorkerExit(sh).sh, t2, pc2)
  {
  }

  lemma TakeGlobal(sh: Shared, t: nat, run: nat)
    requires Global(sh) && Local(sh, t, WorkerSelect(run)) && CanTake(sh, run)
    ensures Global(TakeBody(sh, run).sh)
  {
  }

  lemma TakeLocal(sh: Shared, t: nat, run: nat)
    requires Local(sh, t, WorkerSelect(run)) && CanTake(sh, run)
    ensures Local(TakeBody(sh, run).sh, t, TakeBody(sh, run).next.value)
  {
  }

  lemma TakeUndisturbed(sh: Shared, run: nat, t2: nat, pc2: Pc)
    requires CanTake(sh, run) && Local(sh, t2, pc2)
    ensures Local(TakeBody(sh, run).sh, t2, pc2)
  {
  }

  lemma BodyGlobal(sh: Shared, t: nat, pc: Pc)
    requires Global(sh) && Local(sh, t, pc) && SharedGuard(sh, t, pc)
    requires IsWorker(pc) ==> sh.wg > 0
    ensures Global(Body(sh, t, pc).sh)
  {
    if Quiet(sh, pc) {
      QuietReleases(sh, t, pc);
      ReleaseGlobal(sh, Body(sh, t, pc).sh, t);
      return;
    }
    match pc
    case StartEnter => StartIds(sh, t); StartPhases(sh, t); StartCrons(sh, t); StartLog(sh, t);
    case StopEnter => StopIds(sh, t); StopPhases(sh, t); StopCrons(sh, t); StopLog(sh, t);
    case ApplyEnter(size, tz) =>
      ApplyIds(sh, t, size, tz); ApplyPhases(sh, t, size, tz);
      ApplyCrons(sh, t, size, tz); ApplyLog(sh, t, size, tz);
    case ApplyWait(c) => RestartGlobal(sh, t, c);
    case Charge(stage, run, done, c) =>
      if stage == Finalize {
        FinalGlobal(sh, t, run, done, c);
      } else {
        ChargeIds(sh, t, stage, run, done, c); ChargePhases(sh, t, stage, run, done, c);
        ChargeCrons(sh, t, stage, run, done, c); ChargeLog(sh, t, stage, run, done, c);
      }
    case EnqSend(task, _, q) => SendGlobal(sh, task, q);
    case FinClose(d) => FinCloseGlobal(sh, t, d);
    case WorkerTop(_) => ExitGlobal(sh);
    case WorkerSelect(_) => ExitGlobal(sh);
    case _ =>
  }

  lemma BodyLocal(sh: Shared, t: nat, pc: Pc)
    requires Global(sh) && Local(sh, t, pc) && SharedGuard(sh, t, pc)
    ensures var e := Body(sh, t, pc); e.next.Some? ==> Local(e.sh, t, e.next.value)
  {
    if Quiet(sh, pc) {
      QuietLocal(sh, t, pc);
      return;
    }
    match pc
    case StartEnter => StartLocal(sh, t, pc);
    case StopEnter => StopLocal(sh, t, pc);
    case ApplyEnter(_, _) => ApplyLocal(sh, t, pc);
    case Charge(stage, run, done, c) =>
      if Early(stage) {
        EarlyLocal(sh, t, stage, run, done, c);
      } else if stage == Finalize {
        FinalizeLocal(sh, t, run, done, c);
      } else if stage == Spawn {
        SpawnLocal(sh, t, run, done, c);
      } else {
        LateLocal(sh, t, stage, run, done, c);
      }
    case _ =>
  }

  lemma BodyUndisturbed(sh: Shared, t: nat, pc: Pc, t2: nat, pc2: Pc)
    requires Global(sh) && Local(sh, t, pc) && SharedGuard(sh, t, pc)
    requires t != t2 && Local(sh, t2, pc2)
    requires IsWorker(pc) || IsWorker(pc2) ==> sh.wg > 0
    ensures Local(Body(sh, t, pc).sh, t2, pc2)
  {
    if Quiet(sh, pc) {
      QuietReleases(sh, t, pc);
      ReleaseUndisturbed(sh, Body(sh, t, pc).sh, t, t2, pc2);
      return;
    }
    match pc
    case StartEnter => StartUndisturbed(sh, t, pc, t2, pc2);
    case StopEnter => StopUndisturbed(sh, t, pc, t2, pc2);
    case ApplyEnter(size, tz) => ApplyUndisturbed(sh, t, size, tz, t2, pc2);
    case ApplyWait(c) => RestartUndisturbed(sh, t, c, t2, pc2);
    case Charge(stage, run, done, c) => ChargeUndisturbed(sh, t, stage, run, done, c, t2, pc2);
    case EnqSend(task, _, q) => SendUndisturbed(sh, task, q, t2, pc2);
    case FinClose(d) => FinCloseUndisturbed(sh, t, d, t2, pc2);
    case WorkerTop(_) => ExitUndisturbed(sh, t2, pc2);
    case WorkerSelect(_) => ExitUndisturbed(sh, t2, pc2);
    case _ =>
  }

  lemma PoolLocal(sh: Shared, t: nat, t2: nat)
    requires Global(sh) && Local(sh, t, StartEnter) && sh.mu == Some(t)
    requires t2 in StartSection(sh).spawned
    ensures t2 >= sh.rt.nextTid && Local(StartSection(sh).sh, t2, StartSection(sh).spawned[t2])
  {
  }

  lemma JoinLocal(sh: Shared, t: nat, run: nat, done: nat, c: Option<nat>)
    requires Global(sh) && Local(sh, t, Charge(Spawn, run, done, c))
    ensures var e := ChargeStep(sh, Spawn, run, done, c);
            Local(e.sh, sh.rt.nextTid, Charge(Join, run, done, c))
  {
  }

  // ----- one action of the whole system -----

  lemma SpawnedLocal(sh: Shared, t: nat, pc: Pc, t2: nat)
    requires Global(sh) && Local(sh, t, pc) && SharedGuard(sh, t, pc)
    requires t2 in Body(sh, t, pc).spawned
    ensures Local(Body(sh, t, pc).sh, t2, Body(sh, t, pc).spawned[t2])
  {
    match pc
    case StartEnter => PoolLocal(sh, t, t2);
    case Charge(_, run, done, c) => JoinLocal(sh, t, run, done, c);
    case _ =>
  }

  lemma CommitLocals(s: State, t: nat)
    requires Global(s.sh) && Locals(s) && t in s.threads && SharedGuard(s.sh, t, s.threads[t])
    requires forall t2 :: t2 in s.threads && IsWorker(s.threads[t2]) ==> s.sh.wg > 0
    ensures Locals(Commit(s.threads, t, Body(s.sh, t, s.threads[t])))
  {
    var e := Body(s.sh, t, s.threads[t]);
    var s' := Commit(s.threads, t, e);
    assert Local(s.sh, t, s.threads[t]);
    forall t2 | t2 in s'.threads
      ensures Local(s'.sh, t2, s'.threads[t2])
    {
      if t2 in e.spawned {
        SpawnedLocal(s.sh, t, s.threads[t], t2);
      } else if t2 == t {
        BodyLocal(s.sh, t, s.threads[t]);
      } else {
        assert Local(s.sh, t2, s.threads[t2]);
        BodyUndisturbed(s.sh, t, s.threads[t], t2, s.threads[t2]);
      }
    }
  }

  lemma WorkersCounted(s: State, t: nat)
    requires Owners(s) && t in s.threads
    ensures IsWorker(s.threads[t]) ==> s.sh.wg > 0
  {
    if IsWorker(s.threads[t]) {
      assert t in Workers(s.threads);
    }
  }

  lemma CommitWorkers(s: State, t: nat, e: Effect)
    requires t in s.threads && s.sh.wg == |Workers(s.threads)|
    requires e.next.Some? ==> IsWorker(e.next.value) == IsWorker(s.threads[t])
    requires forall t2 :: t2 in e.spawned ==> t2 !in s.threads && !IsWorker(e.spawned[t2])
    requires e.sh.wg == s.sh.wg - (if e.next.None? && IsWorker(s.threads[t]) then 1 else 0)
    ensures e.sh.wg == |Workers(Commit(s.threads, t, e).threads)|
  {
    var before, after := Workers(s.threads), Workers(Commit(s.threads, t, e).threads);
    if e.next.None? && IsWorker(s.threads[t]) {
      assert after == before - {t};
      assert t in before;
    } else {
      assert after == before;
    }
  }

  lemma StartWorkers(s: State, t: nat)
    requires Inv(s) && t in s.threads && s.threads[t].StartEnter? && s.sh.svc.stopCh.None?
    ensures var s' := Commit(s.threads, t, StartSection(s.sh)); s'.sh.wg == |Workers(s'.threads)|
  {
    var e := StartSection(s.sh);
    assert Workers(s.threads) == {};
    assert e.next == Some(StartTimers) && e.sh.wg == |e.spawned.Keys|;
    PoolWorkers(s.threads, t, e);
  }

  // Where nobody was a worker, exactly the spawned pool is afterwards.
  lemma PoolWorkers(threads: map<nat, Pc>, t: nat, e: Effect)
    requires Workers(threads) == {} && e.next == Some(StartTimers) && t !in e.spawned
    requires forall t2 :: t2 in e.spawned ==> IsWorker(e.spawned[t2])
    ensures Workers(Commit(threads, t, e).threads) == e.spawned.Keys
  {
    assert forall t2 :: t2 in threads ==> t2 !in Workers(threads);
  }

  // Only Start makes workers; a worker leaves the wait group exactly when it ends.
  lemma BodyWorkers(sh: Shared, t: nat, pc: Pc)
    requires !(pc.StartEnter? && sh.svc.stopCh.None?)
    ensures var e := Body(sh, t, pc);
            && (e.next.Some? ==> IsWorker(e.next.value) == IsWorker(pc))
            && (forall t2 :: t2 in e.spawned ==> !IsWorker(e.spawned[t2]))
            && e.sh.wg == sh.wg - (if e.next.None? && IsWorker(pc) then 1 else 0)
  {
  }

  // A section never takes a lock, and hands back the ones its thread owns before the thread ends.
  lemma BodyLocks(sh: Shared, t: nat, pc: Pc)
    requires Local(sh, t, pc) && SharedGuard(sh, t, pc)
    ensures var e := Body(sh, t, pc);
            && (e.sh.mu == sh.mu || e.sh.mu == None) && (e.sh.tmu == sh.tmu || e.sh.tmu == None)
            && (e.next.None? ==> e.sh.mu != Some(t) && e.sh.tmu != Some(t))
  {
  }

  predicate TouchesStops(pc: Pc) {
    pc.StopEnter? || pc.Charge? || pc.FinClose?
  }

  lemma BodyStops(sh: Shared, t: nat, pc: Pc)
    requires !TouchesStops(pc)
    ensures var e := Body(sh, t, pc);
            e.sh.aux.stops == sh.aux.stops && e.sh.rt.doneClosed == sh.rt.doneClosed
  {
  }

  predicate Closing(pc: Pc, d: nat) {
    (pc.Charge? || pc.FinClose?) && pc.done == d
  }

  lemma ClosersKept(threads: map<nat, Pc>, t: nat, e: Effect, closer: nat, d: nat)
    requires CloserOf(threads, closer, d) && closer !in e.spawned
    requires closer == t ==> e.next.Some? && Closing(e.next.value, d)
    ensures CloserOf(Commit(threads, t, e).threads, closer, d)
  {
  }

  lemma ChargeCloses(sh: Shared, stage: Stage, run: nat, done: nat, c: Option<nat>)
    ensures var e := ChargeStep(sh, stage, run, done, c);
            && e.sh.rt.doneClosed == sh.rt.doneClosed && e.next.Some?
            && if stage == Spawn then
                 && e.sh.aux.stops == sh.aux.stops[done := StopInfo(run, sh.rt.nextTid)]
                 && e.spawned == map[sh.rt.nextTid := Charge(Join, run, done, c)]
               else
                 e.sh.aux.stops == sh.aux.stops && e.spawned == map[] && Closing(e.next.value, done)
  {
  }

  lemma StopClosers(s: State, t: nat, d: nat)
    requires Owners(s) && t in s.threads && s.threads[t] == StopEnter
    requires var e := StopSection(s.sh, t); d in e.sh.aux.stops && e.sh.rt.doneClosed[d] == 0
    ensures var e := StopSection(s.sh, t); CloserOf(Commit(s.threads, t, e).threads, e.sh.aux.stops[d].closer, d)
  {
    var e := StopSection(s.sh, t);
    if d in s.sh.aux.stops && e.sh.aux.stops[d] == s.sh.aux.stops[d] {
      assert CloserOf(s.threads, s.sh.aux.stops[d].closer, d);
      ClosersKept(s.threads, t, e, s.sh.aux.stops[d].closer, d);
    }
  }

  lemma ChargeClosers(s: State, t: nat, stage: Stage, run: nat, done: nat, c: Option<nat>, d: nat)
    requires Owners(s) && t in s.threads && s.threads[t] == Charge(stage, run, done, c)
    requires s.sh.rt.nextTid !in s.threads
    requires var e := ChargeStep(s.sh, stage, run, done, c); d in e.sh.aux.stops && e.sh.rt.doneClosed[d] == 0
    ensures var e := ChargeStep(s.sh, stage, run, done, c);
            CloserOf(Commit(s.threads, t, e).threads, e.sh.aux.stops[d].closer, d)
  {
    var e := ChargeStep(s.sh, stage, run, done, c);
    ChargeCloses(s.sh, stage, run, done, c);
    if !(stage == Spawn && d == done) {
      assert CloserOf(s.threads, s.sh.aux.stops[d].closer, d);
      ClosersKept(s.threads, t, e, s.sh.aux.stops[d].closer, d);
    }
  }

  // A thread that closes nothing and begins no stop.
  lemma OtherClosers(s: State, t: nat, d: nat)
    requires Owners(s) && t in s.threads && !TouchesStops(s.threads[t])
    requires forall t2 :: t2 in Body(s.sh, t, s.threads[t]).spawned ==> t2 !in s.threads
    requires var e := Body(s.sh, t, s.threads[t]); d in e.sh.aux.stops && e.sh.rt.doneClosed[d] == 0
    ensures var e := Body(s.sh, t, s.threads[t]);
            CloserOf(Commit(s.threads, t, e).threads, e.sh.aux.stops[d].closer, d)
  {
    BodyStops(s.sh, t, s.threads[t]);
    assert CloserOf(s.threads, s.sh.aux.stops[d].closer, d);
    ClosersKept(s.threads, t, Body(s.sh, t, s.threads[t]), s.sh.aux.stops[d].closer, d);
  }

  lemma FinClosers(s: State, t: nat, done: nat, d: nat)
    requires Owners(s) && t in s.threads && s.threads[t] == FinClose(done)
    requires var e := Body(s.sh, t, FinClose(done)); d in e.sh.aux.stops && e.sh.rt.doneClosed[d] == 0
    ensures var e := Body(s.sh, t, FinClose(done));
            CloserOf(Commit(s.threads, t, e).threads, e.sh.aux.stops[d].closer, d)
  {
    assert CloserOf(s.threads, s.sh.aux.stops[d].closer, d);
    ClosersKept(s.threads, t, Body(s.sh, t, FinClose(done)), s.sh.aux.stops[d].closer, d);
  }

  lemma CommitClosers(s: State, t: nat, d: nat)
    requires Owners(s) && Locals(s) && t in s.threads
    requires forall t2 :: t2 in Body(s.sh, t, s.threads[t]).spawned ==> t2 !in s.threads
    requires var e := Body(s.sh, t, s.threads[t]); d in e.sh.aux.stops && e.sh.rt.doneClosed[d] == 0
    ensures var e := Body(s.sh, t, s.threads[t]);
            CloserOf(Commit(s.threads, t, e).threads, e.sh.aux.stops[d].closer, d)
  {
    match s.threads[t]
    case StopEnter => StopClosers(s, t, d);
    case FinClose(done) => FinClosers(s, t, done, d);
    case Charge(stage, run, done, c) =>
      assert s.sh.rt.nextTid in s.threads ==> Local(s.sh, s.sh.rt.nextTid, s.threads[s.sh.rt.nextTid]);
      ChargeClosers(s, t, stage, run, done, c, d);
    case _ => OtherClosers(s, t, d);
  }

  // Spawned threads are new.
  lemma SpawnedNew(s: State, t: nat)
    requires Locals(s) && t in s.threads
    ensures forall t2 :: t2 in Body(s.sh, t, s.threads[t]).spawned ==> t2 !in s.threads
  {
    var pc := s.threads[t];
    if pc.Charge? {
      ChargeCloses(s.sh, pc.stage, pc.run, pc.done, pc.captured);
    }
    forall t2 | t2 in s.threads ensures t2 !in Body(s.sh, t, pc).spawned {
      assert Local(s.sh, t2, s.threads[t2]);
    }
  }

  lemma CommitLocks(s: State, t: nat)
    requires Inv(s) && t in s.threads && SharedGuard(s.sh, t, s.threads[t])
    ensures var s' := Commit(s.threads, t, Body(s.sh, t, s.threads[t]));
            && (s'.sh.mu.Some? ==> s'.sh.mu.value in s'.threads)
            && (s'.sh.tmu.Some? ==> s'.sh.tmu.value in s'.threads)
  {
    BodyLocks(s.sh, t, s.threads[t]);
  }

  lemma CommitCount(s: State, t: nat)
    requires Inv(s) && t in s.threads && SharedGuard(s.sh, t, s.threads[t])
    ensures var s' := Commit(s.threads, t, Body(s.sh, t, s.threads[t]));
            s'.sh.wg == |Workers(s'.threads)|
  {
    var pc := s.threads[t];
    if pc.StartEnter? && s.sh.svc.stopCh.None? {
      StartWorkers(s, t);
    } else {
      BodyWorkers(s.sh, t, pc);
      SpawnedNew(s, t);
      CommitWorkers(s, t, Body(s.sh, t, pc));
    }
  }

  lemma DoInv(s: State, t: nat)
    requires Inv(s) && t in s.threads && SharedGuard(s.sh, t, s.threads[t])
    ensures Inv(Commit(s.threads, t, Body(s.sh, t, s.threads[t])))
  {
    var e := Body(s.sh, t, s.threads[t]);
    forall t2 | t2 in s.threads && IsWorker(s.threads[t2]) ensures s.sh.wg > 0 {
      WorkersCounted(s, t2);
    }
    BodyGlobal(s.sh, t, s.threads[t]);
    SpawnedNew(s, t);
    CommitLocals(s, t);
    CommitLocks(s, t);
    CommitCount(s, t);
    forall d | d in e.sh.aux.stops && e.sh.rt.doneClosed[d] == 0
      ensures CloserOf(Commit(s.threads, t, e).threads, e.sh.aux.stops[d].closer, d)
    {
      CommitClosers(s, t, d);
    }
  }

  // An action that leaves locks, counts and stops alone, of a thread that is not closing anything.
  lemma PlainOwners(s: State, t: nat, e: Effect)
    requires Owners(s) && t in s.threads && e.spawned == map[]
    requires e.sh.mu == s.sh.mu && e.sh.tmu == s.sh.tmu && e.sh.wg == s.sh.wg
    requires e.sh.aux.stops == s.sh.aux.stops && e.sh.rt.doneClosed == s.sh.rt.doneClosed
    requires s.sh.mu != Some(t) && s.sh.tmu != Some(t)
    requires !s.threads[t].Charge? && !s.threads[t].FinClose?
    requires IsWorker(s.threads[t]) == (e.next.Some? && IsWorker(e.next.value))
    ensures Owners(Commit(s.threads, t, e))
  {
    assert Workers(Commit(s.threads, t, e).threads) == Workers(s.threads);
    forall d | d in s.sh.aux.stops && s.sh.rt.doneClosed[d] == 0
      ensures CloserOf(Commit(s.threads, t, e).threads, s.sh.aux.stops[d].closer, d)
    {
      assert CloserOf(s.threads, s.sh.aux.stops[d].closer, d);
      ClosersKept(s.threads, t, e, s.sh.aux.stops[d].closer, d);
    }
  }

  lemma TakeOwners(s: State, t: nat)
    requires Inv(s) && Enabled(s, Take(t))
    ensures Owners(Step(s, Take(t)))
  {
    assert Local(s.sh, t, s.threads[t]);
    PlainOwners(s, t, TakeBody(s.sh, s.threads[t].run));
  }

  lemma TakeLocals(s: State, t: nat, run: nat)
    requires Global(s.sh) && Locals(s) && t in s.threads && s.threads[t] == WorkerSelect(run) && CanTake(s.sh, run)
    ensures Locals(Commit(s.threads, t, TakeBody(s.sh, run)))
  {
    var s' := Commit(s.threads, t, TakeBody(s.sh, run));
    assert Local(s.sh, t, s.threads[t]);
    forall t2 | t2 in s'.threads ensures Local(s'.sh, t2, s'.threads[t2]) {
      if t2 == t {
        TakeLocal(s.sh, t, run);
      } else {
        assert Local(s.sh, t2, s.threads[t2]);
        TakeUndisturbed(s.sh, run, t2, s.threads[t2]);
      }
    }
  }

  lemma TakeInv(s: State, t: nat)
    requires Inv(s) && Enabled(s, Take(t))
    ensures Inv(Step(s, Take(t)))
  {
    TakeOwners(s, t);
    TakeGlobal(s.sh, t, s.threads[t].run);
    TakeLocals(s, t, s.threads[t].run);
  }

  lemma SkipInv(s: State, t: nat)
    requires Inv(s) && Enabled(s, Skip(t))
    ensures Inv(Step(s, Skip(t)))
  {
    assert Local(s.sh, t, s.threads[t]);
    PlainOwners(s, t, Ends(s.sh));
  }

  lemma GiveUpInv(s: State, t: nat)
    requires Inv(s) && Enabled(s, GiveUp(t))
    ensures Inv(Step(s, GiveUp(t)))
  {
    assert Local(s.sh, t, s.threads[t]);
    PlainOwners(s, t, Ends(s.sh));
  }

  // Owners reads nothing but these parts of the state.
  lemma SameOwners(s: State, sh': Shared)
    requires Owners(s)
    requires sh'.wg == s.sh.wg && sh'.aux.stops == s.sh.aux.stops && sh'.rt.doneClosed == s.sh.rt.doneClosed
    requires (sh'.mu.Some? ==> sh'.mu.value in s.threads) && (sh'.tmu.Some? ==> sh'.tmu.value in s.threads)
    ensures Owners(State(sh', s.threads))
  {
  }

  lemma AcquireGlobal(sh: Shared, t: nat, lock: Lock)
    requires Global(sh) && t < sh.rt.nextTid && (lock == Mu ==> sh.mu == None)
    ensures Global(if lock == Mu then sh.(mu := Some(t)) else sh.(tmu := Some(t)))
  {
  }

  lemma AcquireLocal(sh: Shared, t: nat, lock: Lock, t2: nat, pc2: Pc)
    requires Local(sh, t2, pc2) && (lock == Mu ==> sh.mu == None && !sh.aux.restarting)
    requires t == t2 ==> if lock == Mu then MuEntry(pc2) else TmuEntry(pc2)
    ensures Local(if lock == Mu then sh.(mu := Some(t)) else sh.(tmu := Some(t)), t2, pc2)
  {
  }

  lemma AcquireInv(s: State, t: nat, lock: Lock)
    requires Inv(s) && Enabled(s, Acquire(t, lock))
    ensures Inv(Step(s, Acquire(t, lock)))
  {
    var s' := Step(s, Acquire(t, lock));
    AcquireGlobal(s.sh, t, lock);
    SameOwners(s, s'.sh);
    forall t2 | t2 in s.threads ensures Local(s'.sh, t2, s.threads[t2]) {
      AcquireLocal(s.sh, t, lock, t2, s.threads[t2]);
    }
  }

  lemma CancelGlobal(sh: Shared, run: nat)
    requires Global(sh)
    ensures Global(sh.(rt := sh.rt.(cancelled := sh.rt.cancelled + {run})))
  {
  }

  lemma CancelLocal(sh: Shared, run: nat, t2: nat, pc2: Pc)
    requires Local(sh, t2, pc2)
    ensures Local(sh.(rt := sh.rt.(cancelled := sh.rt.cancelled + {run})), t2, pc2)
  {
  }

  lemma CancelInv(s: State, run: nat)
    requires Inv(s) && run < s.sh.rt.nextId
    ensures Inv(Step(s, CancelRun(run)))
  {
    var s' := Step(s, CancelRun(run));
    CancelGlobal(s.sh, run);
    SameOwners(s, s'.sh);
    forall t2 | t2 in s.threads ensures Local(s'.sh, t2, s.threads[t2]) {
      CancelLocal(s.sh, run, t2, s.threads[t2]);
    }
  }

  lemma SpawnedOwners(s: State, pc: Pc)
    requires Inv(s) && !IsWorker(pc)
    ensures Owners(Spawned(s, pc))
  {
    var s' := Spawned(s, pc);
    assert s.sh.rt.nextTid !in s.threads;
    assert Workers(s'.threads) == Workers(s.threads);
    forall d | d in s.sh.aux.stops && s.sh.rt.doneClosed[d] == 0
      ensures CloserOf(s'.threads, s.sh.aux.stops[d].closer, d)
    {
      assert CloserOf(s.threads, s.sh.aux.stops[d].closer, d);
    }
  }

  lemma SpawnedGlobal(s: State, pc: Pc)
    requires Global(s.sh)
    ensures Global(Spawned(s, pc).sh)
  {
  }

  lemma SpawnedLocals(s: State, pc: Pc)
    requires Inv(s) && (Callable(pc) || pc.FnStart?)
    ensures Locals(Spawned(s, pc))
  {
  }

  lemma SpawnedInv(s: State, pc: Pc)
    requires Inv(s) && (Callable(pc) || pc.FnStart?)
    ensures Inv(Spawned(s, pc))
  {
    SpawnedGlobal(s, pc);
    SpawnedLocals(s, pc);
    SpawnedOwners(s, pc);
  }

  lemma StepInv(s: State, a: Action)
    requires Inv(s) && Enabled(s, a)
    ensures Inv(Step(s, a))
  {
    match a
    case Acquire(t, lock) => AcquireInv(s, t, lock);
    case Do(t) => DoInv(s, t);
    case Take(t) => TakeInv(s, t);
    case Skip(t) => SkipInv(s, t);
    case GiveUp(t) => GiveUpInv(s, t);
    case Call(pc) => SpawnedInv(s, pc);
    case Fire(c, task) => SpawnedInv(s, FnStart(task, c));
    case CancelRun(run) => CancelInv(s, run);
  }

  lemma InitInv(size: int, tz: nat)
    ensures Inv(Init(size, tz))
  {
    assert Workers(Init(size, tz).threads) == {};
  }

  // Every reachable state of the service satisfies the invariant.
  lemma {:induction false} RunInv(s: State, acts: seq<Action>)
    requires Inv(s) && Possible(s, acts)
    ensures Inv(After(s, acts))
    decreases |acts|
  {
    if acts != [] {
      StepInv(s, acts[0]);
      RunInv(Step(s, acts[0]), acts[1..]);
    }
  }

  // ----- what holds in every reachable state -----

  // At most one pool of workers is alive and it belongs to the current run, the wait group counts it,
  // and no channel is closed twice.
  lemma OnePool(size: int, tz: nat, acts: seq<Action>)
    requires Possible(Init(size, tz), acts)
    ensures var s := After(Init(size, tz), acts);
            && (forall t :: t in Workers(s.threads) ==> s.sh.svc.stopCh == Some(s.threads[t].run))
            && s.sh.wg == |Workers(s.threads)|
            && (Stopped(s.sh) ==> Workers(s.threads) == {} && s.sh.svc.queue == None && s.sh.svc.stopDone == None)
            && (forall x :: s.sh.rt.closed[x] <= 1 && s.sh.rt.doneClosed[x] <= 1)
  {
    var s := After(Init(size, tz), acts);
    InitInv(size, tz);
    RunInv(Init(size, tz), acts);
    forall t | t in Workers(s.threads) ensures s.sh.svc.stopCh == Some(s.threads[t].run) {
      assert Local(s.sh, t, s.threads[t]);
    }
  }

  // Nobody but the thread in charge of a stop closes, cancels, joins or finalizes, and while it does
  // the service is in the stopping phase of that very run.
  lemma OneStopper(size: int, tz: nat, acts: seq<Action>, t1: nat, t2: nat)
    requires Possible(Init(size, tz), acts)
    requires var s := After(Init(size, tz), acts);
             t1 in s.threads && t2 in s.threads && s.threads[t1].Charge? && s.threads[t2].Charge?
    ensures var s := After(Init(size, tz), acts);
            t1 == t2 && Stopping(s.sh) && s.sh.svc.stopCh == Some(s.threads[t1].run)
  {
    var s := After(Init(size, tz), acts);
    InitInv(size, tz);
    RunInv(Init(size, tz), acts);
    assert Local(s.sh, t1, s.threads[t1]) && Local(s.sh, t2, s.threads[t2]);
  }

  // A task is executed by workers of the run whose queue it was put in, while that run is current.
  lemma NoStaleTask(size: int, tz: nat, acts: seq<Action>, i: nat)
    requires Possible(Init(size, tz), acts) && i < |After(Init(size, tz), acts).sh.aux.ran|
    ensures var r := After(Init(size, tz), acts).sh.aux.ran[i];
            r.put == r.worker && r.current == Some(r.put)
  {
    InitInv(size, tz);
    RunInv(Init(size, tz), acts);
  }

  // When a Stop sees its done channel closed, the run it stopped has no worker left, now or later.
  lemma StopWaitsForWorkers(size: int, tz: nat, acts: seq<Action>, d: nat, t: nat)
    requires Possible(Init(size, tz), acts)
    requires var s := After(Init(size, tz), acts);
             d in s.sh.aux.stops && s.sh.rt.doneClosed[d] > 0 && t in Workers(s.threads)
    ensures var s := After(Init(size, tz), acts); s.threads[t].run != s.sh.aux.stops[d].run
  {
    var s := After(Init(size, tz), acts);
    InitInv(size, tz);
    RunInv(Init(size, tz), acts);
    assert Local(s.sh, t, s.threads[t]);
  }

  // The actions at which restartLocked starts a cron although a stop is in progress: an Apply with
  // another timezone, either after draining the old cron or, as Stop already took it, without one.
  ghost predicate RestartsWhileStopping(s: State, a: Action) {
    && a.Do? && a.t in s.threads && Stopping(s.sh)
    && (s.threads[a.t].ApplyWait?
        || (s.threads[a.t].ApplyEnter? && s.threads[a.t].tz != s.sh.svc.tz && s.sh.svc.cron.None?))
  }

  ghost predicate SomeRestartWhileStopping(s: State, acts: seq<Action>)
    requires Possible(s, acts)
    decreases |acts|
  {
    acts != [] &&
    (RestartsWhileStopping(s, acts[0]) || SomeRestartWhileStopping(Step(s, acts[0]), acts[1..]))
  }

  lemma BodyFlag(sh: Shared, t: nat, pc: Pc)
    requires Phases(sh)
    ensures Body(sh, t, pc).sh.aux.tzWhileStopping <==>
            || sh.aux.tzWhileStopping
            || (Stopping(sh) && (pc.ApplyWait? || (pc.ApplyEnter? && pc.tz != sh.svc.tz && sh.svc.cron.None?)))
  {
  }

  lemma FlagStep(s: State, a: Action)
    requires Phases(s.sh) && Enabled(s, a)
    ensures Step(s, a).sh.aux.tzWhileStopping <==> s.sh.aux.tzWhileStopping || RestartsWhileStopping(s, a)
  {
    if a.Do? {
      BodyFlag(s.sh, a.t, s.threads[a.t]);
    }
  }

  lemma {:induction false} FlagRun(s: State, acts: seq<Action>)
    requires Inv(s) && Possible(s, acts)
    ensures After(s, acts).sh.aux.tzWhileStopping <==>
            s.sh.aux.tzWhileStopping || SomeRestartWhileStopping(s, acts)
    decreases |acts|
  {
    if acts != [] {
      FlagStep(s, acts[0]);
      StepInv(s, acts[0]);
      FlagRun(Step(s, acts[0]), acts[1..]);
    }
  }

  // A stopped service has no live cron, exactly when no Apply with another timezone was carried out
  // during a stop. Once that happened, every later stopped state has one.
  lemma StoppedMeansNoCron(size: int, tz: nat, acts: seq<Action>)
    requires Possible(Init(size, tz), acts)
    requires Stopped(After(Init(size, tz), acts).sh)
    ensures (forall c :: !Live(After(Init(size, tz), acts).sh, c)) <==>
            !SomeRestartWhileStopping(Init(size, tz), acts)
  {
    var s := After(Init(size, tz), acts);
    InitInv(size, tz);
    RunInv(Init(size, tz), acts);
    FlagRun(Init(size, tz), acts);
    if s.sh.aux.tzWhileStopping {
      var c :| c in s.sh.aux.orphans;
      assert Live(s.sh, c);
    }
  }

  // A running service that is not just restarting its cron has no live cron but its own, exactly when no
  // such Apply was carried out. Once one was, every later run has a second live cron that Start abandoned.
  lemma RunningMeansOneCron(size: int, tz: nat, acts: seq<Action>)
    requires Possible(Init(size, tz), acts)
    requires var sh := After(Init(size, tz), acts).sh; Running(sh) && !sh.aux.restarting
    ensures var sh := After(Init(size, tz), acts).sh;
            (forall c: nat :: Live(sh, c) ==> sh.svc.cron == Some(c)) <==>
                !SomeRestartWhileStopping(Init(size, tz), acts)
  {
    var s := After(Init(size, tz), acts);
    InitInv(size, tz);
    RunInv(Init(size, tz), acts);
    FlagRun(Init(size, tz), acts);
    if s.sh.aux.tzWhileStopping {
      var c :| c in s.sh.aux.orphans;
      assert Live(s.sh, c);
    }
  }
}
