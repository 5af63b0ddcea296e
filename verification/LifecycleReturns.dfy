/**
What a caller can rely on when a call has returned: a Start leaves the service running, a Stop has ended
the run it found and drained its cron, a restarted cron left nothing of the old one behind. A caller whose
context ends first (GiveUp) can rely on nothing.

And what the workers do with a queue: its tasks are taken in the order they were sent.
*/
module LifecycleReturns {
  import opened Wrappers
  import opened SchedulerLifecycle
  import opened LifecycleSafety
  import opened LifecycleDelivery
  import LifecycleLiveness

  // ----- Start -----

  // A Start that has made a run still finds it running, as it has held s.mu since.
  predicate StartOk(sh: Shared, pc: Pc) {
    pc.StartTimers? ==> Running(sh)
  }

  ghost predicate StartsOk(s: State) {
    forall t :: t in s.threads ==> StartOk(s.sh, s.threads[t])
  }

  // Only a thread that holds s.mu changes the phase.
  lemma BodyPhase(sh: Shared, t: nat, pc: Pc)
    requires SharedGuard(sh, t, pc) && Phases(sh)
    ensures var e := Body(sh, t, pc);
            && (sh.mu != Some(t) ==> e.sh.svc == sh.svc)
            && (e.next.Some? ==> StartOk(e.sh, e.next.value))
            && (forall t2 :: t2 in e.spawned ==> !e.spawned[t2].StartTimers?)
  {
  }

  lemma CommitStarts(s: State, t: nat, e: Effect)
    requires Inv(s) && StartsOk(s) && t in s.threads
    requires s.sh.mu != Some(t) ==> e.sh.svc == s.sh.svc
    requires e.next.Some? ==> StartOk(e.sh, e.next.value)
    requires forall t2 :: t2 in e.spawned ==> !e.spawned[t2].StartTimers?
    ensures StartsOk(Commit(s.threads, t, e))
  {
    forall t2 | t2 in s.threads && t2 != t ensures StartOk(e.sh, s.threads[t2]) {
      assert Local(s.sh, t2, s.threads[t2]) && StartOk(s.sh, s.threads[t2]);
    }
  }

  lemma StepStarts(s: State, a: Action)
    requires Inv(s) && StartsOk(s) && Enabled(s, a)
    ensures StartsOk(Step(s, a))
  {
    if a.Do? {
      BodyPhase(s.sh, a.t, s.threads[a.t]);
      CommitStarts(s, a.t, Body(s.sh, a.t, s.threads[a.t]));
    }
  }

  lemma {:induction false} RunStarts(s: State, acts: seq<Action>)
    requires Inv(s) && StartsOk(s) && Possible(s, acts)
    ensures Inv(After(s, acts)) && StartsOk(After(s, acts))
    decreases |acts|
  {
    if acts != [] {
      StepStarts(s, acts[0]);
      StepInv(s, acts[0]);
      RunStarts(Step(s, acts[0]), acts[1..]);
    }
  }

  // In every reachable state: a call of Start that returns, without having given up, leaves the service
  // running; a stop in progress makes it wait and look again.
  lemma StartReturns(size: int, tz: nat, acts: seq<Action>, t: nat)
    requires Possible(Init(size, tz), acts)
    requires var s := After(Init(size, tz), acts);
             && Enabled(s, Do(t)) && t !in Step(s, Do(t)).threads
             && (s.threads[t].StartEnter? || s.threads[t].StartWait? || s.threads[t].StartTimers?)
    ensures Running(Step(After(Init(size, tz), acts), Do(t)).sh)
  {
    var s := After(Init(size, tz), acts);
    InitInv(size, tz);
    RunStarts(Init(size, tz), acts);
    assert StartOk(s.sh, s.threads[t]);
    if Body(s.sh, t, s.threads[t]).next.Some? {
      SpawnedNew(s, t);
    }
  }

  // ----- a cron that is through -----

  // Dead, with none of its functions on the way; no function of it will ever start again.
  ghost predicate Retired(s: State, c: nat) {
    c in s.sh.rt.crons && !s.sh.rt.crons[c] && !InFlight(s, c)
  }

  lemma BodyFlights(sh: Shared, t: nat, pc: Pc)
    ensures var e := Body(sh, t, pc);
            && (e.next.Some? && InFlightOf(e.next.value).Some? ==> InFlightOf(e.next.value) == InFlightOf(pc))
            && (forall t2 :: t2 in e.spawned ==> InFlightOf(e.spawned[t2]) == None)
  {
  }

  lemma BodyDead(sh: Shared, t: nat, pc: Pc, c: nat)
    requires c in sh.rt.crons && !sh.rt.crons[c] && c < sh.rt.nextId
    ensures var e := Body(sh, t, pc); c in e.sh.rt.crons && !e.sh.rt.crons[c]
  {
  }

  lemma CommitFlights(s: State, t: nat, e: Effect, c: nat)
    requires t in s.threads && !InFlight(s, c)
    requires e.next.Some? && InFlightOf(e.next.value).Some? ==> InFlightOf(e.next.value) == InFlightOf(s.threads[t])
    requires forall t2 :: t2 in e.spawned ==> InFlightOf(e.spawned[t2]) == None
    ensures !InFlight(Commit(s.threads, t, e), c)
  {
  }

  lemma StepRetired(s: State, a: Action, c: nat)
    requires Inv(s) && Enabled(s, a) && Retired(s, c)
    ensures Retired(Step(s, a), c)
  {
    if a.Do? {
      BodyFlights(s.sh, a.t, s.threads[a.t]);
      BodyDead(s.sh, a.t, s.threads[a.t], c);
      CommitFlights(s, a.t, Body(s.sh, a.t, s.threads[a.t]), c);
    } else if a.Take? {
      CommitFlights(s, a.t, TakeBody(s.sh, s.threads[a.t].run), c);
    } else if a.Skip? || a.GiveUp? {
      CommitFlights(s, a.t, Ends(s.sh), c);
    }
  }

  // restartLocked leaves nothing of the cron it replaces: it waits for the functions in flight.
  lemma ApplyDrains(size: int, tz: nat, acts: seq<Action>, t: nat)
    requires Possible(Init(size, tz), acts)
    requires var s := After(Init(size, tz), acts); Enabled(s, Do(t)) && s.threads[t].ApplyWait?
    ensures var s := After(Init(size, tz), acts); Retired(Step(s, Do(t)), s.threads[t].prev)
  {
    InitInv(size, tz);
    RunInv(Init(size, tz), acts);
    WaitDrains(After(Init(size, tz), acts), t, After(Init(size, tz), acts).threads[t].prev);
  }

  lemma WaitDrains(s: State, t: nat, prev: nat)
    requires Inv(s) && Enabled(s, Do(t)) && s.threads[t] == ApplyWait(prev)
    ensures Retired(Step(s, Do(t)), prev)
  {
    assert Local(s.sh, t, ApplyWait(prev));
    assert !InFlight(s, prev);
    StepRetired(s, Do(t), prev);
  }

  // ----- Stop -----

  // A call of Stop on its way, that found run `run` with cron `c` in the service: in charge of the stop,
  // or waiting for it.
  ghost predicate Following(s: State, t: nat, run: nat, c: Option<nat>) {
    if t in s.threads then
      match s.threads[t]
      case Charge(stage, r, d, captured) =>
        && r == run && stage != Join && stage != Finalize
        && (c.Some? ==> captured == c && ((stage == Timers || stage == Spawn) ==> Retired(s, c.value)))
      case StopWait(d) =>
        d in s.sh.aux.stops && s.sh.aux.stops[d].run == run && (c.Some? ==> Retired(s, c.value))
      case _ => false
    else LifecycleDelivery.Over(s, run) && (c.Some? ==> Retired(s, c.value))
  }

  lemma BodyKeepsStops(sh: Shared, t: nat, pc: Pc, d: nat)
    requires Ids(sh) && Local(sh, t, pc) && d in sh.aux.stops
    ensures var e := Body(sh, t, pc); d in e.sh.aux.stops && e.sh.aux.stops[d].run == sh.aux.stops[d].run
  {
    if pc.Charge? {
      ChargeCloses(sh, pc.stage, pc.run, pc.done, pc.captured);
    } else if !TouchesStops(pc) {
      BodyStops(sh, t, pc);
    }
  }

  lemma StepKeepsStops(s: State, a: Action, d: nat)
    requires Inv(s) && Enabled(s, a) && d in s.sh.aux.stops
    ensures d in Step(s, a).sh.aux.stops && Step(s, a).sh.aux.stops[d].run == s.sh.aux.stops[d].run
  {
    if a.Do? {
      assert Local(s.sh, a.t, s.threads[a.t]);
      BodyKeepsStops(s.sh, a.t, s.threads[a.t], d);
    }
  }

  // The done channel is only closed when its run is over.
  lemma DoneIsOver(s: State, d: nat)
    requires Inv(s) && d in s.sh.aux.stops && s.sh.rt.doneClosed[d] > 0
    ensures LifecycleDelivery.Over(s, s.sh.aux.stops[d].run)
  {
  }

  lemma OverStays(s: State, a: Action, run: nat)
    requires Inv(s) && Enabled(s, a) && LifecycleDelivery.Over(s, run)
    ensures LifecycleDelivery.Over(Step(s, a), run)
  {
    if a.Do? {
      BodyOver(s.sh, a.t, s.threads[a.t]);
    }
  }

  lemma CommitOwn(threads: map<nat, Pc>, t: nat, e: Effect)
    requires t in threads && t !in e.spawned
    ensures var s' := Commit(threads, t, e);
            (t in s'.threads <==> e.next.Some?) && (e.next.Some? ==> s'.threads[t] == e.next.value)
  {
  }

  lemma CommitOthers(threads: map<nat, Pc>, t: nat, e: Effect, t2: nat)
    requires t != t2 && t2 !in e.spawned
    ensures var s' := Commit(threads, t, e);
            (t2 in s'.threads <==> t2 in threads) && (t2 in threads ==> s'.threads[t2] == threads[t2])
  {
  }

  lemma OwnWait(s: State, t: nat, run: nat, c: Option<nat>, d: nat)
    requires Inv(s) && Enabled(s, Do(t)) && s.threads[t] == StopWait(d) && Following(s, t, run, c)
    ensures Following(Step(s, Do(t)), t, run, c)
  {
    CommitOwn(s.threads, t, Ends(s.sh));
    DoneIsOver(s, d);
    OverStays(s, Do(t), run);
    if c.Some? {
      StepRetired(s, Do(t), c.value);
    }
  }

  lemma ChargeGoes(sh: Shared, stage: Stage, run: nat, d: nat, c: Option<nat>)
    requires stage != Join && stage != Finalize
    ensures var e := ChargeStep(sh, stage, run, d, c);
            match stage
            case Spawn => e.next == Some(StopWait(d)) && d in e.sh.aux.stops && e.sh.aux.stops[d].run == run
            case Close => e.next == Some(Charge(Cancel, run, d, c))
            case Cancel => e.next == Some(Charge(CronStop, run, d, c))
            case CronStop => e.next == Some(Charge(Drain, run, d, c))
            case Drain => e.next == Some(Charge(Timers, run, d, c))
            case _ => e.next == Some(Charge(Spawn, run, d, c))
  {
  }

  // The thread in charge is past the drain only when the cron is through.
  lemma DrainedStep(s: State, t: nat, stage: Stage, run: nat, d: nat, captured: Option<nat>, c: Option<nat>)
    requires Inv(s) && Enabled(s, Do(t)) && s.threads[t] == Charge(stage, run, d, captured) && Following(s, t, run, c)
    ensures c.Some? && (stage == Drain || stage == Timers || stage == Spawn) ==> Retired(Step(s, Do(t)), c.value)
  {
    assert Local(s.sh, t, s.threads[t]);
    if c.Some? && (stage == Drain || stage == Timers || stage == Spawn) {
      assert Retired(s, c.value);
      StepRetired(s, Do(t), c.value);
    }
  }

  lemma OwnCharge(s: State, t: nat, stage: Stage, run: nat, d: nat, captured: Option<nat>, c: Option<nat>)
    requires Inv(s) && Enabled(s, Do(t)) && s.threads[t] == Charge(stage, run, d, captured) && Following(s, t, run, c)
    ensures Following(Step(s, Do(t)), t, run, c)
  {
    var e := ChargeStep(s.sh, stage, run, d, captured);
    SpawnedNew(s, t);
    CommitOwn(s.threads, t, e);
    ChargeGoes(s.sh, stage, run, d, captured);
    DrainedStep(s, t, stage, run, d, captured, c);
    assert Step(s, Do(t)) == Commit(s.threads, t, e);
  }

  lemma OwnStep(s: State, t: nat, run: nat, c: Option<nat>)
    requires Inv(s) && Enabled(s, Do(t)) && Following(s, t, run, c)
    ensures Following(Step(s, Do(t)), t, run, c)
  {
    match s.threads[t]
    case StopWait(d) => OwnWait(s, t, run, c, d);
    case Charge(stage, r, d, captured) => OwnCharge(s, t, stage, r, d, captured, c);
    case _ => assert false;
  }

  lemma OtherStep(s: State, a: Action, t: nat, run: nat, c: Option<nat>)
    requires Inv(s) && Enabled(s, a) && Following(s, t, run, c) && t < s.sh.rt.nextTid
    requires t in s.threads ==> a != Do(t) && a != GiveUp(t)
    ensures Following(Step(s, a), t, run, c)
  {
    if c.Some? && Retired(s, c.value) {
      StepRetired(s, a, c.value);
    }
    if t in s.threads {
      assert Local(s.sh, t, s.threads[t]);
      if s.threads[t].StopWait? {
        StepKeepsStops(s, a, s.threads[t].done);
      }
    } else {
      OverStays(s, a, run);
    }
    StaysPut(s, a, t);
  }

  lemma StaysPut(s: State, a: Action, t: nat)
    requires Inv(s) && Enabled(s, a) && t < s.sh.rt.nextTid
    requires t in s.threads ==> (s.threads[t].Charge? || s.threads[t].StopWait?) && a != Do(t) && a != GiveUp(t)
    ensures t in Step(s, a).threads <==> t in s.threads
    ensures t in s.threads ==> Step(s, a).threads[t] == s.threads[t]
  {
    match a
    case Do(u) =>
      LifecycleLiveness.BodyNumbers(s.sh, u, s.threads[u]);
      CommitOthers(s.threads, u, Body(s.sh, u, s.threads[u]), t);
    case Take(u) => CommitOthers(s.threads, u, TakeBody(s.sh, s.threads[u].run), t);
    case _ =>
  }

  lemma StepNumbers(s: State, a: Action)
    requires Inv(s) && Enabled(s, a)
    ensures s.sh.rt.nextTid <= Step(s, a).sh.rt.nextTid
  {
    if a.Do? {
      LifecycleLiveness.BodyNumbers(s.sh, a.t, s.threads[a.t]);
    }
  }

  lemma {:induction false} RunFollows(s: State, acts: seq<Action>, t: nat, run: nat, c: Option<nat>)
    requires Inv(s) && Possible(s, acts) && GiveUp(t) !in acts && t < s.sh.rt.nextTid && Following(s, t, run, c)
    ensures Inv(After(s, acts)) && Following(After(s, acts), t, run, c)
    decreases |acts|
  {
    if acts != [] {
      var a := acts[0];
      assert a in acts && forall x :: x in acts[1..] ==> x in acts;
      if a == Do(t) {
        OwnStep(s, t, run, c);
      } else {
        OtherStep(s, a, t, run, c);
      }
      StepInv(s, a);
      StepNumbers(s, a);
      RunFollows(Step(s, a), acts[1..], t, run, c);
    }
  }

  // The first section of a Stop that finds a run in the service.
  lemma StopBegins(s: State, t: nat, run: nat)
    requires Inv(s) && Enabled(s, Do(t)) && s.threads[t].StopEnter? && s.sh.svc.stopCh == Some(run)
    ensures Following(Step(s, Do(t)), t, run, if Running(s.sh) then s.sh.svc.cron else None)
    ensures t < Step(s, Do(t)).sh.rt.nextTid
  {
    assert Local(s.sh, t, s.threads[t]);
    SpawnedNew(s, t);
  }

  // From the moment a call of Stop gets its turn in any reachable state, whatever everybody does: when it
  // has returned without giving up, the run it found is over, no worker of it is left, and the cron it
  // found in a running service is dead with none of its functions on the way.
  lemma StopReturns(size: int, tz: nat, before: seq<Action>, t: nat, run: nat, acts: seq<Action>)
    requires Possible(Init(size, tz), before)
    requires var s := After(Init(size, tz), before);
             && Enabled(s, Do(t)) && s.threads[t].StopEnter? && s.sh.svc.stopCh == Some(run)
             && Possible(Step(s, Do(t)), acts) && GiveUp(t) !in acts
             && t !in After(Step(s, Do(t)), acts).threads
    ensures var s := After(Init(size, tz), before);
            var s' := After(Step(s, Do(t)), acts);
            && s'.sh.svc.stopCh != Some(run)
            && (forall w :: w in Workers(s'.threads) ==> s'.threads[w].run != run)
            && (Running(s.sh) && s.sh.svc.cron.Some? ==> Retired(s', s.sh.svc.cron.value))
  {
    var s := After(Init(size, tz), before);
    InitInv(size, tz);
    RunInv(Init(size, tz), before);
    StopBegins(s, t, run);
    StepInv(s, Do(t));
    RunFollows(Step(s, Do(t)), acts, t, run, if Running(s.sh) then s.sh.svc.cron else None);
    var s' := After(Step(s, Do(t)), acts);
    forall w | w in Workers(s'.threads) ensures s'.threads[w].run != run {
      assert Local(s'.sh, w, s'.threads[w]);
    }
  }

  // ----- the workers -----

  // A worker that looks at its signals leaves exactly if its stop channel is closed or its context is
  // cancelled, and so does one that waits for a task; the wait group is told.
  lemma SignalledLeaves(size: int, tz: nat, acts: seq<Action>, w: nat)
    requires Possible(Init(size, tz), acts)
    requires var s := After(Init(size, tz), acts);
             w in s.threads && (s.threads[w].WorkerTop? || s.threads[w].WorkerSelect?)
    ensures var s := After(Init(size, tz), acts);
            var run := s.threads[w].run;
            (s.sh.rt.closed[run] > 0 || run in s.sh.rt.cancelled) <==>
                && Enabled(s, Do(w)) && w !in Step(s, Do(w)).threads
                && Step(s, Do(w)).sh.wg == s.sh.wg - 1
  {
  }

  // The tasks in a queue, oldest first.
  function Tasks(queue: seq<Queued>): seq<nat> {
    seq(|queue|, i requires 0 <= i < |queue| => queue[i].task)
  }

  // The tasks that were taken from this queue so far, in order.
  function Taken(ran: seq<Ran>, q: nat): seq<nat> {
    if ran == [] then []
    else
      var n := |ran| - 1;
      Taken(ran[..n], q) + (if ran[n].put == q then [ran[n].task] else [])
  }

  // The tasks that were sent to this queue while there was room, in order.
  ghost function SentTo(s: State, acts: seq<Action>, q: nat): seq<nat>
    requires Possible(s, acts)
    decreases |acts|
  {
    if acts == [] then [] else SentBy(s, acts[0], q) + SentTo(Step(s, acts[0]), acts[1..], q)
  }

  function Sent(sh: Shared, pc: Pc, q: nat): seq<Queued> {
    if pc.EnqSend? && pc.into == q && q in sh.rt.queues && |sh.rt.queues[q]| < 256 then [Queued(pc.task, q)] else []
  }

  function SentBy(s: State, a: Action, q: nat): seq<nat> {
    if a.Do? && a.t in s.threads then Tasks(Sent(s.sh, s.threads[a.t], q)) else []
  }

  // The tasks taken from the queue and those still in it.
  function Passed(sh: Shared, q: nat): seq<nat> {
    Taken(sh.aux.ran, q) + (if q in sh.rt.queues then Tasks(sh.rt.queues[q]) else [])
  }

  lemma OtherQueues(sh: Shared, t: nat, pc: Pc)
    requires !pc.EnqSend? && !pc.StartEnter?
    ensures Body(sh, t, pc).sh.rt.queues == sh.rt.queues
  {
  }

  lemma StartQueues(sh: Shared, q: nat)
    requires Ids(sh)
    ensures var e := StartSection(sh);
            && (q in sh.rt.queues ==> q in e.sh.rt.queues && e.sh.rt.queues[q] == sh.rt.queues[q])
            && (q !in sh.rt.queues && q in e.sh.rt.queues ==> e.sh.rt.queues[q] == [])
  {
  }

  lemma SendQueues(sh: Shared, task: nat, from: Option<nat>, into: nat, q: nat)
    ensures var e := SendStep(sh, task, into);
            && (q in sh.rt.queues <==> q in e.sh.rt.queues)
            && (q in sh.rt.queues ==>
                  e.sh.rt.queues[q] == sh.rt.queues[q] + Sent(sh, EnqSend(task, from, into), q))
  {
  }

  lemma BodyPasses(sh: Shared, t: nat, pc: Pc, q: nat)
    requires Ids(sh)
    ensures var e := Body(sh, t, pc);
            && (q in sh.rt.queues ==> q in e.sh.rt.queues && e.sh.rt.queues[q] == sh.rt.queues[q] + Sent(sh, pc, q))
            && (q !in sh.rt.queues && q in e.sh.rt.queues ==> e.sh.rt.queues[q] == [])
  {
    match pc
    case EnqSend(task, from, into) => SendQueues(sh, task, from, into, q);
    case StartEnter => StartQueues(sh, q);
    case _ => OtherQueues(sh, t, pc);
  }

  lemma TasksAppend(a: seq<Queued>, b: seq<Queued>)
    ensures Tasks(a + b) == Tasks(a) + Tasks(b)
  {
  }

  lemma TakePasses(s: State, t: nat, q: nat)
    requires Inv(s) && Enabled(s, Take(t))
    ensures Passed(Step(s, Take(t)).sh, q) == Passed(s.sh, q)
  {
    var s', run := Step(s, Take(t)), s.threads[t].run;
    var head, rest := s.sh.rt.queues[run][0], s.sh.rt.queues[run][1..];
    var line := Ran(head.task, head.put, run, s.sh.svc.stopCh);
    assert head.put == run;
    assert s'.sh.aux.ran == s.sh.aux.ran + [line] && s'.sh.aux.ran[..|s.sh.aux.ran|] == s.sh.aux.ran;
    assert Taken(s'.sh.aux.ran, q) == Taken(s.sh.aux.ran, q) + if run == q then [head.task] else [];
    if run == q {
      assert s.sh.rt.queues[q] == [head] + rest;
      TasksAppend([head], rest);
      assert Tasks([head]) == [head.task];
    }
  }

  lemma DoPasses(sh: Shared, sh': Shared, sent: seq<Queued>, q: nat)
    requires sh'.aux.ran == sh.aux.ran
    requires if q in sh.rt.queues then q in sh'.rt.queues && sh'.rt.queues[q] == sh.rt.queues[q] + sent
             else sent == [] && (q in sh'.rt.queues ==> sh'.rt.queues[q] == [])
    ensures Passed(sh', q) == Passed(sh, q) + Tasks(sent)
  {
    if q in sh.rt.queues {
      TasksAppend(sh.rt.queues[q], sent);
    }
  }

  lemma StepPasses(s: State, a: Action, q: nat)
    requires Inv(s) && Enabled(s, a)
    ensures Passed(Step(s, a).sh, q) == Passed(s.sh, q) + SentBy(s, a, q)
  {
    match a
    case Do(t) =>
      BodyPasses(s.sh, t, s.threads[t], q);
      BodyOver(s.sh, t, s.threads[t]);
      DoPasses(s.sh, Body(s.sh, t, s.threads[t]).sh, Sent(s.sh, s.threads[t], q), q);
    case Take(t) => TakePasses(s, t, q);
    case _ =>
  }

  lemma {:induction false} RunPasses(s: State, acts: seq<Action>, q: nat)
    requires Inv(s) && Possible(s, acts)
    ensures Passed(After(s, acts).sh, q) == Passed(s.sh, q) + SentTo(s, acts, q)
    decreases |acts|
  {
    if acts != [] {
      StepPasses(s, acts[0], q);
      StepInv(s, acts[0]);
      RunPasses(Step(s, acts[0]), acts[1..], q);
      Regroup(Passed(s.sh, q), SentBy(s, acts[0], q), SentTo(Step(s, acts[0]), acts[1..], q));
    }
  }

  lemma Regroup(a: seq<nat>, b: seq<nat>, c: seq<nat>)
    ensures a + b + c == a + (b + c)
  {
  }

  // In every run the tasks taken from a queue, followed by those in it, are the tasks that were sent to it
  // while there was room, in the order they were sent: none is lost, repeated or overtaken inside.
  lemma TakenInOrder(size: int, tz: nat, acts: seq<Action>, q: nat)
    requires Possible(Init(size, tz), acts)
    ensures Passed(After(Init(size, tz), acts).sh, q) == SentTo(Init(size, tz), acts, q)
  {
    InitInv(size, tz);
    RunPasses(Init(size, tz), acts, q);
  }
}
