/**
What becomes of a task that is handed to enqueue, by a cron function or by the callback of a one-time
timer. enqueue drops it when the service is stopped or the queue is full, and a run that ends takes what
is left in its queue with it.
*/
module LifecycleDelivery {
  import opened Wrappers
  import opened SchedulerLifecycle
  import opened LifecycleSafety

  // ----- the queue that a task is sent to exists -----

  predicate SendOk(sh: Shared, pc: Pc) {
    pc.EnqSend? ==> pc.into in sh.rt.queues
  }

  ghost predicate SendsOk(s: State) {
    forall t :: t in s.threads ==> SendOk(s.sh, s.threads[t])
  }

  lemma BodySends(sh: Shared, t: nat, pc: Pc)
    requires Phases(sh)
    ensures var e := Body(sh, t, pc);
            && (e.next.Some? ==> SendOk(e.sh, e.next.value))
            && (forall t2 :: t2 in e.spawned ==> !e.spawned[t2].EnqSend?)
            && sh.rt.queues.Keys <= e.sh.rt.queues.Keys
  {
  }

  lemma CommitSends(s: State, t: nat, e: Effect)
    requires SendsOk(s) && s.sh.rt.queues.Keys <= e.sh.rt.queues.Keys
    requires (e.next.Some? ==> SendOk(e.sh, e.next.value)) && forall t2 :: t2 in e.spawned ==> !e.spawned[t2].EnqSend?
    ensures SendsOk(Commit(s.threads, t, e))
  {
  }

  lemma StepSends(s: State, a: Action)
    requires Inv(s) && SendsOk(s) && Enabled(s, a)
    ensures SendsOk(Step(s, a))
  {
    if a.Do? {
      BodySends(s.sh, a.t, s.threads[a.t]);
      CommitSends(s, a.t, Body(s.sh, a.t, s.threads[a.t]));
    } else if a.Take? {
      CommitSends(s, a.t, TakeBody(s.sh, s.threads[a.t].run));
    }
  }

  lemma {:induction false} RunSends(s: State, acts: seq<Action>)
    requires Inv(s) && SendsOk(s) && Possible(s, acts)
    ensures SendsOk(After(s, acts))
    decreases |acts|
  {
    if acts != [] {
      StepSends(s, acts[0]);
      StepInv(s, acts[0]);
      RunSends(Step(s, acts[0]), acts[1..]);
    }
  }

  // ----- reaching a queue -----

  // The thread is past the lock, on its way to this queue.
  predicate Sending(s: State, t: nat, task: nat, q: nat) {
    t in s.threads && s.threads[t].EnqSend? && s.threads[t].task == task && s.threads[t].into == q
  }

  // In every reachable state a task that is handed over gets past the lock exactly if the service is not
  // stopped at that moment, and then it is bound for the queue of the run that is current.
  lemma EnqueueReaches(size: int, tz: nat, acts: seq<Action>, t: nat, task: nat, from: Option<nat>)
    requires Possible(Init(size, tz), acts)
    requires var s := After(Init(size, tz), acts);
             t in s.threads && s.threads[t] == EnqEnter(task, from) && s.sh.mu == Some(t)
    ensures var s := After(Init(size, tz), acts);
            && Enabled(s, Do(t))
            && ((exists q: nat :: Sending(Step(s, Do(t)), t, task, q)) <==> !Stopped(s.sh))
            && (forall q: nat :: Sending(Step(s, Do(t)), t, task, q) ==> s.sh.svc.stopCh == Some(q))
  {
    InitInv(size, tz);
    RunInv(Init(size, tz), acts);
    EnqueueStep(After(Init(size, tz), acts), t, task, from);
  }

  lemma EnqueueStep(s: State, t: nat, task: nat, from: Option<nat>)
    requires Inv(s) && t in s.threads && s.threads[t] == EnqEnter(task, from) && s.sh.mu == Some(t)
    ensures Enabled(s, Do(t))
    ensures (exists q: nat :: Sending(Step(s, Do(t)), t, task, q)) <==> !Stopped(s.sh)
    ensures forall q: nat :: Sending(Step(s, Do(t)), t, task, q) ==> s.sh.svc.stopCh == Some(q)
  {
    if s.sh.svc.queue.Some? {
      assert Sending(Step(s, Do(t)), t, task, s.sh.svc.queue.value);
    }
  }

  // Then it enters that queue, behind everything in it, exactly if there is room when it is sent; otherwise
  // no queue changes.
  lemma SendReaches(size: int, tz: nat, acts: seq<Action>, t: nat, task: nat, q: nat)
    requires Possible(Init(size, tz), acts) && Sending(After(Init(size, tz), acts), t, task, q)
    ensures var s := After(Init(size, tz), acts);
            && Enabled(s, Do(t)) && q in s.sh.rt.queues
            && var before, after := s.sh.rt.queues, Step(s, Do(t)).sh.rt.queues;
               && (after == before[q := before[q] + [Queued(task, q)]] <==> |before[q]| < 256)
               && (after == before <==> |before[q]| == 256)
  {
    var s := After(Init(size, tz), acts);
    InitInv(size, tz);
    RunInv(Init(size, tz), acts);
    RunSends(Init(size, tz), acts);
    assert SendOk(s.sh, s.threads[t]);
    var before, after := s.sh.rt.queues, Step(s, Do(t)).sh.rt.queues;
    assert |before[q] + [Queued(task, q)]| == |before[q]| + 1;
    if |before[q]| < 256 {
      assert after[q] == before[q] + [Queued(task, q)];
    }
  }

  // ----- what is left behind -----

  predicate Over(s: State, q: nat) {
    q < s.sh.rt.nextId && s.sh.svc.stopCh != Some(q)
  }

  // From this index on no task of that queue was taken.
  predicate NoneTaken(ran: seq<Ran>, from: nat, q: nat) {
    forall i :: from <= i < |ran| ==> ran[i].put != q
  }

  lemma BodyOver(sh: Shared, t: nat, pc: Pc)
    ensures var e := Body(sh, t, pc);
            && sh.rt.nextId <= e.sh.rt.nextId && e.sh.aux.ran == sh.aux.ran
            && (e.sh.svc.stopCh == sh.svc.stopCh || e.sh.svc.stopCh == None || e.sh.svc.stopCh == Some(sh.rt.nextId))
  {
  }

  lemma StepOver(s: State, a: Action, q: nat, from: nat)
    requires Inv(s) && Enabled(s, a) && Over(s, q) && NoneTaken(s.sh.aux.ran, from, q)
    ensures Over(Step(s, a), q) && NoneTaken(Step(s, a).sh.aux.ran, from, q)
  {
    if a.Do? {
      BodyOver(s.sh, a.t, s.threads[a.t]);
    } else if a.Take? {
      assert Local(s.sh, a.t, s.threads[a.t]);
    }
  }

  // Once a run is not the current one any more, none of the tasks in its queue is ever executed, whatever
  // happens next; tasks sent to it late are lost as well.
  lemma {:induction false} OverTakesNothing(s: State, acts: seq<Action>, q: nat, from: nat)
    requires Inv(s) && Possible(s, acts) && Over(s, q) && NoneTaken(s.sh.aux.ran, from, q)
    ensures Over(After(s, acts), q) && NoneTaken(After(s, acts).sh.aux.ran, from, q)
    decreases |acts|
  {
    if acts != [] {
      StepOver(s, acts[0], q, from);
      StepInv(s, acts[0]);
      OverTakesNothing(Step(s, acts[0]), acts[1..], q, from);
    }
  }

  // So a task that is queued or on its way when its run ends is lost.
  lemma EndedRunLoses(size: int, tz: nat, acts: seq<Action>, later: seq<Action>, q: nat)
    requires Possible(Init(size, tz), acts) && Over(After(Init(size, tz), acts), q)
    requires Possible(After(Init(size, tz), acts), later)
    ensures var s := After(Init(size, tz), acts);
            NoneTaken(After(s, later).sh.aux.ran, |s.sh.aux.ran|, q)
  {
    InitInv(size, tz);
    RunInv(Init(size, tz), acts);
    var s := After(Init(size, tz), acts);
    OverTakesNothing(s, later, q, |s.sh.aux.ran|);
  }
}
