/**
Deadlock freedom of the scheduler service, and the one deadlock it has.

restartLocked waits for the in-flight functions of the old cron while it holds s.mu, and each of
those functions needs s.mu to reach the queue. Doomed names that situation. Outside it some thread
can always move; inside it the mutex is never released again.
*/
module LifecycleProgress {
  import opened Wrappers
  import opened SchedulerLifecycle
  import opened LifecycleSafety

  // Something a thread of the service does by itself, as opposed to a new call, a firing, a context
  // ending or a caller giving up.
  predicate Internal(a: Action) {
    a.Acquire? || a.Do? || a.Take? || a.Skip?
  }

  // A worker of a live run with nothing to take is the only thread that may stay where it is.
  predicate Unfinished(sh: Shared, pc: Pc) {
    pc.WorkerSelect? ==> Over(sh, pc.run) || CanTake(sh, pc.run)
  }

  ghost predicate DoomedBy(s: State, holder: nat, fn: nat) {
    && holder in s.threads && fn in s.threads
    && s.threads[holder].ApplyWait? && s.sh.mu == Some(holder)
    && s.threads[fn].EnqEnter? && s.threads[fn].from == Some(s.threads[holder].prev)
  }

  ghost predicate Doomed(s: State) {
    exists holder, fn :: DoomedBy(s, holder, fn)
  }

  ghost predicate CanMove(s: State) {
    exists a :: Internal(a) && Enabled(s, a)
  }

  lemma Moves(s: State, a: Action)
    requires Internal(a) && Enabled(s, a)
    ensures CanMove(s)
  {
  }

  // ----- who can move -----

  lemma TmuHolderMoves(s: State, t: nat)
    requires Inv(s) && s.sh.tmu == Some(t)
    ensures CanMove(s)
  {
    assert Local(s.sh, t, s.threads[t]);
    Moves(s, Do(t));
  }

  lemma TmuWaiterMoves(s: State, t: nat)
    requires Inv(s) && t in s.threads && TmuEntry(s.threads[t])
    ensures CanMove(s)
  {
    if s.sh.tmu.Some? {
      TmuHolderMoves(s, s.sh.tmu.value);
    } else {
      Moves(s, Acquire(t, Tmu));
    }
  }

  // A cron function before its test goes on or ends; past the lock of enqueue it sends and ends.
  lemma SenderMoves(s: State, t: nat)
    requires t in s.threads && (s.threads[t].EnqSend? || s.threads[t].FnStart?)
    ensures CanMove(s)
  {
    Moves(s, Do(t));
  }

  lemma RestartMoves(s: State, t: nat)
    requires t in s.threads && s.threads[t].ApplyWait? && s.sh.mu == Some(t) && !Doomed(s)
    ensures CanMove(s)
  {
    var c := s.threads[t].prev;
    if InFlight(s, c) {
      var f :| f in s.threads && InFlightOf(s.threads[f]) == Some(c);
      assert !DoomedBy(s, t, f);
      SenderMoves(s, f);
    } else {
      Moves(s, Do(t));
    }
  }

  lemma MuHolderMoves(s: State, t: nat)
    requires Inv(s) && !Doomed(s) && s.sh.mu == Some(t)
    ensures CanMove(s)
  {
    assert Local(s.sh, t, s.threads[t]);
    if s.threads[t].StartTimers? {
      TmuWaiterMoves(s, t);
    } else if s.threads[t].ApplyWait? {
      RestartMoves(s, t);
    } else {
      assert MuEntry(s.threads[t]) && !TmuEntry(s.threads[t]);
      Moves(s, Do(t));
    }
  }

  lemma MuWaiterMoves(s: State, t: nat)
    requires Inv(s) && !Doomed(s) && t in s.threads && MuEntry(s.threads[t])
    ensures CanMove(s)
  {
    if s.sh.mu.Some? {
      MuHolderMoves(s, s.sh.mu.value);
    } else {
      Moves(s, Acquire(t, Mu));
    }
  }

  lemma WorkerOfEndedRunMoves(s: State, t: nat)
    requires Inv(s) && !Doomed(s) && t in s.threads && IsWorker(s.threads[t])
    requires Over(s.sh, s.threads[t].run)
    ensures CanMove(s)
  {
    if s.threads[t].WorkerLock? {
      MuWaiterMoves(s, t);
    } else {
      Moves(s, Do(t));
    }
  }

  lemma InFlightMoves(s: State, t: nat)
    requires Inv(s) && !Doomed(s) && t in s.threads && InFlightOf(s.threads[t]).Some?
    ensures CanMove(s)
  {
    if s.threads[t].EnqSend? || s.threads[t].FnStart? {
      SenderMoves(s, t);
    } else {
      MuWaiterMoves(s, t);
    }
  }

  lemma ChargeMoves(s: State, t: nat)
    requires Inv(s) && !Doomed(s) && t in s.threads && s.threads[t].Charge?
    ensures CanMove(s)
  {
    var pc := s.threads[t];
    assert Local(s.sh, t, pc);
    match pc.stage
    case Timers => TmuWaiterMoves(s, t);
    case Finalize => MuWaiterMoves(s, t);
    case Drain =>
      if pc.captured.Some? && InFlight(s, pc.captured.value) {
        var f :| f in s.threads && InFlightOf(s.threads[f]) == pc.captured;
        InFlightMoves(s, f);
      } else {
        Moves(s, Do(t));
      }
    case Join =>
      if s.sh.wg == 0 {
        Moves(s, Do(t));
      } else {
        assert |Workers(s.threads)| > 0;
        var w :| w in Workers(s.threads);
        assert Local(s.sh, w, s.threads[w]);
        WorkerOfEndedRunMoves(s, w);
      }
    case _ => Moves(s, Do(t));
  }

  // Waiting on a done channel: either it is closed, or its closer is still at work.
  lemma DoneWaiterMoves(s: State, t: nat)
    requires Inv(s) && !Doomed(s) && t in s.threads
    requires s.threads[t].StartWait? || s.threads[t].StopWait?
    ensures CanMove(s)
  {
    var d := s.threads[t].done;
    assert Local(s.sh, t, s.threads[t]);
    if s.sh.rt.doneClosed[d] > 0 {
      Moves(s, Do(t));
    } else {
      var closer := s.sh.aux.stops[d].closer;
      assert CloserOf(s.threads, closer, d);
      if s.threads[closer].Charge? {
        ChargeMoves(s, closer);
      } else {
        Moves(s, Do(closer));
      }
    }
  }

  // Outside the doomed situation an unfinished thread never leaves the whole service stuck.
  lemma UnfinishedMeansProgress(s: State, t: nat)
    requires Inv(s) && !Doomed(s) && t in s.threads && Unfinished(s.sh, s.threads[t])
    ensures CanMove(s)
  {
    var pc := s.threads[t];
    assert Local(s.sh, t, pc);
    if MuEntry(pc) {
      MuWaiterMoves(s, t);
    } else if MuInside(pc) {
      MuHolderMoves(s, t);
    } else if TmuEntry(pc) {
      TmuWaiterMoves(s, t);
    } else if pc.Charge? {
      ChargeMoves(s, t);
    } else if pc.StartWait? || pc.StopWait? {
      DoneWaiterMoves(s, t);
    } else if pc.WorkerSelect? && !Over(s.sh, pc.run) {
      Moves(s, Take(t));
    } else {
      Moves(s, Do(t));
    }
  }

  // In every reachable state with an unfinished thread, some thread can take a step, unless an Apply
  // with another timezone is waiting for a cron function that has not got past enqueue's lock.
  lemma NoDeadlock(size: int, tz: nat, acts: seq<Action>, t: nat)
    requires Possible(Init(size, tz), acts)
    requires var s := After(Init(size, tz), acts); t in s.threads && Unfinished(s.sh, s.threads[t]) && !Doomed(s)
    ensures CanMove(After(Init(size, tz), acts))
  {
    InitInv(size, tz);
    RunInv(Init(size, tz), acts);
    UnfinishedMeansProgress(After(Init(size, tz), acts), t);
  }

  // ----- runs that keep the timezone -----

  // An Apply that finds another timezone configured.
  predicate ChangesTz(s: State, a: Action) {
    a.Do? && a.t in s.threads && s.threads[a.t].ApplyEnter? && s.threads[a.t].tz != s.sh.svc.tz
  }

  ghost predicate KeepsTz(s: State, acts: seq<Action>)
    requires Possible(s, acts)
    decreases |acts|
  {
    acts == [] || (!ChangesTz(s, acts[0]) && KeepsTz(Step(s, acts[0]), acts[1..]))
  }

  predicate NoRestart(threads: map<nat, Pc>) {
    forall t :: t in threads ==> !threads[t].ApplyWait?
  }

  lemma BodyNoRestart(sh: Shared, t: nat, pc: Pc)
    requires !pc.ApplyWait? && !(pc.ApplyEnter? && pc.tz != sh.svc.tz)
    ensures Body(sh, t, pc).next.Some? ==> !Body(sh, t, pc).next.value.ApplyWait?
    ensures NoRestart(Body(sh, t, pc).spawned)
  {
  }

  lemma StepNoRestart(s: State, a: Action)
    requires NoRestart(s.threads) && Enabled(s, a) && !ChangesTz(s, a)
    ensures NoRestart(Step(s, a).threads)
  {
    if a.Do? {
      BodyNoRestart(s.sh, a.t, s.threads[a.t]);
    }
  }

  lemma {:induction false} RunNoRestart(s: State, acts: seq<Action>)
    requires NoRestart(s.threads) && Possible(s, acts) && KeepsTz(s, acts)
    ensures NoRestart(After(s, acts).threads)
    decreases |acts|
  {
    if acts != [] {
      StepNoRestart(s, acts[0]);
      RunNoRestart(Step(s, acts[0]), acts[1..]);
    }
  }

  // In every run without a timezone-changing Apply some thread can go on as long as one is unfinished.
  lemma NeverStuck(size: int, tz: nat, acts: seq<Action>, t: nat)
    requires Possible(Init(size, tz), acts) && KeepsTz(Init(size, tz), acts)
    requires var s := After(Init(size, tz), acts); t in s.threads && Unfinished(s.sh, s.threads[t])
    ensures CanMove(After(Init(size, tz), acts))
  {
    RunNoRestart(Init(size, tz), acts);
    NoDeadlock(size, tz, acts, t);
  }

  // ----- the deadlock -----

  // Only the owner of s.mu gives it back.
  lemma OthersLeaveMu(sh: Shared, t: nat, pc: Pc)
    requires SharedGuard(sh, t, pc) && sh.mu.Some? && sh.mu != Some(t)
    ensures Body(sh, t, pc).sh.mu == sh.mu
  {
  }

  lemma DoomedStep(s: State, a: Action, holder: nat, fn: nat)
    requires Inv(s) && DoomedBy(s, holder, fn) && Enabled(s, a)
    ensures DoomedBy(Step(s, a), holder, fn)
  {
    assert Local(s.sh, holder, s.threads[holder]) && Local(s.sh, fn, s.threads[fn]);
    match a
    case Do(t) =>
      assert InFlight(s, s.threads[holder].prev);
      assert t != holder && t != fn;
      OthersLeaveMu(s.sh, t, s.threads[t]);
      SpawnedNew(s, t);
    case _ =>
  }

  // Once doomed, always doomed: the mutex stays with the waiting Apply whatever anybody does.
  lemma {:induction false} DoomedForever(s: State, acts: seq<Action>, holder: nat, fn: nat)
    requires Inv(s) && DoomedBy(s, holder, fn) && Possible(s, acts)
    ensures DoomedBy(After(s, acts), holder, fn)
    decreases |acts|
  {
    if acts != [] {
      DoomedStep(s, acts[0], holder, fn);
      StepInv(s, acts[0]);
      DoomedForever(Step(s, acts[0]), acts[1..], holder, fn);
    }
  }

  // ----- runs that get there -----

  ghost predicate Reaches(s: State, s': State) {
    exists acts :: Possible(s, acts) && After(s, acts) == s'
  }

  lemma {:induction false} Append(s: State, acts: seq<Action>, a: Action)
    requires Possible(s, acts) && Enabled(After(s, acts), a)
    ensures Possible(s, acts + [a]) && After(s, acts + [a]) == Step(After(s, acts), a)
    decreases |acts|
  {
    if acts == [] {
      assert acts + [a] == [a];
      assert Possible(Step(s, a), []);
    } else {
      Append(Step(s, acts[0]), acts[1..], a);
      assert (acts + [a])[1..] == acts[1..] + [a];
    }
  }

  lemma ReachesNext(s: State, s1: State, a: Action)
    requires Reaches(s, s1) && Enabled(s1, a)
    ensures Reaches(s, Step(s1, a))
  {
    var acts :| Possible(s, acts) && After(s, acts) == s1;
    Append(s, acts, a);
  }

  // One step of a thread that goes on and spawns nothing.
  function Moved(s: State, t: nat, sh: Shared, pc: Pc): State {
    State(sh, s.threads[t := pc])
  }

  lemma ReachesMoved(s0: State, s: State, t: nat, sh: Shared, pc: Pc)
    requires Reaches(s0, s) && t in s.threads && Ready(s, t)
    requires Body(s.sh, t, s.threads[t]) == Goes(sh, pc)
    ensures Reaches(s0, Moved(s, t, sh, pc))
  {
    ReachesNext(s0, s, Do(t));
    assert Step(s, Do(t)).threads == Moved(s, t, sh, pc).threads;
  }

  lemma ReachesLocked(s0: State, s: State, t: nat, lock: Lock)
    requires Reaches(s0, s) && Enabled(s, Acquire(t, lock))
    ensures Reaches(s0, State(if lock == Mu then s.sh.(mu := Some(t)) else s.sh.(tmu := Some(t)), s.threads))
  {
    ReachesNext(s0, s, Acquire(t, lock));
  }

  // A call of the API gets s.mu at once if it is free.
  function Entered(s: State, pc: Pc): State {
    var t := s.sh.rt.nextTid;
    State(s.sh.(mu := Some(t), rt := s.sh.rt.(nextTid := t + 1)), s.threads[t := pc])
  }

  lemma ReachesEntered(s0: State, s: State, pc: Pc)
    requires Reaches(s0, s) && Callable(pc) && MuEntry(pc) && s.sh.mu.None?
    ensures Reaches(s0, Entered(s, pc))
  {
    ReachesNext(s0, s, Call(pc));
    var s1 := Spawned(s, pc);
    ReachesLocked(s0, s1, s.sh.rt.nextTid, Mu);
    assert s1.sh.(mu := Some(s.sh.rt.nextTid)) == Entered(s, pc).sh;
  }

  // And runs its section.
  lemma ReachesSection(s0: State, s: State, pc: Pc, e: Effect)
    requires Reaches(s0, s) && Callable(pc) && MuEntry(pc) && s.sh.mu.None? && Draining(pc).None?
    requires !pc.StartWait? && !pc.StopWait? && e == Body(Entered(s, pc).sh, s.sh.rt.nextTid, pc)
    requires TmuEntry(pc) ==> s.sh.tmu == Some(s.sh.rt.nextTid)
    ensures Reaches(s0, Commit(s.threads[s.sh.rt.nextTid := pc], s.sh.rt.nextTid, e))
  {
    ReachesEntered(s0, s, pc);
    ReachesNext(s0, Entered(s, pc), Do(s.sh.rt.nextTid));
  }

  lemma ReachesEnded(s0: State, s: State, t: nat, sh: Shared)
    requires Reaches(s0, s) && t in s.threads && Ready(s, t)
    requires Body(s.sh, t, s.threads[t]) == Ends(sh)
    ensures Reaches(s0, State(sh, s.threads - {t}))
  {
    ReachesNext(s0, s, Do(t));
    assert Step(s, Do(t)).threads == s.threads - {t};
  }

  // The first three steps of the thread in charge of a stop: close, cancel, stop the captured cron.
  function WoundDown(s: State, t: nat, run: nat, done: nat, c: nat): State {
    State(s.sh.(rt := s.sh.rt.(closed := s.sh.rt.closed + multiset{run},
                               cancelled := s.sh.rt.cancelled + {run},
                               crons := s.sh.rt.crons[c := false]),
                aux := s.sh.aux.(retiring := None)),
          s.threads[t := Charge(Drain, run, done, Some(c))])
  }

  // Its first two: close, cancel.
  function Signalled(sh: Shared, run: nat): Shared {
    sh.(rt := sh.rt.(closed := sh.rt.closed + multiset{run}, cancelled := sh.rt.cancelled + {run}))
  }

  lemma ReachesSignalled(s0: State, s: State, t: nat, run: nat, done: nat, c: nat)
    requires Reaches(s0, s) && t in s.threads && s.threads[t] == Charge(Close, run, done, Some(c))
    ensures Reaches(s0, Moved(s, t, Signalled(s.sh, run), Charge(CronStop, run, done, Some(c))))
  {
    var sh1 := s.sh.(rt := s.sh.rt.(closed := s.sh.rt.closed + multiset{run}));
    ReachesMoved(s0, s, t, sh1, Charge(Cancel, run, done, Some(c)));
    var s1 := Moved(s, t, sh1, Charge(Cancel, run, done, Some(c)));
    ReachesMoved(s0, s1, t, Signalled(s.sh, run), Charge(CronStop, run, done, Some(c)));
    assert s1.threads[t := Charge(CronStop, run, done, Some(c))] ==
        s.threads[t := Charge(CronStop, run, done, Some(c))];
  }

  lemma ReachesWoundDown(s0: State, s: State, t: nat, run: nat, done: nat, c: nat)
    requires Reaches(s0, s) && t in s.threads && s.threads[t] == Charge(Close, run, done, Some(c))
    ensures Reaches(s0, WoundDown(s, t, run, done, c))
  {
    ReachesSignalled(s0, s, t, run, done, c);
    var s2 := Moved(s, t, Signalled(s.sh, run), Charge(CronStop, run, done, Some(c)));
    ReachesMoved(s0, s2, t, WoundDown(s, t, run, done, c).sh, Charge(Drain, run, done, Some(c)));
    assert s2.threads[t := Charge(Drain, run, done, Some(c))] == WoundDown(s, t, run, done, c).threads;
  }

  // Its next two: the drained cron, the timers.
  lemma ReachesCleared(s0: State, s: State, t: nat, run: nat, done: nat, c: nat)
    requires Reaches(s0, s) && t in s.threads && s.threads[t] == Charge(Drain, run, done, Some(c))
    requires !InFlight(s, c) && s.sh.tmu.None?
    ensures Reaches(s0, Moved(s, t, s.sh, Charge(Spawn, run, done, Some(c))))
  {
    ReachesMoved(s0, s, t, s.sh, Charge(Timers, run, done, Some(c)));
    var s1 := Moved(s, t, s.sh, Charge(Timers, run, done, Some(c)));
    ReachesLocked(s0, s1, t, Tmu);
    var s2 := State(s.sh.(tmu := Some(t)), s1.threads);
    ReachesMoved(s0, s2, t, s.sh, Charge(Spawn, run, done, Some(c)));
    assert s2.threads[t := Charge(Spawn, run, done, Some(c))] == s.threads[t := Charge(Spawn, run, done, Some(c))];
  }

  // Then it hands over to a finalizer and waits.
  function HandedOver(s: State, t: nat, run: nat, done: nat, c: nat): State {
    var f := s.sh.rt.nextTid;
    State(s.sh.(rt := s.sh.rt.(nextTid := f + 1),
                aux := s.sh.aux.(stops := s.sh.aux.stops[done := StopInfo(run, f)])),
          s.threads[t := StopWait(done)][f := Charge(Join, run, done, Some(c))])
  }

  lemma ReachesHandedOver(s0: State, s: State, t: nat, run: nat, done: nat, c: nat)
    requires Reaches(s0, s) && t in s.threads && s.threads[t] == Charge(Spawn, run, done, Some(c))
    ensures Reaches(s0, HandedOver(s, t, run, done, c))
  {
    ReachesNext(s0, s, Do(t));
    assert Step(s, Do(t)).threads == HandedOver(s, t, run, done, c).threads;
  }

  // All of it at once.
  lemma ReachesJoin(s0: State, s: State, t: nat, run: nat, done: nat, c: nat)
    requires Reaches(s0, s) && t in s.threads && s.threads[t] == Charge(Close, run, done, Some(c))
    requires !InFlight(s, c) && s.sh.tmu.None?
    ensures Reaches(s0, State(HandedOver(WoundDown(s, t, run, done, c), t, run, done, c).sh,
                              s.threads[t := StopWait(done)][s.sh.rt.nextTid := Charge(Join, run, done, Some(c))]))
  {
    var s1 := WoundDown(s, t, run, done, c);
    ReachesWoundDown(s0, s, t, run, done, c);
    assert !InFlight(s1, c);
    ReachesCleared(s0, s1, t, run, done, c);
    var s2 := Moved(s1, t, s1.sh, Charge(Spawn, run, done, Some(c)));
    ReachesHandedOver(s0, s2, t, run, done, c);
    assert s2.threads[t := StopWait(done)] == s.threads[t := StopWait(done)];
  }

  // A service with two workers just after Start: run 0, cron 1, workers 1 and 2.
  function Started(tz: nat): State {
    State(Shared(None, None, Service(2, tz, Some(0), None, Some(0), Some(1)), 2,
                 Runtime(3, 2, map[0 := []], multiset{}, {}, multiset{}, map[1 := true]),
                 Aux(map[], None, false, {}, false, [])),
          map[1 := WorkerTop(0), 2 := WorkerTop(0)])
  }

  // The same while Start still holds s.mu, before it rebuilds the one-time timers.
  function Starting(tz: nat): State {
    Started(tz).(sh := Started(tz).sh.(mu := Some(0)), threads := Started(tz).threads[0 := StartTimers])
  }

  lemma StartingReachable(tz: nat)
    ensures Reaches(Init(2, tz), Starting(tz))
  {
    var s0 := Init(2, tz);
    assert Possible(s0, []) && After(s0, []) == s0;
    var e := StartSection(Entered(s0, StartEnter).sh);
    ReachesSection(s0, s0, StartEnter, e);
    StartEffect(tz, e);
  }

  lemma StartEffect(tz: nat, e: Effect)
    requires e == StartSection(Entered(Init(2, tz), StartEnter).sh)
    ensures Commit(Init(2, tz).threads[0 := StartEnter], 0, e) == Starting(tz)
  {
    assert Pool(1, 2, 0) == map[1 := WorkerTop(0), 2 := WorkerTop(0)];
    assert e.sh == Starting(tz).sh;
    assert Commit(map[0 := StartEnter], 0, e).threads == Starting(tz).threads;
  }

  lemma StartedReachable(tz: nat)
    ensures Reaches(Init(2, tz), Started(tz))
  {
    StartingReachable(tz);
    var s1 := Starting(tz);
    ReachesNext(Init(2, tz), s1, Acquire(0, Tmu));
    var s2 := Step(s1, Acquire(0, Tmu));
    ReachesNext(Init(2, tz), s2, Do(0));
    assert Step(s2, Do(0)).threads == Started(tz).threads;
  }

  // A live cron starts a function, which passes the test of its running flag.
  lemma ReachesFunction(s0: State, s: State, c: nat, task: nat)
    requires Reaches(s0, s) && c in s.sh.rt.crons && s.sh.rt.crons[c]
    ensures Reaches(s0, Spawned(s, EnqEnter(task, Some(c))))
  {
    var f := s.sh.rt.nextTid;
    var s1 := Spawned(s, FnStart(task, c));
    ReachesNext(s0, s, Fire(c, task));
    ReachesMoved(s0, s1, f, s1.sh, EnqEnter(task, Some(c)));
    assert s1.threads[f := EnqEnter(task, Some(c))] == Spawned(s, EnqEnter(task, Some(c))).threads;
  }

  // A service that runs a live cron can get stuck: a function of the cron starts, then an Apply
  // changes the timezone before the function reaches enqueue.
  lemma ReachesDoomed(s0: State, s: State, c: nat, task: nat, size: int, tz: nat)
    requires Reaches(s0, s) && s.sh.mu.None? && Running(s.sh) && s.sh.svc.cron == Some(c)
    requires c in s.sh.rt.crons && s.sh.rt.crons[c] && tz != s.sh.svc.tz
    ensures exists s' :: Reaches(s0, s') && Doomed(s')
  {
    var f := s.sh.rt.nextTid;
    ReachesFunction(s0, s, c, task);
    var s1 := Spawned(s, EnqEnter(task, Some(c)));
    var e := ApplySection(Entered(s1, ApplyEnter(size, tz)).sh, size, tz);
    ReachesSection(s0, s1, ApplyEnter(size, tz), e);
    var s2 := Commit(s1.threads[f + 1 := ApplyEnter(size, tz)], f + 1, e);
    assert s2.threads[f] == EnqEnter(task, Some(c)) && s2.threads[f + 1] == ApplyWait(c);
    assert DoomedBy(s2, f + 1, f);
  }

  lemma DeadlockReachable()
    ensures exists s :: Reaches(Init(2, 0), s) && Doomed(s)
  {
    StartedReachable(0);
    ReachesDoomed(Init(2, 0), Started(0), 1, 7, 2, 1);
  }

  // The states of one run: Stop has begun; an Apply with another timezone landed before its
  // finalizer; the finalizer waits and the workers are gone.
  function StopBegun(): State {
    State(Shared(None, None, Service(2, 0, Some(0), Some(2), Some(0), None), 2,
                 Runtime(4, 3, map[0 := []], multiset{}, {}, multiset{}, map[1 := true]),
                 Aux(map[2 := StopInfo(0, 3)], Some(1), false, {}, false, [])),
          map[1 := WorkerTop(0), 2 := WorkerTop(0), 3 := Charge(Close, 0, 2, Some(1))])
  }

  function Orphaned(): State {
    State(Shared(None, None, Service(2, 1, Some(0), Some(2), Some(0), Some(3)), 2,
                 Runtime(5, 4, map[0 := []], multiset{}, {}, multiset{}, map[1 := true, 3 := true]),
                 Aux(map[2 := StopInfo(0, 3)], Some(1), false, {3}, true, [])),
          map[1 := WorkerTop(0), 2 := WorkerTop(0), 3 := Charge(Close, 0, 2, Some(1))])
  }

  function Joining(): State {
    State(Shared(None, None, Orphaned().sh.svc, 2,
                 Runtime(6, 4, map[0 := []], multiset{0}, {0}, multiset{}, map[1 := false, 3 := true]),
                 Aux(map[2 := StopInfo(0, 5)], None, false, {3}, true, [])),
          map[1 := WorkerTop(0), 2 := WorkerTop(0), 3 := StopWait(2), 5 := Charge(Join, 0, 2, Some(1))])
  }

  function WorkersGone(): State {
    State(Joining().sh.(wg := 0), map[3 := StopWait(2), 5 := Charge(Join, 0, 2, Some(1))])
  }

  lemma StopBegunReachable(s0: State)
    requires Reaches(s0, Started(0))
    ensures Reaches(s0, StopBegun())
  {
    var e := StopSection(Entered(Started(0), StopEnter).sh, 3);
    ReachesSection(s0, Started(0), StopEnter, e);
    assert e.sh == StopBegun().sh;
    assert Commit(Started(0).threads[3 := StopEnter], 3, e).threads == StopBegun().threads;
  }

  lemma OrphanedReachable(s0: State)
    requires Reaches(s0, StopBegun())
    ensures Reaches(s0, Orphaned())
  {
    var e := ApplySection(Entered(StopBegun(), ApplyEnter(2, 1)).sh, 2, 1);
    ReachesSection(s0, StopBegun(), ApplyEnter(2, 1), e);
    assert e.sh == Orphaned().sh;
    assert Commit(StopBegun().threads[4 := ApplyEnter(2, 1)], 4, e).threads == Orphaned().threads;
  }

  lemma JoiningRuntime()
    ensures HandedOver(WoundDown(Orphaned(), 3, 0, 2, 1), 3, 0, 2, 1).sh.rt == Joining().sh.rt
  {
    var rt := HandedOver(WoundDown(Orphaned(), 3, 0, 2, 1), 3, 0, 2, 1).sh.rt;
    assert rt.closed == multiset{0} && rt.cancelled == {0};
    assert rt.crons == map[1 := false, 3 := true];
  }

  lemma JoiningAux()
    ensures HandedOver(WoundDown(Orphaned(), 3, 0, 2, 1), 3, 0, 2, 1).sh.aux == Joining().sh.aux
  {
    assert HandedOver(WoundDown(Orphaned(), 3, 0, 2, 1), 3, 0, 2, 1).sh.aux.stops == map[2 := StopInfo(0, 5)];
  }

  lemma JoiningReachable(s0: State)
    requires Reaches(s0, Orphaned())
    ensures Reaches(s0, Joining())
  {
    ReachesJoin(s0, Orphaned(), 3, 0, 2, 1);
    JoiningRuntime();
    JoiningAux();
    JoiningThreads();
  }

  lemma JoiningThreads()
    ensures Orphaned().threads[3 := StopWait(2)][5 := Charge(Join, 0, 2, Some(1))] == Joining().threads
    ensures Orphaned().sh.rt.nextTid == 5
  {
  }

  lemma WorkersGoneReachable(s0: State)
    requires Reaches(s0, Joining())
    ensures Reaches(s0, WorkersGone())
  {
    var s1 := Joining();
    ReachesEnded(s0, s1, 1, s1.sh.(wg := 1));
    var s2 := State(s1.sh.(wg := 1), s1.threads - {1});
    ReachesEnded(s0, s2, 2, s2.sh.(wg := 0));
    assert s2.threads - {2} == WorkersGone().threads;
  }

  lemma FinalizerLeavesCron(s0: State)
    requires Reaches(s0, WorkersGone())
    ensures exists s :: Reaches(s0, s) && Stopped(s.sh) && Live(s.sh, 3)
  {
    var s1 := WorkersGone();
    ReachesMoved(s0, s1, 5, s1.sh, Charge(Finalize, 0, 2, Some(1)));
    ReachesFinal(s0, Moved(s1, 5, s1.sh, Charge(Finalize, 0, 2, Some(1))), 5, 0, 2, Some(1));
  }

  lemma ReachesFinal(s0: State, s: State, t: nat, run: nat, done: nat, c: Option<nat>)
    requires Reaches(s0, s) && t in s.threads && s.threads[t] == Charge(Finalize, run, done, c)
    requires s.sh.mu.None? && Live(s.sh, 3)
    ensures exists s' :: Reaches(s0, s') && Stopped(s'.sh) && Live(s'.sh, 3)
  {
    ReachesLocked(s0, s, t, Mu);
    var s1 := State(s.sh.(mu := Some(t)), s.threads);
    var sh := s.sh.(svc := s.sh.svc.(stopCh := None, queue := None, stopDone := None));
    ReachesMoved(s0, s1, t, sh, FinClose(done));
    assert Stopped(Moved(s1, t, sh, FinClose(done)).sh);
  }

  lemma StoppedWithLiveCronReachable()
    ensures exists s :: Reaches(Init(2, 0), s) && Stopped(s.sh) && Live(s.sh, 3)
  {
    var s0 := Init(2, 0);
    StartedReachable(0);
    StopBegunReachable(s0);
    OrphanedReachable(s0);
    JoiningReachable(s0);
    WorkersGoneReachable(s0);
    FinalizerLeavesCron(s0);
  }
}
