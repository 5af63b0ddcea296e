/**
The five once-task maps of the Service object, updated in place. Each method is a section of code
that runs with s.tmu held, and is proved to have the effect the transition system gives it.

The Go runtime's timers are not memory of the program: callbacks and the auxiliary record are ghost.
*/
module OnceTables {
  import opened Wrappers
  import opened OnceTimers
  import Text

  class OnceTable {
    var timers: map<Name, TimerId>
    var onceAt: map<Name, int>
    var onceTimeout: map<Name, int>
    var onceJob: map<Name, Option<nat>>
    var onceVer: map<Name, nat>
    var batch: nat

    ghost var callbacks: map<TimerId, Callback>
    ghost var aux: Aux

    ghost function View(): State
      reads this
    {
      State(Table(timers, onceAt, onceTimeout, onceJob, onceVer), Runtime(callbacks, batch), aux)
    }

    constructor ()
      ensures View() == Init()
    {
      timers, onceAt, onceTimeout, onceJob, onceVer := map[], map[], map[], map[], map[];
      callbacks, batch := map[], 0;
      aux := Aux([], map[], map[], map[], map[], [], false);
    }

    // Timer.Stop; the program ignores its result.
    ghost method StopTimerOf(id: TimerId)
      modifies this`callbacks
      ensures Runtime(callbacks, batch) == StopTimer(Runtime(old(callbacks), batch), id)
    {
      if id in callbacks && callbacks[id].phase == Armed {
        callbacks := callbacks[id := callbacks[id].(phase := Dead)];
      }
    }

    // time.AfterFunc: the closure captures the name, in the id, and the version.
    ghost method AfterFunc(id: TimerId, ver: nat, def: nat, epoch: nat, adds: nat)
      modifies this`callbacks
      ensures callbacks == old(callbacks)[id := Callback(ver, Armed, def, epoch, adds)]
    {
      callbacks := callbacks[id := Callback(ver, Armed, def, epoch, adds)];
    }

    // A zero time is None; the timeout is resolved against the configured default already.
    method AddOnce(name: Name, at: Option<int>, timeout: int, job: Option<nat>) returns (ok: bool)
      modifies this
      ensures ok <==> name != "" && at.Some?
      ensures View() == if ok then OnceTimers.AddOnce(old(View()), Definition(name, at.value, timeout, job))
                        else old(View())
    {
      if name == "" || at.None? {
        return false;
      }
      ghost var s0, d := View(), Definition(name, at.value, timeout, job);
      var stopped := StopExisting(name);
      Define(name, at.value, timeout, job);
      aux := OnceTimers.AddOnce(s0, d).aux;
      assert View().tab == OnceTimers.AddOnce(s0, d).tab;
      ok := true;
    }

    method StopExisting(name: Name) returns (stopped: bool)
      modifies this`timers, this`callbacks
      ensures stopped <==> name in old(timers)
      ensures timers == old(timers) - {name}
      ensures Runtime(callbacks, batch)
              == StopNamed(Table(old(timers), onceAt, onceTimeout, onceJob, onceVer),
                           Runtime(old(callbacks), batch), name)
    {
      stopped := name in timers;
      if stopped {
        StopTimerOf(timers[name]);
        timers := timers - {name};
      }
    }

    method Define(name: Name, at: int, timeout: int, job: Option<nat>)
      modifies this`timers, this`onceAt, this`onceTimeout, this`onceJob, this`onceVer, this`callbacks, this`batch
      ensures onceVer == old(onceVer)[name := NextVersion(Get(old(onceVer), name))]
      ensures onceAt == old(onceAt)[name := at] && onceTimeout == old(onceTimeout)[name := timeout]
      ensures onceJob == old(onceJob)[name := job]
      ensures timers == old(timers)[name := TimerId(old(batch), name)] && batch == old(batch) + 1
      ensures callbacks == old(callbacks)[TimerId(old(batch), name) :=
                             Callback(onceVer[name], Armed, |aux.defs|, Get(aux.epoch, name), Get(aux.adds, name) + 1)]
    {
      var ver := NextVersion(if name in onceVer then onceVer[name] else 0);
      onceVer := onceVer[name := ver];
      onceAt := onceAt[name := at];
      onceTimeout := onceTimeout[name := timeout];
      onceJob := onceJob[name := job];
      var timer := TimerId(batch, name);
      AfterFunc(timer, ver, |aux.defs|, Get(aux.epoch, name), Get(aux.adds, name) + 1);
      timers := timers[name := timer];
      batch := batch + 1;
    }

    // The callback of a timer that fired, once it has the lock. Some task is to be enqueued.
    method OnFire(timer: TimerId, localVer: nat) returns (task: Option<Task>)
      requires timer in callbacks && callbacks[timer].ver == localVer
      modifies this
      ensures View() == RunCallback(old(View()), timer)
      ensures task.Some? <==> old(Passes(View(), timer))
      ensures task.Some? ==> var t := old(TaskOf(View(), timer));
              task.value.name == t.name && task.value.timeout == t.timeout && task.value.job == t.job
    {
      ghost var s0 := View();
      callbacks := callbacks[timer := callbacks[timer].(phase := Dead)];
      var name := timer.name;
      var curVer := if name in onceVer then onceVer[name] else 0;
      var jobNow := if name in onceJob then onceJob[name] else None;
      var timeoutNow := if name in onceTimeout then onceTimeout[name] else 0;
      if curVer != localVer || jobNow.None? || name !in onceAt {
        return None;
      }
      timers := timers - {name};
      onceAt := onceAt - {name};
      onceTimeout := onceTimeout - {name};
      onceJob := onceJob - {name};
      onceVer := onceVer - {name};
      aux := RunCallback(s0, timer).aux;
      task := Some(Task(0, name, timeoutNow, jobNow.value, timer));
    }

    // Remove's once-task half, on a name that is trimmed already and not empty.
    method Remove(name: Name) returns (removed: bool)
      requires name != ""
      modifies this
      ensures View() == RemoveNamed(old(View()), name)
      ensures old(Keys(View())) ==> (removed <==> name in old(onceAt))
    {
      ghost var s0 := View();
      var stopped := StopExisting(name);
      var dropped := DropDefinition(name);
      removed := stopped || dropped;
      aux := RemoveNamed(s0, name).aux;
      assert View().tab == RemoveNamed(s0, name).tab;
    }

    method DropDefinition(name: Name) returns (removed: bool)
      modifies this`onceAt, this`onceTimeout, this`onceJob, this`onceVer
      ensures removed <==>
                name in old(onceAt) || name in old(onceTimeout) || name in old(onceJob) || name in old(onceVer)
      ensures onceAt == old(onceAt) - {name} && onceTimeout == old(onceTimeout) - {name}
      ensures onceJob == old(onceJob) - {name} && onceVer == old(onceVer) - {name}
    {
      removed := false;
      if name in onceAt {
        onceAt := onceAt - {name};
        removed := true;
      }
      if name in onceTimeout {
        onceTimeout := onceTimeout - {name};
        removed := true;
      }
      if name in onceJob {
        onceJob := onceJob - {name};
        removed := true;
      }
      if name in onceVer {
        onceVer := onceVer - {name};
        removed := true;
      }
    }

    // Stop every timer in the map and start over with an empty one.
    method StopTimers()
      requires forall n :: n in timers ==> timers[n].name == n
      modifies this`callbacks, this`timers
      ensures timers == map[]
      ensures Runtime(callbacks, batch)
              == StopAll(Table(old(timers), onceAt, onceTimeout, onceJob, onceVer), Runtime(old(callbacks), batch))
    {
      var rest := timers.Keys;
      while rest != {}
        invariant rest <= timers.Keys && timers == old(timers)
        invariant callbacks.Keys == old(callbacks).Keys
        invariant forall id :: id in callbacks ==>
          callbacks[id] == if id.name in timers && timers[id.name] == id && id.name !in rest
                              && old(callbacks)[id].phase == Armed
                           then old(callbacks)[id].(phase := Dead) else old(callbacks)[id]
        decreases rest
      {
        var n :| n in rest;
        StopTimerOf(timers[n]);
        rest := rest - {n};
      }
      timers := map[];
    }

    // Stop's section under s.tmu.
    method Clear()
      requires Inv(View())
      modifies this
      ensures View() == ClearTimers(old(View()))
    {
      assert forall n :: n in timers ==> TimerOk(View(), n);
      StopTimers();
      aux := aux.(live := false);
    }

    // The tables when the loop of rebuildOnceTimersLocked, begun in s0 with all timers stopped, has
    // dealt with every name but the ones in rest.
    ghost predicate KeptSoFar(s0: State, rest: set<Name>)
      reads this`onceAt, this`onceTimeout, this`onceJob
    {
      var gone := Lost(s0.tab) - rest;
      onceAt == s0.tab.at - gone && onceTimeout == s0.tab.timeout - gone && onceJob == s0.tab.job - gone
    }

    ghost predicate VersionsSoFar(s0: State, rest: set<Name>)
      reads this`onceVer
    {
      && onceVer.Keys == s0.tab.ver.Keys - (Lost(s0.tab) - rest)
      && forall n :: n in onceVer ==>
           onceVer[n] == if n in rest then s0.tab.ver[n] else RebuiltVersion(s0.tab, n)
    }

    ghost predicate TimersSoFar(s0: State, cb1: map<TimerId, Callback>, rest: set<Name>)
      reads this`timers, this`callbacks, this`batch
    {
      && (forall n :: n in timers <==> n in Rearmed(s0, rest))
      && (forall n :: n in timers ==> timers[n] == TimerId(batch, n))
      && (forall id :: id in callbacks <==> id in cb1 || (id.batch == batch && id.name in Rearmed(s0, rest)))
      && (forall id :: id in callbacks ==>
            callbacks[id] == if id.batch == batch && id.name in Rearmed(s0, rest) then FreshCallback(s0, id.name)
                             else cb1[id])
    }

    ghost predicate Partway(s0: State, cb1: map<TimerId, Callback>, rest: set<Name>)
      reads this
    {
      && batch == s0.rt.batch && aux == s0.aux
      && KeptSoFar(s0, rest) && VersionsSoFar(s0, rest) && TimersSoFar(s0, cb1, rest)
    }

    ghost function Rearmed(s0: State, rest: set<Name>): set<Name> {
      s0.tab.at.Keys - Lost(s0.tab) - rest
    }

    method DropNil(name: Name, ghost s0: State, ghost rest: set<Name>)
      requires Keys(s0) && KeptSoFar(s0, rest) && VersionsSoFar(s0, rest) && name in rest && rest <= s0.tab.at.Keys
      requires name in Lost(s0.tab)
      modifies this`onceAt, this`onceTimeout, this`onceJob, this`onceVer
      ensures KeptSoFar(s0, rest - {name}) && VersionsSoFar(s0, rest - {name})
    {
      var removed := DropDefinition(name);
      assert Lost(s0.tab) - (rest - {name}) == (Lost(s0.tab) - rest) + {name};
    }

    method SettleVersion(name: Name, ghost s0: State, ghost rest: set<Name>) returns (ver: nat)
      requires Keys(s0) && VersionsSoFar(s0, rest) && name in rest
      requires Kept(s0.tab, name)
      modifies this`onceVer
      ensures VersionsSoFar(s0, rest - {name}) && ver == RebuiltVersion(s0.tab, name)
    {
      assert Lost(s0.tab) - (rest - {name}) == Lost(s0.tab) - rest;
      ver := onceVer[name];
      if ver == 0 {
        ver := 1;
        onceVer := onceVer[name := ver];
      }
    }

    method Rearm(name: Name, ver: nat, ghost s0: State, ghost cb1: map<TimerId, Callback>, ghost rest: set<Name>)
      requires TimersSoFar(s0, cb1, rest) && aux == s0.aux
      requires name in rest && Kept(s0.tab, name) && ver == RebuiltVersion(s0.tab, name)
      modifies this`timers, this`callbacks
      ensures TimersSoFar(s0, cb1, rest - {name})
    {
      assert Rearmed(s0, rest - {name}) == Rearmed(s0, rest) + {name};
      AfterFunc(TimerId(batch, name), ver, Get(aux.current, name), Get(aux.epoch, name), Get(aux.adds, name));
      timers := timers[name := TimerId(batch, name)];
    }

    lemma JobStill(name: Name, s0: State, rest: set<Name>)
      requires Keys(s0) && KeptSoFar(s0, rest) && name in rest && rest <= s0.tab.at.Keys
      ensures name in onceJob && name in s0.tab.job && onceJob[name] == s0.tab.job[name]
    {
      assert name !in Lost(s0.tab) - rest;
    }

    lemma KeptSame(name: Name, s0: State, rest: set<Name>)
      requires KeptSoFar(s0, rest) && Kept(s0.tab, name)
      ensures KeptSoFar(s0, rest - {name})
    {
      assert Lost(s0.tab) - (rest - {name}) == Lost(s0.tab) - rest;
    }

    lemma RearmedSame(name: Name, s0: State, cb1: map<TimerId, Callback>, rest: set<Name>)
      requires TimersSoFar(s0, cb1, rest) && name in Lost(s0.tab)
      ensures TimersSoFar(s0, cb1, rest - {name})
    {
      assert Rearmed(s0, rest - {name}) == Rearmed(s0, rest);
    }

    method RebuildName(name: Name, ghost s0: State, ghost cb1: map<TimerId, Callback>, ghost rest: set<Name>)
      requires Keys(s0) && Partway(s0, cb1, rest) && name in rest && rest <= s0.tab.at.Keys
      modifies this`timers, this`onceAt, this`onceTimeout, this`onceJob, this`onceVer, this`callbacks
      ensures Partway(s0, cb1, rest - {name})
    {
      JobStill(name, s0, rest);
      if onceJob[name].None? {
        RearmedSame(name, s0, cb1, rest);
        DropNil(name, s0, rest);
      } else {
        KeptSame(name, s0, rest);
        RebuildKept(name, s0, cb1, rest);
      }
    }

    method RebuildKept(name: Name, ghost s0: State, ghost cb1: map<TimerId, Callback>, ghost rest: set<Name>)
      requires Keys(s0) && VersionsSoFar(s0, rest) && TimersSoFar(s0, cb1, rest) && aux == s0.aux
      requires name in rest && Kept(s0.tab, name)
      modifies this`timers, this`onceVer, this`callbacks
      ensures VersionsSoFar(s0, rest - {name}) && TimersSoFar(s0, cb1, rest - {name})
    {
      var ver := SettleVersion(name, s0, rest);
      Rearm(name, ver, s0, cb1, rest);
    }

    lemma TablesEnd(s0: State, cb1: map<TimerId, Callback>)
      requires KeptSoFar(s0, {}) && VersionsSoFar(s0, {}) && TimersSoFar(s0, cb1, {}) && Keys(s0)
      ensures View().tab == RebuiltTable(s0.tab, batch)
    {
      assert Lost(s0.tab) - {} == Lost(s0.tab);
      var t := RebuiltTable(s0.tab, batch);
      assert timers == t.timers;
      assert onceVer == t.ver;
    }

    lemma TimersEnd(s0: State, cb1: map<TimerId, Callback>)
      requires TimersSoFar(s0, cb1, {}) && batch == s0.rt.batch
      ensures callbacks == cb1 + FreshCallbacks(s0)
    {
      assert forall n :: n in Rearmed(s0, {}) <==> n in s0.tab.at && n !in Lost(s0.tab);
    }

    lemma RebuildIs(s0: State, cb1: map<TimerId, Callback>)
      requires Runtime(cb1, s0.rt.batch) == StopAll(s0.tab, s0.rt)
      ensures OnceTimers.Rebuild(s0) == State(RebuiltTable(s0.tab, s0.rt.batch),
                                              Runtime(cb1 + FreshCallbacks(s0), s0.rt.batch + 1),
                                              LostAux(s0.aux, Lost(s0.tab)))
    {
    }

    method RebuildAll(ghost s0: State, ghost cb1: map<TimerId, Callback>)
      requires Keys(s0) && Partway(s0, cb1, onceAt.Keys) && onceAt == s0.tab.at
      modifies this`timers, this`onceAt, this`onceTimeout, this`onceJob, this`onceVer, this`callbacks
      ensures Partway(s0, cb1, {})
    {
      var rest := onceAt.Keys;
      while rest != {}
        invariant rest <= s0.tab.at.Keys && Partway(s0, cb1, rest)
        decreases rest
      {
        var name :| name in rest;
        RebuildName(name, s0, cb1, rest);
        rest := rest - {name};
      }
    }

    // rebuildOnceTimersLocked
    method Rebuild()
      requires Keys(View()) && Timers(View())
      modifies this
      ensures View() == OnceTimers.Rebuild(old(View()))
    {
      assert forall n :: n in timers ==> TimerOk(View(), n);
      ghost var s0 := View();
      StopTimers();
      ghost var cb1 := callbacks;
      assert Lost(s0.tab) - onceAt.Keys == {} && Rearmed(s0, onceAt.Keys) == {};
      RebuildAll(s0, cb1);
      TablesEnd(s0, cb1);
      TimersEnd(s0, cb1);
      RebuildIs(s0, cb1);
      batch := batch + 1;
      aux := LostAux(aux, Lost(s0.tab));
    }
  }
}
