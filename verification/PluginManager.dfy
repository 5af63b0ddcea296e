/**
The plugin manager as the program keeps it: one map per fact about the plugins, updated step by
step. View collects what the maps say about one plugin; each method's effect on it is the
corresponding step of PluginReconcile, and no other plugin is touched.
*/
module PluginManager {
  import opened Wrappers
  import opened PluginReconcile
  import opened PluginRuns

  class Manager {
    var reg: map<Name, Kind>
    var run: map<Name, bool>
    var pctx: map<Name, nat>
    var pcancel: map<Name, nat>
    var lastRawHash: map<Name, nat>
    var quarantine: map<Name, Quarantine>
    var lastGlobalHash: nat
    var published: set<Name>
    var round: nat                        // numbers the contexts; the program has pointers instead
    ghost var traces: map<Name, Trace>

    constructor ()
      ensures reg == map[] && lastGlobalHash == 0 && round == 0 && published == {}
      ensures forall n :: View(n) == NEVER_SEEN
    {
      reg, run, pctx, pcancel, lastRawHash, quarantine := map[], map[], map[], map[], map[], map[];
      lastGlobalHash, published, round, traces := 0, {}, 0, map[];
    }

    ghost function TraceOf(n: Name): Trace
      reads this
    {
      if n in traces then traces[n] else Trace({}, {}, [])
    }

    ghost function View(n: Name): Plug
      reads this
    {
      Plug(n in run && run[n],
           if n in pctx then Some(pctx[n]) else None,
           if n in pcancel then Some(pcancel[n]) else None,
           if n in lastRawHash then Some(lastRawHash[n]) else None,
           if n in quarantine then Some(quarantine[n]) else None,
           TraceOf(n))
    }

    // What no step on plugin n changes.
    twostate predicate OnlyAt(n: Name)
      reads this
    {
      && reg == old(reg) && lastGlobalHash == old(lastGlobalHash) && round == old(round)
      && published == old(published)
      && forall m :: m != n ==> View(m) == old(View(m))
    }

    ghost method Call(n: Name, c: Call)
      modifies this`traces
      ensures View(n) == Called(old(View(n)), c) && OnlyAt(n)
    {
      traces := traces[n := TraceOf(n).(calls := TraceOf(n).calls + [c])];
    }

    ghost method Cancel(n: Name, c: nat)
      modifies this`traces
      ensures View(n) == Cancelled(old(View(n)), c) && OnlyAt(n)
    {
      traces := traces[n := TraceOf(n).(cancelled := TraceOf(n).cancelled + {c})];
    }

    ghost method Create(n: Name, c: nat)
      modifies this`traces
      ensures View(n) == Created(old(View(n)), c) && OnlyAt(n)
    {
      traces := traces[n := TraceOf(n).(created := TraceOf(n).created + {c})];
    }

    method ClearQuarantineOnChange(n: Name, hash: nat)
      modifies this`quarantine
      ensures View(n) == ClearQuarantine(old(View(n)), hash) && OnlyAt(n)
    {
      if n in quarantine && quarantine[n].hash != hash {
        quarantine := quarantine - {n};
      }
    }

    method SetQuarantine(n: Name, hash: nat, err: nat, now: nat)
      modifies this`quarantine
      ensures View(n) == PluginReconcile.SetQuarantine(old(View(n)), hash, err, now) && OnlyAt(n)
    {
      if n in quarantine && quarantine[n].hash == hash && quarantine[n].err == err {
        quarantine := quarantine[n := quarantine[n].(count := quarantine[n].count + 1)];
        return;
      }
      var count := if n in quarantine then quarantine[n].count + 1 else 1;
      quarantine := quarantine[n := Quarantine(hash, err, now, count)];
    }

    // An unregistered plugin is left alone even if the maps say that it runs.
    method StopOne(n: Name)
      modifies this
      ensures View(n) == (if n in reg then Stopped(old(View(n))) else old(View(n))) && OnlyAt(n)
    {
      if !(n in run && run[n]) || n !in reg {
        return;
      }
      if n in pcancel {
        Cancel(n, pcancel[n]);
      }
      Call(n, StopCall);
      MarkStopped(n);
    }

    method MarkStopped(n: Name)
      modifies this`run, this`pctx, this`pcancel, this`lastRawHash
      ensures View(n) == old(View(n)).(run := false, ctx := None, cancel := None, hash := None) && OnlyAt(n)
    {
      run := run[n := false];
      pctx, pcancel, lastRawHash := pctx - {n}, pcancel - {n}, lastRawHash - {n};
    }

    method MarkRunning(n: Name, hash: nat)
      modifies this`run, this`pctx, this`pcancel, this`lastRawHash, this`quarantine
      ensures View(n) == old(View(n)).(run := true, ctx := Some(round), cancel := Some(round),
                                       hash := Some(hash), quarantine := None)
      ensures OnlyAt(n)
    {
      run, pctx, pcancel := run[n := true], pctx[n := round], pcancel[n := round];
      lastRawHash, quarantine := lastRawHash[n := hash], quarantine - {n};
    }

    // The part of enabling after a context was made; ok is whether the plugin came up.
    method BringUp(n: Name, k: Kind, w: Want, o: Outcome) returns (ok: bool)
      modifies this`quarantine, this`traces
      ensures OnlyAt(n)
      ensures var p := Called(Created(old(View(n)), round), InitCall);
              var q := if !o.initOk then Cancelled(p, round) else Validated(p, k, w, o, Moment(round, false));
              ok == (o.initOk && (k.validates ==> o.validateErr.None?) && (k.configurable ==>
                  o.configErr.None?) && o.startOk)
              && (ok ==> q == View(n).(run := true, ctx := Some(round), cancel := Some(round),
                                       hash := Some(w.hash), quarantine := None))
              && (!ok ==> View(n) == q)
    {
      Create(n, round);
      Call(n, InitCall);
      if !o.initOk {
        Cancel(n, round);
        return false;
      }
      if k.validates {
        Call(n, ValidateCall);
        if o.validateErr.Some? {
          SetQuarantine(n, w.hash, o.validateErr.value, o.now);
          Cancel(n, round);
          return false;
        }
      }
      if k.configurable {
        Call(n, ConfigCall);
        if o.configErr.Some? {
          SetQuarantine(n, w.hash, o.configErr.value, o.now);
          Cancel(n, round);
          return false;
        }
      }
      Call(n, StartCall);
      if !o.startOk {
        Cancel(n, round);
        return false;
      }
      ok := true;
    }

    // enabled && !run
    method EnableOne(n: Name, k: Kind, w: Want, o: Outcome, ghost m: Moment)
      requires m.round == round
      modifies this
      ensures View(n) == Enable(old(View(n)), k, w, o, m) && OnlyAt(n)
    {
      ClearQuarantineOnChange(n, w.hash);
      if n in quarantine && quarantine[n].hash == w.hash {
        return;
      }
      if w.timeoutsErr.Some? {
        SetQuarantine(n, w.hash, w.timeoutsErr.value, o.now);
        return;
      }
      var ok := BringUp(n, k, w, o);
      if ok {
        MarkRunning(n, w.hash);
      }
    }

    // enabled && run
    method ReapplyOne(n: Name, k: Kind, w: Want, o: Outcome, globalChanged: bool)
      requires n in reg
      modifies this
      ensures View(n) == Reapply(old(View(n)), k, w, o, Moment(round, globalChanged)) && OnlyAt(n)
    {
      if !k.configurable {
        return;
      }
      var same := n in lastRawHash && lastRawHash[n] == w.hash;
      if same && !globalChanged {
        return;
      }
      if !same && w.timeoutsErr.Some? {
        SetQuarantine(n, w.hash, w.timeoutsErr.value, o.now);
        StopOne(n);
        return;
      }
      Call(n, ConfigCall);
      if o.configErr.Some? {
        SetQuarantine(n, w.hash, o.configErr.value, o.now);
        StopOne(n);
        return;
      }
      lastRawHash, quarantine := lastRawHash[n := w.hash], quarantine - {n};
    }

    // One operation of reconcile, on the plugin as the snapshot saw it.
    method Operate(n: Name, running: bool, w: Want, o: Outcome, globalChanged: bool)
      requires n in reg && running == (n in run && run[n])
      modifies this
      ensures OnlyAt(n) && View(n) == After(old(View(n)), old(reg[n]), w, o, Moment(round, globalChanged))
    {
      if w.enabled && !running {
        EnableOne(n, reg[n], w, o, Moment(round, globalChanged));
      } else if !w.enabled && running {
        StopOne(n);
      } else if w.enabled && running {
        ReapplyOne(n, reg[n], w, o, globalChanged);
      }
    }

    method RefreshRegistry(cfg: Config)
      modifies this`published
      ensures forall n :: n in published <==> n in reg && View(n).run && WantOf(cfg, n).enabled
      ensures forall n :: View(n) == old(View(n))
    {
      published := set n | n in reg && n in run && run[n] && WantOf(cfg, n).enabled;
    }

    // The plugins are visited in an arbitrary order, as iteration over a map does.
    method VisitAll(cfg: Config, outs: Name -> Outcome, globalChanged: bool)
      modifies this
      ensures reg == old(reg) && lastGlobalHash == old(lastGlobalHash) && round == old(round)
      ensures forall n :: View(n) == Visited(n, old(View(n)), cfg, outs, globalChanged)
    {
      var snapshot := map n | n in reg :: n in run && run[n];
      var todo := reg.Keys;
      while todo != {}
        invariant todo <= reg.Keys && reg == old(reg) && lastGlobalHash == old(lastGlobalHash) && round == old(round)
        invariant forall n :: View(n) == if n in todo
            then old(View(n)) else Visited(n, old(View(n)), cfg, outs, globalChanged)
        decreases |todo|
      {
        var n :| n in todo;
        assert View(n) == old(View(n));
        Operate(n, snapshot[n], WantOf(cfg, n), outs(n), globalChanged);
        todo := todo - {n};
      }
    }

    function Visited(n: Name, p: Plug, cfg: Config, outs: Name -> Outcome, globalChanged: bool): Plug
      reads this
    {
      if n in reg then After(p, reg[n], WantOf(cfg, n), outs(n), Moment(round, globalChanged)) else p
    }

    method Reconcile(cfg: Config, outs: Name -> Outcome)
      modifies this
      ensures reg == old(reg) && lastGlobalHash == cfg.global && round == old(round) + 1
      ensures forall n :: View(n) ==
                old(Visited(n, View(n), cfg, outs, cfg.global != lastGlobalHash))
      ensures forall n :: n in published <==> n in reg && View(n).run && WantOf(cfg, n).enabled
    {
      VisitAll(cfg, outs, cfg.global != lastGlobalHash);
      lastGlobalHash := cfg.global;
      round := round + 1;
      RefreshRegistry(cfg);
    }

    method StopAll(current: Config)
      modifies this
      ensures reg == old(reg) && round == old(round) && lastGlobalHash == old(lastGlobalHash)
      ensures forall n :: View(n) == if n in reg then Stopped(old(View(n))) else old(View(n))
      ensures published == {}
    {
      var todo := reg.Keys;
      while todo != {}
        invariant todo <= reg.Keys && reg == old(reg) && round == old(round) && lastGlobalHash == old(lastGlobalHash)
        invariant forall n :: View(n) == if n in reg && n !in todo then Stopped(old(View(n))) else old(View(n))
        decreases |todo|
      {
        var n :| n in todo;
        StopOne(n);
        todo := todo - {n};
      }
      RefreshRegistry(current);
      assert forall n :: n in reg ==> !View(n).run;
      assert published == {};
    }

    method Register(n: Name, k: Kind, current: Config)
      modifies this`reg, this`published
      ensures reg == old(reg)[n := k] && forall m :: View(m) == old(View(m))
      ensures forall m :: m in published <==> m in reg && View(m).run && WantOf(current, m).enabled
    {
      reg := reg[n := k];
      RefreshRegistry(current);
    }
  }
}
