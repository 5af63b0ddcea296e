/**
All plugins together: reconciliation over any order of plugins, and whole runs of the manager.
*/
module PluginRuns {
  import opened Lists
  import opened Wrappers
  import opened PluginReconcile

  datatype Config = Config(wants: map<Name, Want>, global: nat)

  function WantOf(cfg: Config, n: Name): Want {
    if n in cfg.wants then cfg.wants[n] else Want(false, 0, None)
  }

  const NEVER_SEEN := Plug(false, None, None, None, None, Trace({}, {}, []))

  datatype Manager = Manager(
    reg: map<Name, Kind>,
    plugs: map<Name, Plug>,
    lastGlobal: nat,
    round: nat,
    published: set<Name>)         // the plugins whose commands are in the command registry

  function PlugOf(s: Manager, n: Name): Plug {
    if n in s.plugs then s.plugs[n] else NEVER_SEEN
  }

  function MomentOf(s: Manager, cfg: Config): Moment {
    Moment(s.round, cfg.global != s.lastGlobal)
  }

  // refreshRegistryLocked
  function Listed(s: Manager, cfg: Config): set<Name> {
    set n | n in s.reg && PlugOf(s, n).run && WantOf(cfg, n).enabled
  }

  function AfterOf(s: Manager, cfg: Config, outs: Name -> Outcome, n: Name): Plug
    requires n in s.reg
  {
    After(PlugOf(s, n), s.reg[n], WantOf(cfg, n), outs(n), MomentOf(s, cfg))
  }

  function Settled(s: Manager, cfg: Config, outs: Name -> Outcome): Manager {
    s.(plugs := map n | n in s.reg :: AfterOf(s, cfg, outs, n))
  }

  function Reconciled(s: Manager, cfg: Config, outs: Name -> Outcome): Manager {
    var s1 := Settled(s, cfg, outs);
    s1.(lastGlobal := cfg.global, round := s.round + 1, published := Listed(s1, cfg))
  }

  // The operations carried out one after another, on the plugins as they are at that point.
  function InOrder(s: Manager, plugs: map<Name, Plug>, cfg: Config, outs: Name -> Outcome,
                   order: seq<Name>): map<Name, Plug>
    requires forall i :: 0 <= i < |order| ==> order[i] in s.reg
  {
    if order == [] then plugs
    else
      var n := |order| - 1;
      var before := InOrder(s, plugs, cfg, outs, order[..n]);
      var p := if order[n] in before then before[order[n]] else NEVER_SEEN;
      before[order[n] := After(p, s.reg[order[n]], WantOf(cfg, order[n]), outs(order[n]), MomentOf(s, cfg))]
  }

  lemma {:induction false} InOrderPointwise(s: Manager, cfg: Config, outs: Name -> Outcome, order: seq<Name>, m: Name)
    requires Distinct(order) && forall i :: 0 <= i < |order| ==> order[i] in s.reg
    ensures var r := InOrder(s, s.plugs, cfg, outs, order);
            && (m in order ==> m in r && r[m] == AfterOf(s, cfg, outs, m))
            && (m !in order ==> (m in r <==> m in s.plugs) && (m in r ==> r[m] == s.plugs[m]))
  {
    if order != [] {
      var n := |order| - 1;
      InOrderPointwise(s, cfg, outs, order[..n], order[n]);
      InOrderPointwise(s, cfg, outs, order[..n], m);
      assert order == order[..n] + [order[n]];
    }
  }

  // Whatever order the registered plugins are visited in, each once, the result is the same.
  lemma OrderIndependent(s: Manager, cfg: Config, outs: Name -> Outcome, order: seq<Name>)
    requires Distinct(order) && (forall i :: 0 <= i < |order| ==> order[i] in s.reg)
    requires (forall n :: n in s.reg ==> n in order) && s.plugs.Keys <= s.reg.Keys
    ensures InOrder(s, s.plugs, cfg, outs, order) == Settled(s, cfg, outs).plugs
  {
    var r, t := InOrder(s, s.plugs, cfg, outs, order), Settled(s, cfg, outs).plugs;
    forall m ensures (m in r <==> m in t) && (m in r ==> r[m] == t[m]) {
      InOrderPointwise(s, cfg, outs, order, m);
    }
  }

  // ----- runs -----

  datatype Event =
    | Reconcile(cfg: Config, outs: Name -> Outcome)
    | StopAll(current: Config)
    | Register(name: Name, kind: Kind, current: Config)

  function AllStopped(s: Manager): Manager {
    s.(plugs := map n | n in s.plugs :: if n in s.reg then Stopped(s.plugs[n]) else s.plugs[n])
  }

  function Step(s: Manager, e: Event): Manager {
    match e
    case Reconcile(cfg, outs) => Reconciled(s, cfg, outs)
    case StopAll(cfg) => AllStopped(s).(published := Listed(AllStopped(s), cfg))
    case Register(n, k, cfg) =>
      var s1 := s.(reg := s.reg[n := k]);
      s1.(published := Listed(s1, cfg))
  }

  function Run(s: Manager, es: seq<Event>): Manager {
    if es == [] then s else Step(Run(s, es[..|es| - 1]), es[|es| - 1])
  }

  const START := Manager(map[], map[], 0, 0, {})

  ghost predicate Inv(s: Manager) {
    s.plugs.Keys <= s.reg.Keys && forall n :: n in s.reg ==> Ok(PlugOf(s, n), s.round)
  }

  lemma ReconcileKeeps(s: Manager, cfg: Config, outs: Name -> Outcome)
    requires Inv(s)
    ensures Inv(Reconciled(s, cfg, outs))
  {
    forall n | n in s.reg ensures Ok(AfterOf(s, cfg, outs, n), s.round + 1) {
      AfterOk(PlugOf(s, n), s.reg[n], WantOf(cfg, n), outs(n), MomentOf(s, cfg));
    }
    var t := Reconciled(s, cfg, outs);
    assert forall n :: n in t.reg ==> PlugOf(t, n) == AfterOf(s, cfg, outs, n);
  }

  lemma StopAllKeeps(s: Manager, cfg: Config)
    requires Inv(s)
    ensures Inv(Step(s, StopAll(cfg))) && forall n :: n in s.reg ==> !PlugOf(Step(s, StopAll(cfg)), n).run
  {
    forall n | n in s.reg ensures Ok(Stopped(PlugOf(s, n)), s.round) && !Stopped(PlugOf(s, n)).run {
      StoppedOk(PlugOf(s, n), s.round);
    }
  }

  // In every run of registrations, reconciliations and full stops, whatever the plugins answer:
  // the maps agree on every plugin, no running plugin is quarantined, every context ever created is
  // the stored one of a running plugin or cancelled, and no quarantine counts a repetition.
  lemma {:induction false} RunInv(es: seq<Event>)
    ensures Inv(Run(START, es))
  {
    if es != [] {
      var s, e := Run(START, es[..|es| - 1]), es[|es| - 1];
      RunInv(es[..|es| - 1]);
      match e
      case Reconcile(cfg, outs) => ReconcileKeeps(s, cfg, outs);
      case StopAll(cfg) => StopAllKeeps(s, cfg);
      case Register(n, k, cfg) =>
        var t := Step(s, e);
        assert forall m :: m in t.reg ==> PlugOf(t, m) == PlugOf(s, m) && (m in s.reg || PlugOf(s, m) == NEVER_SEEN);
    }
  }

  predicate Failed(s: Manager, cfg: Config, outs: Name -> Outcome, n: Name)
    requires n in s.reg
  {
    FailedNow(PlugOf(s, n), s.reg[n], WantOf(cfg, n), outs(n))
  }

  // After reconcile exactly the enabled plugins run, except those quarantined at their current
  // configuration and those whose Init or Start failed in this call; and the published plugins are
  // the running ones.
  lemma ReconcileSettles(s: Manager, cfg: Config, outs: Name -> Outcome, n: Name)
    requires Inv(s) && n in s.reg
    ensures var t := Reconciled(s, cfg, outs);
            && (PlugOf(t, n).run <==> && n in cfg.wants && cfg.wants[n].enabled
                                      && !IsQuarantined(PlugOf(t, n), cfg.wants[n].hash)
                                      && !Failed(s, cfg, outs, n))
            && (n in t.published <==> PlugOf(t, n).run)
  {
    AfterSettles(PlugOf(s, n), s.reg[n], WantOf(cfg, n), outs(n), MomentOf(s, cfg));
    assert PlugOf(Reconciled(s, cfg, outs), n) == AfterOf(s, cfg, outs, n);
  }

  // What reconcile calls and leaves, for each registered plugin, by the way its operation ends.
  lemma ReconcileFits(s: Manager, cfg: Config, outs: Name -> Outcome, n: Name) returns (v: Verdict)
    requires Inv(s) && n in s.reg
    ensures Ends(PlugOf(s, n), s.reg[n], WantOf(cfg, n), outs(n), MomentOf(s, cfg), v)
    ensures Fits(PlugOf(s, n), s.reg[n], WantOf(cfg, n), outs(n), MomentOf(s, cfg), v,
                 PlugOf(Reconciled(s, cfg, outs), n))
  {
    v := OneEnding(PlugOf(s, n), s.reg[n], WantOf(cfg, n), outs(n), MomentOf(s, cfg));
    AfterFits(PlugOf(s, n), s.reg[n], WantOf(cfg, n), outs(n), MomentOf(s, cfg), v);
    assert PlugOf(Reconciled(s, cfg, outs), n) == AfterOf(s, cfg, outs, n);
  }

  // A change of the global settings reaches every enabled plugin that runs and takes configurations, and so
  // does a change of its own with good timeouts; nothing else makes reconcile call OnConfigChange on it.
  lemma GlobalsPassedOn(s: Manager, cfg: Config, outs: Name -> Outcome, n: Name)
    requires Inv(s) && n in s.reg && s.reg[n].configurable && PlugOf(s, n).run && WantOf(cfg, n).enabled
    ensures var p, calls := PlugOf(s, n), PlugOf(Reconciled(s, cfg, outs), n).trace.calls;
            var w := WantOf(cfg, n);
            p.trace.calls + [ConfigCall] <= calls <==>
            if p.hash == Some(w.hash) then cfg.global != s.lastGlobal else w.timeoutsErr == None
  {
    ConfigPassedOn(PlugOf(s, n), s.reg[n], WantOf(cfg, n), outs(n), MomentOf(s, cfg));
    assert PlugOf(Reconciled(s, cfg, outs), n) == AfterOf(s, cfg, outs, n);
  }

  // Reconciling the same configuration twice: the second call makes no plugin call at all, and
  // changes nothing but its own number, exactly if no Init or Start failed in the first.
  lemma ReconcileTwice(s: Manager, cfg: Config, outs: Name -> Outcome, outs2: Name -> Outcome)
    requires Inv(s)
    ensures var t := Reconciled(s, cfg, outs);
            var t2 := Reconciled(t, cfg, outs2);
            && (forall n :: n in s.reg ==> (PlugOf(t2, n).trace.calls == PlugOf(t, n).trace.calls <==>
                !Failed(s, cfg, outs, n)))
            && ((forall n :: n in s.reg ==> !Failed(s, cfg, outs, n)) ==> t2 == t.(round := t.round + 1))
  {
    var t := Reconciled(s, cfg, outs);
    var t2 := Reconciled(t, cfg, outs2);
    forall n | n in s.reg
      ensures PlugOf(t2, n).trace.calls == PlugOf(t, n).trace.calls <==> !Failed(s, cfg, outs, n)
      ensures !Failed(s, cfg, outs, n) ==> PlugOf(t2, n) == PlugOf(t, n)
    {
      AfterTwice(PlugOf(s, n), s.reg[n], WantOf(cfg, n), outs(n), MomentOf(s, cfg), outs2(n), MomentOf(t, cfg));
    }
    if forall n :: n in s.reg ==> !Failed(s, cfg, outs, n) {
      assert t2.plugs == t.plugs;
      assert t2.published == t.published;
    }
  }
}
