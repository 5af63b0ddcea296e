/**
Which configuration the service works with: the one applied last, in whatever phase it came, and how many
workers a Start makes of it.
*/
module LifecycleConfig {
  import opened Wrappers
  import opened SchedulerLifecycle
  import opened LifecycleSafety

  datatype Config = Config(size: int, tz: nat)

  // The configuration after one action: an Apply that gets its turn brings its own.
  function ConfigAfter(s: State, a: Action, c: Config): Config {
    if a.Do? && a.t in s.threads && s.threads[a.t].ApplyEnter?
    then Config(s.threads[a.t].size, s.threads[a.t].tz) else c
  }

  // The configuration applied last in a run that began with c.
  ghost function LastConfig(s: State, acts: seq<Action>, c: Config): Config
    requires Possible(s, acts)
    decreases |acts|
  {
    if acts == [] then c else LastConfig(Step(s, acts[0]), acts[1..], ConfigAfter(s, acts[0], c))
  }

  function Held(s: State): Config {
    Config(s.sh.svc.size, s.sh.svc.tz)
  }

  lemma BodyHeld(sh: Shared, t: nat, pc: Pc)
    ensures var svc := Body(sh, t, pc).sh.svc;
            && svc.size == (if pc.ApplyEnter? then pc.size else sh.svc.size)
            && svc.tz == (if pc.ApplyEnter? then pc.tz else sh.svc.tz)
  {
  }

  lemma StepHeld(s: State, a: Action)
    requires Enabled(s, a)
    ensures Held(Step(s, a)) == ConfigAfter(s, a, Held(s))
  {
    if a.Do? {
      BodyHeld(s.sh, a.t, s.threads[a.t]);
    }
  }

  lemma {:induction false} RunHeld(s: State, acts: seq<Action>)
    requires Possible(s, acts)
    ensures Held(After(s, acts)) == LastConfig(s, acts, Held(s))
    decreases |acts|
  {
    if acts != [] {
      StepHeld(s, acts[0]);
      RunHeld(Step(s, acts[0]), acts[1..]);
    }
  }

  // In every run the service holds the configuration of the last Apply that got its turn, whether it was
  // stopped, running or stopping then, and the one it was made with before the first.
  lemma ConfigIsLast(size: int, tz: nat, acts: seq<Action>)
    requires Possible(Init(size, tz), acts)
    ensures Held(After(Init(size, tz), acts)) == LastConfig(Init(size, tz), acts, Config(size, tz))
  {
    RunHeld(Init(size, tz), acts);
  }

  // A Start that finds the service stopped makes as many workers as the configuration applied last asks
  // for, or two, all of the run it begins; there are no others.
  lemma StartSpawns(size: int, tz: nat, acts: seq<Action>, t: nat)
    requires Possible(Init(size, tz), acts)
    requires var s := After(Init(size, tz), acts);
             Enabled(s, Do(t)) && s.threads[t].StartEnter? && s.sh.svc.stopCh == None
    ensures var s, c := After(Init(size, tz), acts), LastConfig(Init(size, tz), acts, Config(size, tz));
            var s' := Step(s, Do(t));
            && |Workers(s'.threads)| == (if c.size <= 0 then 2 else c.size)
            && s'.sh.svc.stopCh.Some?
            && forall w :: w in Workers(s'.threads) ==> s'.threads[w] == WorkerTop(s'.sh.svc.stopCh.value)
  {
    var s := After(Init(size, tz), acts);
    ConfigIsLast(size, tz, acts);
    InitInv(size, tz);
    RunInv(Init(size, tz), acts);
    SpawnsPool(s, t);
  }

  lemma SpawnsPool(s: State, t: nat)
    requires Inv(s) && Enabled(s, Do(t)) && s.threads[t].StartEnter? && s.sh.svc.stopCh == None
    ensures var s' := Step(s, Do(t));
            && |Workers(s'.threads)| == (if s.sh.svc.size <= 0 then 2 else s.sh.svc.size)
            && s'.sh.svc.stopCh == Some(s.sh.rt.nextId)
            && forall w :: w in Workers(s'.threads) ==> s'.threads[w] == WorkerTop(s.sh.rt.nextId)
  {
    var e := StartSection(s.sh);
    SpawnedNew(s, t);
    assert Workers(s.threads) == {};
    PoolWorkers(s.threads, t, e);
  }
}
