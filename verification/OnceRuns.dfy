/** What holds over whole runs of the one-time task tables. */
module OnceRuns {
  import opened Wrappers
  import opened OnceTimers
  import Text

  lemma StepInv(s: State, e: Event)
    requires Inv(s) && Enabled(s, e)
    ensures Inv(Step(s, e))
  {
    match e
    case Add(d) => AddInv(s, d);
    case Del(name) => RemoveInv(s, Text.Trim(name));
    case Fire(id) => FireInv(s, id);
    case Call(id) => CallInv(s, id);
    case Stop => ClearInv(s);
    case Start => RebuildInv(s);
  }

  lemma {:induction false} RunInv(s: State, es: seq<Event>)
    requires Inv(s) && Possible(s, es)
    ensures Inv(After(s, es))
    decreases |es|
  {
    if es != [] {
      StepInv(s, es[0]);
      RunInv(Step(s, es[0]), es[1..]);
    }
  }

  // The four persisted maps always have the same keys, which include the timers' keys; between Start
  // and Stop the keys agree, and the timer of a definition with a job has yet to run its callback.
  lemma TablesAgree(es: seq<Event>, n: Name)
    requires Possible(Init(), es)
    ensures var s := After(Init(), es);
            && s.tab.at.Keys == s.tab.timeout.Keys == s.tab.job.Keys == s.tab.ver.Keys
            && s.tab.timers.Keys <= s.tab.at.Keys
            && (s.aux.live ==> s.tab.timers.Keys == s.tab.at.Keys)
            && (s.aux.live && n in s.tab.job && s.tab.job[n].Some? ==>
                  && s.tab.timers[n] in s.rt.callbacks
                  && s.rt.callbacks[s.tab.timers[n]].phase != Dead
                  && s.rt.callbacks[s.tab.timers[n]].ver == s.tab.ver[n])
  {
    var s := After(Init(), es);
    RunInv(Init(), es);
    if n in s.tab.timers {
      assert TimerOk(s, n);
    }
  }

  // Each definition's job is handed to enqueue at most once, with that definition's name and timeout.
  lemma HandedAtMostOnce(es: seq<Event>, i: nat, j: nat)
    requires Possible(Init(), es)
    requires i < |After(Init(), es).aux.handed| && j < |After(Init(), es).aux.handed|
    ensures var aux := After(Init(), es).aux;
            && Faithful(aux, aux.handed[i])
            && (aux.handed[i].def == aux.handed[j].def ==> i == j)
  {
    var aux := After(Init(), es).aux;
    RunInv(Init(), es);
    assert aux.handed[i] in aux.handed;
  }

  // The maps hold definition d under its name.
  predicate Persisted(s: State, d: nat)
    requires d < |s.aux.defs|
  {
    var def := s.aux.defs[d];
    && def.name in s.tab.at && s.tab.at[def.name] == def.at
    && def.name in s.tab.timeout && s.tab.timeout[def.name] == def.timeout
    && def.name in s.tab.job && s.tab.job[def.name] == def.job
    && IsCurrent(s.aux, d)
  }

  // The list of tasks handed over has one for the definition.
  predicate HasTask(aux: Aux, d: nat) {
    exists i :: 0 <= i < |aux.handed| && aux.handed[i].def == d
  }

  // What is labelled as handed over was.
  ghost predicate Delivered(aux: Aux) {
    forall d :: d in aux.fate && aux.fate[d] == Handed ==> HasTask(aux, d)
  }

  lemma TasksStay(aux: Aux, aux': Aux)
    requires Delivered(aux) && aux.handed <= aux'.handed
    requires forall d :: d in aux'.fate && aux'.fate[d] == Handed ==>
        (d in aux.fate && aux.fate[d] == Handed) || HasTask(aux', d)
    ensures Delivered(aux')
  {
    assert forall i :: 0 <= i < |aux.handed| ==> aux'.handed[i] == aux.handed[i];
    forall d | HasTask(aux, d) ensures HasTask(aux', d) {
      var i :| 0 <= i < |aux.handed| && aux.handed[i].def == d;
      assert aux'.handed[i].def == d;
    }
  }

  lemma CallDelivers(s: State, id: TimerId)
    requires Keys(s) && id in s.rt.callbacks && Delivered(s.aux)
    ensures Delivered(RunCallback(s, id).aux)
  {
    var aux' := RunCallback(s, id).aux;
    if Passes(s, id) {
      assert aux'.handed[|s.aux.handed|] == TaskOf(s, id);
    }
    TasksStay(s.aux, aux');
  }

  lemma StepDelivers(s: State, e: Event)
    requires Inv(s) && Enabled(s, e) && Delivered(s.aux)
    ensures Delivered(Step(s, e).aux)
  {
    if e.Call? {
      CallDelivers(s, e.id);
    } else {
      TasksStay(s.aux, Step(s, e).aux);
    }
  }

  lemma {:induction false} RunDelivers(s: State, es: seq<Event>)
    requires Inv(s) && Possible(s, es) && Delivered(s.aux)
    ensures Delivered(After(s, es).aux)
    decreases |es|
  {
    if es != [] {
      StepInv(s, es[0]);
      StepDelivers(s, es[0]);
      RunDelivers(Step(s, es[0]), es[1..]);
    }
  }

  // No definition gets lost before its job is handed over: the ones not persisted any more were handed
  // over, replaced, removed, or had a nil job, exactly one of these each, and the ones handed over are
  // exactly those of the tasks.
  lemma EveryDefinitionAccounted(es: seq<Event>, d: nat)
    requires Possible(Init(), es) && d < |After(Init(), es).aux.defs|
    ensures d in After(Init(), es).aux.fate <==> !Persisted(After(Init(), es), d)
    ensures var aux := After(Init(), es).aux; d in aux.fate && aux.fate[d] == Handed <==> HasTask(aux, d)
  {
    var aux := After(Init(), es).aux;
    RunInv(Init(), es);
    RunDelivers(Init(), es);
    assert FateOk(aux, d);
    if i :| 0 <= i < |aux.handed| && aux.handed[i].def == d {
      assert aux.handed[i] in aux.handed;
    }
  }

  // ----- which timers can still fire -----

  predicate IsMapped(s: State, id: TimerId) {
    id.name in s.tab.timers && s.tab.timers[id.name] == id
  }

  // The events that stop a mapped timer: a stop or a start of the service, its name's removal, and an
  // upsert of its name.
  predicate Silences(s: State, e: Event, id: TimerId) {
    IsMapped(s, id) && (e.Stop? || e.Start? || (e.Add? && e.d.name == id.name)
                        || (e.Del? && Text.Trim(e.name) == id.name))
  }

  // What an event makes of an existing timer: it fires when it fires, is spent once its callback ran, and
  // an armed one is put out by exactly the events that concern it; nothing else moves it.
  function PhaseNext(s: State, e: Event, id: TimerId): Phase
    requires id in s.rt.callbacks
  {
    if e == Fire(id) then Fired
    else if e == Call(id) then Dead
    else if s.rt.callbacks[id].phase == Armed && Silences(s, e, id) then Dead
    else s.rt.callbacks[id].phase
  }

  // Timers are mapped under their own names and numbered in batches that are over.
  ghost predicate OwnNames(s: State) {
    && Keys(s) && (forall n :: n in s.tab.timers ==> s.tab.timers[n].name == n)
    && forall id :: id in s.rt.callbacks ==> id.batch < s.rt.batch
  }

  lemma InvNames(s: State)
    requires Inv(s)
    ensures OwnNames(s)
  {
    forall n | n in s.tab.timers ensures s.tab.timers[n].name == n {
      assert TimerOk(s, n);
    }
  }

  lemma PhaseExactly(s: State, e: Event, id: TimerId)
    requires OwnNames(s) && Enabled(s, e) && id in s.rt.callbacks
    ensures id in Step(s, e).rt.callbacks && Step(s, e).rt.callbacks[id].phase == PhaseNext(s, e, id)
  {
    PhaseStep(s, e, id);
  }

  lemma PhaseStep(s: State, e: Event, id: TimerId)
    requires Enabled(s, e) && id in s.rt.callbacks && id.batch < s.rt.batch && "" !in s.tab.timers
    requires forall n :: n in s.tab.timers ==> s.tab.timers[n].name == n
    ensures id in Step(s, e).rt.callbacks && Step(s, e).rt.callbacks[id].phase == PhaseNext(s, e, id)
  {
    match e
    case Add(d) => AddPhase(s, d, id);
    case Del(name) => DelPhase(s, Text.Trim(name), id);
    case Fire(_) =>
    case Call(other) => CallPhase(s, other, id);
    case Stop => StopPhase(s, id);
    case Start => StartPhase(s, id);
  }

  lemma CallPhase(s: State, other: TimerId, id: TimerId)
    requires other in s.rt.callbacks && id in s.rt.callbacks
    ensures id in RunCallback(s, other).rt.callbacks
    ensures RunCallback(s, other).rt.callbacks[id].phase == if id == other then Dead else s.rt.callbacks[id].phase
  {
  }

  lemma StopPhase(s: State, id: TimerId)
    requires id in s.rt.callbacks
    ensures id in ClearTimers(s).rt.callbacks
    ensures ClearTimers(s).rt.callbacks[id].phase ==
            if s.rt.callbacks[id].phase == Armed && IsMapped(s, id) then Dead else s.rt.callbacks[id].phase
  {
  }

  lemma StartPhase(s: State, id: TimerId)
    requires id in s.rt.callbacks && id.batch < s.rt.batch
    ensures id in Rebuild(s).rt.callbacks
    ensures Rebuild(s).rt.callbacks[id].phase ==
            if s.rt.callbacks[id].phase == Armed && IsMapped(s, id) then Dead else s.rt.callbacks[id].phase
  {
    assert id !in FreshCallbacks(s);
  }

  lemma AddPhase(s: State, d: Definition, id: TimerId)
    requires id in s.rt.callbacks && id.batch < s.rt.batch
    requires forall n :: n in s.tab.timers ==> s.tab.timers[n].name == n
    ensures id in AddOnce(s, d).rt.callbacks
    ensures AddOnce(s, d).rt.callbacks[id].phase ==
            if s.rt.callbacks[id].phase == Armed && IsMapped(s, id) && d.name == id.name then Dead
            else s.rt.callbacks[id].phase
  {
  }

  lemma DelPhase(s: State, n: Name, id: TimerId)
    requires id in s.rt.callbacks
    requires forall m :: m in s.tab.timers ==> s.tab.timers[m].name == m
    requires "" !in s.tab.timers
    ensures id in RemoveNamed(s, n).rt.callbacks
    ensures RemoveNamed(s, n).rt.callbacks[id].phase ==
            if s.rt.callbacks[id].phase == Armed && IsMapped(s, id) && n == id.name then Dead
            else s.rt.callbacks[id].phase
  {
  }

  predicate Spent(s: State, id: TimerId) {
    id in s.rt.callbacks && s.rt.callbacks[id].phase == Dead
  }

  // A timer that was put out never fires and its callback never runs, whatever happens next.
  lemma {:induction false} SpentForever(s: State, es: seq<Event>, id: TimerId)
    requires Inv(s) && Possible(s, es) && Spent(s, id)
    ensures Spent(After(s, es), id)
    ensures forall i :: 0 <= i < |es| ==> es[i] != Fire(id) && es[i] != Call(id)
    decreases |es|
  {
    if es != [] {
      InvNames(s);
      PhaseExactly(s, es[0], id);
      StepInv(s, es[0]);
      SpentForever(Step(s, es[0]), es[1..], id);
      assert forall i :: 0 < i < |es| ==> es[i] == es[1..][i - 1];
    }
  }

  // No timer of the name has fired, and none is armed but the mapped one.
  ghost predicate NotFired(s: State, n: Name) {
    forall id :: id in s.rt.callbacks && id.name == n ==>
                   s.rt.callbacks[id].phase == Dead || (IsMapped(s, id) && s.rt.callbacks[id].phase == Armed)
  }

  // No timer of the name is left that could take its definition away.
  ghost predicate Silent(s: State, n: Name) {
    forall id :: id in s.rt.callbacks && id.name == n ==> s.rt.callbacks[id].phase == Dead
  }

  function Lookup<T>(m: map<Name, T>, n: Name): Option<T> {
    if n in m then Some(m[n]) else None
  }

  // What the persisted maps hold under a name, and which definition that is.
  datatype Held = Held(
    at: Option<int>,
    timeout: Option<int>,
    job: Option<Option<nat>>,
    ver: Option<nat>,
    def: Option<nat>)

  function HeldOf(s: State, n: Name): Held {
    Held(Lookup(s.tab.at, n), Lookup(s.tab.timeout, n), Lookup(s.tab.job, n), Lookup(s.tab.ver, n),
         Lookup(s.aux.current, n))
  }

  // Events that leave the name's definition to its timers.
  predicate Apart(e: Event, n: Name) {
    match e
    case Add(d) => d.name != n
    case Del(name) => Text.Trim(name) != n
    case Start => false
    case _ => true
  }

  predicate AllApart(es: seq<Event>, n: Name) {
    es == [] || (Apart(es[0], n) && AllApart(es[1..], n))
  }

  lemma StopSilences(s: State, n: Name)
    requires OwnNames(s) && n in s.tab.at && NotFired(s, n)
    ensures Silent(Step(s, Stop), n) && HeldOf(Step(s, Stop), n) == HeldOf(s, n)
  {
    forall id | id in s.rt.callbacks && id.name == n ensures Spent(Step(s, Stop), id) {
      PhaseExactly(s, Stop, id);
    }
  }

  lemma ApartSame(s: State, e: Event, n: Name)
    requires Keys(s) && Enabled(s, e) && n in s.tab.at && Silent(s, n) && Apart(e, n)
    ensures HeldOf(Step(s, e), n) == HeldOf(s, n)
  {
  }

  lemma NewTimers(s: State, e: Event, id: TimerId)
    requires Enabled(s, e) && !e.Start? && id !in s.rt.callbacks && id in Step(s, e).rt.callbacks
    ensures e.Add? && id.name == e.d.name
  {
  }

  lemma ApartKeeps(s: State, e: Event, n: Name)
    requires OwnNames(s) && Enabled(s, e) && n in s.tab.at && Silent(s, n) && Apart(e, n)
    ensures Silent(Step(s, e), n) && HeldOf(Step(s, e), n) == HeldOf(s, n)
  {
    ApartSame(s, e, n);
    forall id | id in Step(s, e).rt.callbacks && id.name == n ensures Spent(Step(s, e), id) {
      if id in s.rt.callbacks {
        PhaseExactly(s, e, id);
      } else {
        NewTimers(s, e, id);
      }
    }
  }

  lemma StillThere(s: State, s': State, n: Name)
    requires n in s.tab.at && HeldOf(s', n) == HeldOf(s, n)
    ensures n in s'.tab.at && (n in s.tab.job ==> n in s'.tab.job && s'.tab.job[n] == s.tab.job[n])
  {
  }

  lemma OneApart(s: State, e: Event, n: Name)
    requires Inv(s) && Enabled(s, e) && n in s.tab.at && Silent(s, n) && Apart(e, n)
    ensures Inv(Step(s, e)) && Silent(Step(s, e), n) && HeldOf(Step(s, e), n) == HeldOf(s, n)
  {
    InvNames(s);
    ApartKeeps(s, e, n);
    StepInv(s, e);
  }

  lemma {:induction false} ApartRun(s: State, es: seq<Event>, n: Name)
    requires Inv(s) && Possible(s, es) && n in s.tab.at && Silent(s, n)
    requires AllApart(es, n)
    ensures Silent(After(s, es), n) && HeldOf(After(s, es), n) == HeldOf(s, n)
    decreases |es|
  {
    if es != [] {
      OneApart(s, es[0], n);
      StillThere(s, Step(s, es[0]), n);
      ApartRun(Step(s, es[0]), es[1..], n);
    }
  }

  // The name's timer is armed for the definition, under the name's version.
  predicate ArmedFor(s: State, n: Name, def: nat) {
    && n in s.tab.timers && s.tab.timers[n] in s.rt.callbacks && n in s.tab.ver
    && n in s.aux.current && s.aux.current[n] == def
    && var cb := s.rt.callbacks[s.tab.timers[n]];
       cb.phase == Armed && cb.ver == s.tab.ver[n] && cb.def == def
  }

  lemma DownKeeps(s: State, es: seq<Event>, n: Name)
    requires Inv(s) && n in s.tab.at && NotFired(s, n)
    requires Possible(Step(s, Stop), es) && AllApart(es, n)
    ensures Keys(After(Step(s, Stop), es)) && HeldOf(After(Step(s, Stop), es), n) == HeldOf(s, n)
  {
    InvNames(s);
    StopSilences(s, n);
    StepInv(s, Stop);
    StillThere(s, Step(s, Stop), n);
    ApartRun(Step(s, Stop), es, n);
    RunInv(Step(s, Stop), es);
  }

  lemma RearmsHeld(s: State, down: State, n: Name)
    requires Keys(down) && n in s.tab.at && n in s.tab.job && s.tab.job[n].Some? && n in s.aux.current
    requires HeldOf(down, n) == HeldOf(s, n)
    ensures ArmedFor(Rebuild(down), n, s.aux.current[n])
  {
    StillThere(s, down, n);
    StartArms(down, n);
  }

  // What Stop promises: a definition whose timer has not fired by then stays as it is, whatever happens to
  // other names while the service is down, and the next Start, which rebuilds the timers, arms one for it,
  // under its version.
  lemma StopKeepsDefinition(s: State, es: seq<Event>, n: Name)
    requires Inv(s) && n in s.tab.at && n in s.tab.job && s.tab.job[n].Some? && NotFired(s, n)
    requires Possible(Step(s, Stop), es) && AllApart(es, n)
    ensures var down := After(Step(s, Stop), es);
            HeldOf(down, n) == HeldOf(s, n) && ArmedFor(Rebuild(down), n, s.aux.current[n])
  {
    DownKeeps(s, es, n);
    RearmsHeld(s, After(Step(s, Stop), es), n);
  }

  // Start keeps exactly the definitions with a job, as they are. One whose job is a nil function is dropped:
  // nothing of it is left in the maps, and it will never run.
  lemma StartKeepsExactly(s: State, n: Name)
    requires Keys(s) && Fates(s.aux)
    ensures var r := Rebuild(s);
            && (n in r.tab.at <==> n in s.tab.at && s.tab.job[n].Some?)
            && (n in r.tab.at ==> r.tab.at[n] == s.tab.at[n] && Lookup(r.tab.timeout, n) == Lookup(s.tab.timeout, n)
                                  && Lookup(r.tab.job, n) == Lookup(s.tab.job, n))
            && (n !in r.tab.at ==> n !in r.tab.timers && n !in r.tab.timeout && n !in r.tab.job && n !in r.tab.ver)
    ensures n in s.tab.at && s.tab.job[n].None? ==>
              var fate := Rebuild(s).aux.fate; s.aux.current[n] in fate && fate[s.aux.current[n]] == NilDropped
  {
    StartKeepsTable(s.tab, s.rt.batch, n);
    if n in s.tab.at && s.tab.job[n].None? {
      NilIsDropped(s, n);
    }
  }

  lemma StartKeepsTable(tab: Table, batch: nat, n: Name)
    requires tab.at.Keys == tab.timeout.Keys == tab.job.Keys == tab.ver.Keys
    ensures var r := RebuiltTable(tab, batch);
            && (n in r.at <==> n in tab.at && tab.job[n].Some?)
            && (n in r.at ==> r.at[n] == tab.at[n] && Lookup(r.timeout, n) == Lookup(tab.timeout, n)
                              && Lookup(r.job, n) == Lookup(tab.job, n))
            && (n !in r.at ==> n !in r.timers && n !in r.timeout && n !in r.job && n !in r.ver)
  {
  }

  lemma NilIsDropped(s: State, n: Name)
    requires Keys(s) && Fates(s.aux) && n in s.tab.at && s.tab.job[n].None?
    ensures var fate := LostAux(s.aux, Lost(s.tab)).fate;
            s.aux.current[n] in fate && fate[s.aux.current[n]] == NilDropped
  {
    var d := s.aux.current[n];
    assert n in Lost(s.tab) && FateOk(s.aux, d);
    assert d in CurrentOf(s.aux, Lost(s.tab));
  }

  lemma StartArms(s: State, n: Name)
    requires Keys(s) && n in s.tab.at && n in s.tab.job && s.tab.job[n].Some?
    ensures ArmedFor(Rebuild(s), n, Get(s.aux.current, n))
  {
    FreshArmed(s, n);
    FreshTable(s, n);
    ArmedAt(Rebuild(s), n, FreshCallback(s, n));
  }

  lemma ArmedAt(s: State, n: Name, cb: Callback)
    requires n in s.tab.timers && s.tab.timers[n] in s.rt.callbacks && s.rt.callbacks[s.tab.timers[n]] == cb
    requires n in s.tab.ver && cb.ver == s.tab.ver[n] && n in s.aux.current && cb.def == s.aux.current[n]
    requires cb.phase == Armed
    ensures ArmedFor(s, n, cb.def)
  {
  }

  lemma FreshTable(s: State, n: Name)
    requires Keys(s) && n in s.tab.at && n in s.tab.job && s.tab.job[n].Some?
    ensures var r := Rebuild(s);
            && n in r.tab.timers && r.tab.timers[n] == TimerId(s.rt.batch, n)
            && n in r.tab.ver && r.tab.ver[n] == RebuiltVersion(s.tab, n)
            && n in r.aux.current && r.aux.current[n] == Get(s.aux.current, n)
  {
    assert n !in Lost(s.tab);
  }

  lemma FreshArmed(s: State, n: Name)
    requires n in s.tab.at && n in s.tab.job && s.tab.job[n].Some?
    ensures var id := TimerId(s.rt.batch, n);
            id in Rebuild(s).rt.callbacks && Rebuild(s).rt.callbacks[id] == FreshCallback(s, n)
  {
    assert TimerId(s.rt.batch, n) in FreshCallbacks(s);
  }

  // ----- stale callbacks -----

  // The events that delete a name's version entry.
  predicate Deletes(s: State, e: Event, n: Name)
    requires Enabled(s, e)
  {
    n in s.tab.ver && n !in Step(s, e).tab.ver
  }

  ghost function Deletions(s: State, es: seq<Event>, n: Name): nat
    requires Possible(s, es)
    decreases |es|
  {
    if es == [] then 0
    else (if Deletes(s, es[0], n) then 1 else 0) + Deletions(Step(s, es[0]), es[1..], n)
  }

  function Upserts(es: seq<Event>, n: Name): nat {
    if es == [] then 0
    else (if es[0].Add? && es[0].d.name == n then 1 else 0) + Upserts(es[1..], n)
  }

  lemma EpochCall(s: State, id: TimerId, n: Name)
    requires Keys(s) && id in s.rt.callbacks
    ensures Get(RunCallback(s, id).aux.epoch, n)
            == Get(s.aux.epoch, n) + (if n in s.tab.ver && n !in RunCallback(s, id).tab.ver then 1 else 0)
  {
  }

  lemma EpochRemove(s: State, m: Name, n: Name)
    requires Keys(s)
    ensures Get(RemoveNamed(s, m).aux.epoch, n)
            == Get(s.aux.epoch, n) + (if n in s.tab.ver && n !in RemoveNamed(s, m).tab.ver then 1 else 0)
  {
  }

  lemma EpochRebuild(s: State, n: Name)
    requires Keys(s)
    ensures Get(Rebuild(s).aux.epoch, n)
            == Get(s.aux.epoch, n) + (if n in s.tab.ver && n !in Rebuild(s).tab.ver then 1 else 0)
  {
  }

  lemma EpochStep(s: State, e: Event, n: Name)
    requires Keys(s) && Enabled(s, e)
    ensures Get(Step(s, e).aux.epoch, n) == Get(s.aux.epoch, n) + (if Deletes(s, e, n) then 1 else 0)
  {
    match e
    case Del(name) => EpochRemove(s, Text.Trim(name), n);
    case Call(id) => EpochCall(s, id, n);
    case Start => EpochRebuild(s, n);
    case _ =>
  }

  lemma {:induction false} EpochRun(s: State, es: seq<Event>, n: Name)
    requires Inv(s) && Possible(s, es)
    ensures Get(After(s, es).aux.epoch, n) == Get(s.aux.epoch, n) + Deletions(s, es, n)
    decreases |es|
  {
    if es != [] {
      EpochStep(s, es[0], n);
      StepInv(s, es[0]);
      EpochRun(Step(s, es[0]), es[1..], n);
    }
  }

  lemma AddsRemove(s: State, m: Name, n: Name)
    requires Keys(s) && !(n in s.tab.ver && n !in RemoveNamed(s, m).tab.ver)
    ensures Get(RemoveNamed(s, m).aux.adds, n) == Get(s.aux.adds, n)
  {
  }

  lemma AddsCall(s: State, id: TimerId, n: Name)
    requires Keys(s) && id in s.rt.callbacks && !(n in s.tab.ver && n !in RunCallback(s, id).tab.ver)
    ensures Get(RunCallback(s, id).aux.adds, n) == Get(s.aux.adds, n)
  {
  }

  lemma AddsRebuild(s: State, n: Name)
    requires Keys(s) && !(n in s.tab.ver && n !in Rebuild(s).tab.ver)
    ensures Get(Rebuild(s).aux.adds, n) == Get(s.aux.adds, n)
  {
  }

  lemma AddsStep(s: State, e: Event, n: Name)
    requires Keys(s) && Enabled(s, e) && !Deletes(s, e, n)
    ensures Get(Step(s, e).aux.adds, n) == Get(s.aux.adds, n) + (if e.Add? && e.d.name == n then 1 else 0)
  {
    match e
    case Del(name) => AddsRemove(s, Text.Trim(name), n);
    case Call(id) => AddsCall(s, id, n);
    case Start => AddsRebuild(s, n);
    case _ =>
  }

  lemma {:induction false} AddsRun(s: State, es: seq<Event>, n: Name)
    requires Inv(s) && Possible(s, es) && Deletions(s, es, n) == 0
    ensures Get(After(s, es).aux.adds, n) == Get(s.aux.adds, n) + Upserts(es, n)
    decreases |es|
  {
    if es != [] {
      AddsStep(s, es[0], n);
      StepInv(s, es[0]);
      AddsRun(Step(s, es[0]), es[1..], n);
    }
  }

  // While a name's version entry is not deleted its version goes up by one with every AddOnce, and
  // with nothing else (for as long as the 64-bit counter does not wrap).
  lemma VersionsIncrease(s: State, es: seq<Event>, n: Name)
    requires Inv(s) && Possible(s, es) && Deletions(s, es, n) == 0
    requires n in s.tab.ver && Get(s.aux.adds, n) + Upserts(es, n) < WORD
    ensures n in After(s, es).tab.ver && After(s, es).tab.ver[n] == s.tab.ver[n] + Upserts(es, n)
  {
    RunInv(s, es);
    AddsRun(s, es, n);
  }

  // Only the phase of a callback ever changes.
  predicate SameCallback(rt: Runtime, rt': Runtime, id: TimerId) {
    id in rt.callbacks && id in rt'.callbacks
    && rt'.callbacks[id] == rt.callbacks[id].(phase := rt'.callbacks[id].phase)
  }

  lemma CallbackAdd(s: State, d: Definition, id: TimerId)
    requires id in s.rt.callbacks && id.batch < s.rt.batch
    ensures SameCallback(s.rt, AddOnce(s, d).rt, id)
  {
    StopNamedSame(s.tab, s.rt, d.name);
  }

  lemma CallbackRemove(s: State, m: Name, id: TimerId)
    requires id in s.rt.callbacks
    ensures SameCallback(s.rt, RemoveNamed(s, m).rt, id)
  {
    StopNamedSame(s.tab, s.rt, m);
  }

  lemma CallbackRebuild(s: State, id: TimerId)
    requires id in s.rt.callbacks && id.batch < s.rt.batch
    ensures SameCallback(s.rt, Rebuild(s).rt, id)
  {
    assert id !in FreshCallbacks(s);
  }

  lemma CallbackStep(s: State, e: Event, id: TimerId)
    requires Callbacks(s.rt, s.aux) && Enabled(s, e) && id in s.rt.callbacks
    ensures SameCallback(s.rt, Step(s, e).rt, id)
  {
    assert id.batch < s.rt.batch;
    match e
    case Add(d) => CallbackAdd(s, d, id);
    case Del(name) => CallbackRemove(s, Text.Trim(name), id);
    case Start => CallbackRebuild(s, id);
    case _ =>
  }

  lemma {:induction false} CallbackRun(s: State, es: seq<Event>, id: TimerId)
    requires Inv(s) && Possible(s, es) && id in s.rt.callbacks
    ensures SameCallback(s.rt, After(s, es).rt, id)
    decreases |es|
  {
    if es != [] {
      CallbackStep(s, es[0], id);
      StepInv(s, es[0]);
      CallbackRun(Step(s, es[0]), es[1..], id);
    }
  }

  // A callback that passes the test hands over the definition its timer was armed for, exactly when
  // the name's version entry was not deleted since: whatever else was added, removed, started or
  // stopped in between, and however long the callback waited for the lock.
  lemma CallbackRunsItsOwn(s: State, es: seq<Event>, id: TimerId)
    requires Inv(s) && Possible(s, es)
    requires id.name in s.tab.timers && s.tab.timers[id.name] == id
    requires Enabled(After(s, es), Call(id)) && Passes(After(s, es), id)
    requires Get(After(s, es).aux.adds, id.name) < WORD
    ensures TaskOf(After(s, es), id).def == s.aux.current[id.name] <==> Deletions(s, es, id.name) == 0
  {
    var s', n := After(s, es), id.name;
    assert TimerOk(s, n);
    assert CallbackOk(s.aux, s.rt.callbacks[id], n);
    RunInv(s, es);
    EpochRun(s, es, n);
    CallbackRun(s, es, id);
    assert CallbackOk(s'.aux, s'.rt.callbacks[id], n);
  }

  // A callback that fired in an earlier life of its name, waiting for s.tmu.
  ghost predicate Leftover(s: State, id: TimerId) {
    && id in s.rt.callbacks && s.rt.callbacks[id].phase == Fired && s.rt.callbacks[id].ver == 1
    && id.batch < s.rt.batch
    && id.name !in s.tab.timers && id.name !in s.tab.ver
  }

  lemma FirstAdd(d: Definition)
    ensures var id, s := TimerId(0, d.name), AddOnce(Init(), d);
            && s.rt == Runtime(map[id := Callback(1, Armed, 0, 0, 1)], 1)
            && s.tab.timers == map[d.name := id] && s.tab.ver == map[d.name := 1]
            && s.aux.defs == [d] && s.aux.handed == []
  {
    assert NextVersion(0) == 1;
  }

  // The timer fired, so stopping it comes too late.
  lemma RemoveLeavesFired(s: State, n: Name, id: TimerId)
    requires n != "" && id.name == n && id.batch < s.rt.batch
    requires id in s.rt.callbacks && s.rt.callbacks[id].phase == Fired && s.rt.callbacks[id].ver == 1
    ensures Leftover(RemoveNamed(s, n), id)
    ensures RemoveNamed(s, n).aux.defs == s.aux.defs && RemoveNamed(s, n).aux.handed == s.aux.handed
  {
  }

  lemma LeftoverHandsOver(s: State, d: Definition, id: TimerId)
    requires Leftover(s, id) && d.name == id.name && d.job.Some?
    ensures Enabled(AddOnce(s, d), Call(id))
    ensures RunCallback(AddOnce(s, d), id).aux.handed
            == s.aux.handed + [Task(|s.aux.defs|, d.name, d.timeout, d.job.value, id)]
  {
    assert AddOnce(s, d).tab.ver[d.name] == 1;
    assert Passes(AddOnce(s, d), id);
  }

  // Removing and adding a name again brings its version back to 1, so a callback that fired before
  // the removal hands over the new definition, whatever time that one was scheduled for.
  lemma StaleCallback(d1: Definition, d2: Definition)
    requires d1.name != "" && Text.Trim(d1.name) == d1.name && d2.name == d1.name && d2.job.Some?
    ensures var id := TimerId(0, d1.name);
            var es := [Add(d1), Fire(id), Del(d1.name), Add(d2), Call(id)];
            && Possible(Init(), es)
            && After(Init(), es).aux.handed == [Task(1, d2.name, d2.timeout, d2.job.value, id)]
  {
    var id := TimerId(0, d1.name);
    FirstAdd(d1);
    var s2 := Step(AddOnce(Init(), d1), Fire(id));
    RemoveLeavesFired(s2, d1.name, id);
    LeftoverHandsOver(RemoveNamed(s2, d1.name), d2, id);
    Chain5(Init(), Add(d1), Fire(id), Del(d1.name), Add(d2), Call(id));
  }

  lemma Chain5(s: State, e1: Event, e2: Event, e3: Event, e4: Event, e5: Event)
    requires Enabled(s, e1)
    requires Enabled(Step(s, e1), e2)
    requires Enabled(Step(Step(s, e1), e2), e3)
    requires Enabled(Step(Step(Step(s, e1), e2), e3), e4)
    requires Enabled(Step(Step(Step(Step(s, e1), e2), e3), e4), e5)
    ensures Possible(s, [e1, e2, e3, e4, e5])
    ensures After(s, [e1, e2, e3, e4, e5]) == Step(Step(Step(Step(Step(s, e1), e2), e3), e4), e5)
  {
    Chain(Step(Step(Step(Step(s, e1), e2), e3), e4), e5, []);
    Chain(Step(Step(Step(s, e1), e2), e3), e4, [e5]);
    Chain(Step(Step(s, e1), e2), e3, [e4, e5]);
    Chain(Step(s, e1), e2, [e3, e4, e5]);
    Chain(s, e1, [e2, e3, e4, e5]);
  }

  lemma Chain(s: State, e: Event, es: seq<Event>)
    requires Enabled(s, e) && Possible(Step(s, e), es)
    ensures Possible(s, [e] + es) && After(s, [e] + es) == After(Step(s, e), es)
  {
    assert ([e] + es)[1..] == es;
  }

  // ----- jobs lost around a stop -----

  // A name of which nothing is left: no definition, no timer.
  predicate Gone(s: State, n: Name) {
    n !in s.tab.at && n !in s.tab.job && n !in s.tab.timers
  }

  lemma CallAfterStop(s: State, d: Definition, id: TimerId)
    requires d.name != "" && d.job.Some? && id == TimerId(0, d.name)
    requires s == ClearTimers(Step(AddOnce(Init(), d), Fire(id)))
    ensures Enabled(s, Call(id)) && !s.aux.live
    ensures var r := RunCallback(s, id);
            Gone(Rebuild(r), d.name) && Rebuild(r).aux.handed == [Task(0, d.name, d.timeout, d.job.value, id)]
  {
    FirstAdd(d);
    assert Passes(s, id);
    assert d.name !in RunCallback(s, id).tab.at;
  }

  // A callback hands its definition's job over and deletes the definition whether or not the service still
  // runs, so that a stop in between keeps it from being armed again: when the timer fired before a Stop and
  // its callback ran after it, nothing of the definition is left at the next Start. The task was handed
  // over all the same; LifecycleDelivery.EnqueueReaches says which such tasks reach a queue.
  lemma FiredAroundStop(d: Definition)
    requires d.name != "" && d.job.Some?
    ensures var id := TimerId(0, d.name);
            var es := [Add(d), Fire(id), Stop, Call(id), Start];
            && Possible(Init(), es) && Gone(After(Init(), es), d.name)
            && After(Init(), es).aux.handed == [Task(0, d.name, d.timeout, d.job.value, id)]
  {
    var id := TimerId(0, d.name);
    FirstAdd(d);
    var s1 := AddOnce(Init(), d);
    CallAfterStop(ClearTimers(Step(s1, Fire(id))), d, id);
    Chain5(Init(), Add(d), Fire(id), Stop, Call(id), Start);
  }
}
