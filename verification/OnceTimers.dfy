/**
One-time tasks: five maps guarded by s.tmu, timers of the Go runtime, and callbacks that compare
version numbers before they hand a job to the queue.

A timer fires on its own goroutine (Fire) and only later gets s.tmu (Callback); in between anything
may happen to its name. Fire, Callback and the public operations interleave freely.
*/
module OnceTimers {
  import opened Wrappers
  import Text

  const WORD := 0x1_0000_0000_0000_0000   // versions are uint64

  type Name = string

  // All timers made in one critical section share a batch number.
  datatype TimerId = TimerId(batch: nat, name: Name)

  datatype Phase = Armed | Fired | Dead

  // What the AfterFunc closure captured, where its timer is, and (auxiliary) the definition it was
  // armed for, the name's epoch and the number of upserts in that epoch at that moment.
  datatype Callback = Callback(ver: nat, phase: Phase, def: nat, epoch: nat, adds: nat)

  datatype Definition = Definition(name: Name, at: int, timeout: int, job: Option<nat>)

  datatype Table = Table(
    timers: map<Name, TimerId>,
    at: map<Name, int>,
    timeout: map<Name, int>,
    job: map<Name, Option<nat>>,       // None is a nil function
    ver: map<Name, nat>)

  datatype Runtime = Runtime(callbacks: map<TimerId, Callback>, batch: nat)

  datatype Fate = Handed | Replaced | Removed | NilDropped

  // Handed to enqueue by the callback of timer `by`.
  datatype Task = Task(def: nat, name: Name, timeout: int, job: nat, firedBy: TimerId)

  // Auxiliary: every definition ever made, the current one of each name, what became of the others,
  // per name the number of deletions of its version entry and of upserts since, and the tasks handed over.
  datatype Aux = Aux(
    defs: seq<Definition>,
    current: map<Name, nat>,
    fate: map<nat, Fate>,
    epoch: map<Name, nat>,
    adds: map<Name, nat>,
    handed: seq<Task>,
    live: bool)

  datatype State = State(tab: Table, rt: Runtime, aux: Aux)

  function Init(): State {
    State(Table(map[], map[], map[], map[], map[]), Runtime(map[], 0), Aux([], map[], map[], map[], map[], [], false))
  }

  function Get(m: map<Name, nat>, n: Name): nat {
    if n in m then m[n] else 0
  }

  // ----- critical sections -----

  // Timer.Stop: a timer that already fired is not stopped.
  function StopTimer(rt: Runtime, id: TimerId): Runtime {
    if id in rt.callbacks && rt.callbacks[id].phase == Armed
    then rt.(callbacks := rt.callbacks[id := rt.callbacks[id].(phase := Dead)])
    else rt
  }

  function StopNamed(tab: Table, rt: Runtime, n: Name): Runtime {
    if n in tab.timers then StopTimer(rt, tab.timers[n]) else rt
  }

  function NextVersion(v: nat): (r: nat)
    ensures v + 1 < WORD ==> r == v + 1
  {
    (v + 1) % WORD
  }

  function AddOnce(s: State, d: Definition): State {
    var n, id := d.name, TimerId(s.rt.batch, d.name);
    var v := NextVersion(Get(s.tab.ver, n));
    var rt := StopNamed(s.tab, s.rt, n);
    var def := |s.aux.defs|;
    State(
      Table(s.tab.timers[n := id], s.tab.at[n := d.at], s.tab.timeout[n := d.timeout],
            s.tab.job[n := d.job], s.tab.ver[n := v]),
      Runtime(rt.callbacks[id := Callback(v, Armed, def, Get(s.aux.epoch, n), Get(s.aux.adds, n) + 1)],
              rt.batch + 1),
      s.aux.(defs := s.aux.defs + [d],
             current := s.aux.current[n := def],
             fate := if n in s.aux.current then s.aux.fate[s.aux.current[n] := Replaced] else s.aux.fate,
             adds := s.aux.adds[n := Get(s.aux.adds, n) + 1]))
  }

  function Drop(tab: Table, n: Name): Table {
    Table(tab.timers - {n}, tab.at - {n}, tab.timeout - {n}, tab.job - {n}, tab.ver - {n})
  }

  predicate IsCurrent(aux: Aux, d: nat)
    requires d < |aux.defs|
  {
    aux.defs[d].name in aux.current && aux.current[aux.defs[d].name] == d
  }

  function DropAux(aux: Aux, n: Name, f: Fate): Aux {
    aux.(current := aux.current - {n},
         fate := if n in aux.current then aux.fate[aux.current[n] := f] else aux.fate,
         epoch := if n in aux.current then aux.epoch[n := Get(aux.epoch, n) + 1] else aux.epoch,
         adds := aux.adds - {n})
  }

  function RemoveNamed(s: State, n: Name): State {
    if n == "" then s
    else State(Drop(s.tab, n), StopNamed(s.tab, s.rt, n), DropAux(s.aux, n, Removed))
  }

  function Remove(s: State, name: Name): State {
    RemoveNamed(s, Text.Trim(name))
  }

  // The test at the top of the callback, with Go's zero values for missing keys.
  predicate Passes(s: State, id: TimerId)
    requires id in s.rt.callbacks
  {
    && Get(s.tab.ver, id.name) == s.rt.callbacks[id].ver
    && id.name in s.tab.job && s.tab.job[id.name].Some?
    && id.name in s.tab.at
  }

  function TimeoutNow(tab: Table, n: Name): int {
    if n in tab.timeout then tab.timeout[n] else 0
  }

  // The task a passing callback hands over.
  function TaskOf(s: State, id: TimerId): Task
    requires id.name in s.tab.job && s.tab.job[id.name].Some?
  {
    Task(Get(s.aux.current, id.name), id.name, TimeoutNow(s.tab, id.name), s.tab.job[id.name].value, id)
  }

  function RunCallback(s: State, id: TimerId): State
    requires id in s.rt.callbacks
  {
    var rt := s.rt.(callbacks := s.rt.callbacks[id := s.rt.callbacks[id].(phase := Dead)]);
    if !Passes(s, id) then s.(rt := rt)
    else
      var n := id.name;
      State(Drop(s.tab, n), rt, DropAux(s.aux, n, Handed).(handed := s.aux.handed + [TaskOf(s, id)]))
  }

  function StopAll(tab: Table, rt: Runtime): Runtime {
    rt.(callbacks := map id | id in rt.callbacks ::
          if id.name in tab.timers && tab.timers[id.name] == id && rt.callbacks[id].phase == Armed
          then rt.callbacks[id].(phase := Dead) else rt.callbacks[id])
  }

  // Stop: the timers go, the definitions stay.
  function ClearTimers(s: State): State {
    State(s.tab.(timers := map[]), StopAll(s.tab, s.rt), s.aux.(live := false))
  }

  predicate Kept(tab: Table, n: Name) {
    n in tab.at && n in tab.job && tab.job[n].Some?
  }

  function RebuiltVersion(tab: Table, n: Name): nat {
    if Get(tab.ver, n) == 0 then 1 else Get(tab.ver, n)
  }

  // Definitions whose job is a nil function are dropped by the next Start.
  function Lost(tab: Table): set<Name> {
    set n | n in tab.at && !Kept(tab, n)
  }

  function RebuiltTable(tab: Table, batch: nat): Table {
    var lost := Lost(tab);
    Table(map n | n in tab.at && n !in lost :: TimerId(batch, n),
          tab.at - lost, tab.timeout - lost, tab.job - lost,
          map n | n in tab.ver && n !in lost :: if n in tab.at then RebuiltVersion(tab, n) else tab.ver[n])
  }

  function FreshCallback(s: State, n: Name): Callback {
    Callback(RebuiltVersion(s.tab, n), Armed, Get(s.aux.current, n), Get(s.aux.epoch, n), Get(s.aux.adds, n))
  }

  function CurrentOf(aux: Aux, names: set<Name>): set<nat> {
    set d: nat | d < |aux.defs| && aux.defs[d].name in names && IsCurrent(aux, d)
  }

  function LostAux(aux: Aux, lost: set<Name>): Aux {
    aux.(current := aux.current - lost,
         fate := map d | d in aux.fate.Keys + CurrentOf(aux, lost) ::
                   if d in aux.fate then aux.fate[d] else NilDropped,
         epoch := map n | n in aux.epoch.Keys + lost ::
                    if n in lost then Get(aux.epoch, n) + 1 else aux.epoch[n],
         adds := aux.adds - lost,
         live := true)
  }

  function FreshCallbacks(s: State): map<TimerId, Callback> {
    map n | n in s.tab.at && n !in Lost(s.tab) :: TimerId(s.rt.batch, n) := FreshCallback(s, n)
  }

  // Start: one new timer for every definition with a job, under the version it already has.
  function Rebuild(s: State): State {
    var rt := StopAll(s.tab, s.rt);
    State(
      RebuiltTable(s.tab, rt.batch),
      Runtime(rt.callbacks + FreshCallbacks(s), rt.batch + 1),
      LostAux(s.aux, Lost(s.tab)))
  }

  // ----- runs -----

  datatype Event =
    | Add(d: Definition)
    | Del(name: Name)
    | Fire(id: TimerId)
    | Call(id: TimerId)
    | Stop
    | Start

  predicate Enabled(s: State, e: Event) {
    match e
    case Add(d) => d.name != ""                 // AddOnce refuses the empty name
    case Fire(id) => id in s.rt.callbacks && s.rt.callbacks[id].phase == Armed
    case Call(id) => id in s.rt.callbacks && s.rt.callbacks[id].phase == Fired
    case _ => true
  }

  function Step(s: State, e: Event): State
    requires Enabled(s, e)
  {
    match e
    case Add(d) => AddOnce(s, d)
    case Del(name) => Remove(s, name)
    case Fire(id) =>
      s.(rt := s.rt.(callbacks := s.rt.callbacks[id := s.rt.callbacks[id].(phase := Fired)]))
    case Call(id) => RunCallback(s, id)
    case Stop => ClearTimers(s)
    case Start => Rebuild(s)
  }

  ghost predicate Possible(s: State, es: seq<Event>)
    decreases |es|
  {
    es == [] || (Enabled(s, es[0]) && Possible(Step(s, es[0]), es[1..]))
  }

  ghost function After(s: State, es: seq<Event>): State
    requires Possible(s, es)
    decreases |es|
  {
    if es == [] then s else After(Step(s, es[0]), es[1..])
  }

  // ----- the invariant -----

  ghost predicate Keys(s: State) {
    && s.tab.at.Keys == s.tab.timeout.Keys == s.tab.job.Keys == s.tab.ver.Keys == s.aux.current.Keys
    && s.tab.timers.Keys <= s.tab.at.Keys
    && s.aux.adds.Keys == s.tab.at.Keys
    && "" !in s.tab.at
    && (s.aux.live ==> s.tab.timers.Keys == s.tab.at.Keys)
  }

  // The maps hold what the current definition of each name says.
  ghost predicate Contents(s: State) {
    forall n :: n in s.aux.current ==>
      && s.aux.current[n] < |s.aux.defs| && n in s.tab.at && n in s.tab.timeout && n in s.tab.job
      && s.aux.defs[s.aux.current[n]] == Definition(n, s.tab.at[n], s.tab.timeout[n], s.tab.job[n])
  }

  // A task that carries its definition's name, timeout and job.
  predicate Faithful(aux: Aux, t: Task) {
    && t.def < |aux.defs|
    && aux.defs[t.def] == Definition(t.name, aux.defs[t.def].at, t.timeout, Some(t.job))
  }

  // A definition is current, or has a fate, never both.
  predicate FateOk(aux: Aux, d: nat)
    requires d < |aux.defs|
  {
    d in aux.fate <==> !IsCurrent(aux, d)
  }

  ghost predicate Fates(aux: Aux) {
    && (forall d :: d in aux.fate ==> d < |aux.defs|)
    && (forall d: nat :: d < |aux.defs| ==> FateOk(aux, d))
    && (forall n :: n in aux.current ==> aux.current[n] < |aux.defs| && aux.defs[aux.current[n]].name == n)
  }

  // Each task is faithful to a definition whose fate is Handed, and no definition has two tasks.
  ghost predicate HandedOnce(aux: Aux) {
    && (forall t :: t in aux.handed ==> t.def in aux.fate && aux.fate[t.def] == Handed && Faithful(aux, t))
    && (forall i, j :: 0 <= i < j < |aux.handed| ==> aux.handed[i].def != aux.handed[j].def)
  }

  // What is known of a callback: in its own epoch, its version tells whether its definition is
  // still the current one; in a later epoch the definition is a different one.
  predicate Knows(cb: Callback, known: bool, current: nat, epoch: nat, adds: nat) {
    && cb.epoch <= epoch
    && (cb.epoch == epoch ==> known && 0 < cb.adds <= adds && (adds < WORD ==> cb.ver == cb.adds))
    && (known ==> (cb.def == current <==> cb.epoch == epoch && cb.adds == adds))
  }

  predicate CallbackOk(aux: Aux, cb: Callback, n: Name) {
    cb.def < |aux.defs| && Knows(cb, n in aux.current, Get(aux.current, n), Get(aux.epoch, n), Get(aux.adds, n))
  }

  ghost predicate Callbacks(rt: Runtime, aux: Aux) {
    forall id :: id in rt.callbacks ==> id.batch < rt.batch && CallbackOk(aux, rt.callbacks[id], id.name)
  }

  ghost predicate Versions(s: State) {
    forall n :: n in s.tab.ver && Get(s.aux.adds, n) < WORD ==> s.tab.ver[n] == Get(s.aux.adds, n) > 0
  }

  // A name's timer is armed or fired, and is the one of its current definition and version.
  predicate TimerOk(s: State, n: Name) {
    && n in s.tab.timers && s.tab.timers[n].name == n && s.tab.timers[n] in s.rt.callbacks
    && var cb := s.rt.callbacks[s.tab.timers[n]];
       && n in s.aux.current && cb.def == s.aux.current[n] && cb.ver == Get(s.tab.ver, n)
       && (cb.phase == Dead ==> n in s.tab.job && s.tab.job[n].None?)
  }

  ghost predicate Timers(s: State) {
    forall n :: n in s.tab.timers ==> TimerOk(s, n)
  }

  ghost predicate Inv(s: State) {
    && Keys(s) && Contents(s) && Fates(s.aux) && HandedOnce(s.aux)
    && Callbacks(s.rt, s.aux) && Versions(s) && Timers(s)
  }

  // Runtimes that differ in the phases of their timers only.
  ghost predicate SamePlaces(rt: Runtime, rt': Runtime) {
    && rt'.batch == rt.batch && rt'.callbacks.Keys == rt.callbacks.Keys
    && forall id :: id in rt.callbacks ==> rt'.callbacks[id] == rt.callbacks[id].(phase := rt'.callbacks[id].phase)
  }

  // ----- a new definition -----

  lemma AddKeys(s: State, d: Definition)
    requires Inv(s) && d.name != ""
    ensures Keys(AddOnce(s, d))
  {
  }

  lemma AddContents(s: State, d: Definition)
    requires Inv(s) && d.name != ""
    ensures Contents(AddOnce(s, d))
  {
  }

  lemma AddFates(s: State, d: Definition)
    requires Fates(s.aux)
    ensures Fates(AddOnce(s, d).aux)
  {
    var aux, aux' := s.aux, AddOnce(s, d).aux;
    forall k: nat | k < |aux'.defs| ensures FateOk(aux', k) {
      if k < |aux.defs| {
        assert FateOk(aux, k);
      }
    }
  }

  lemma AddHanded(s: State, d: Definition)
    requires Fates(s.aux) && HandedOnce(s.aux)
    ensures HandedOnce(AddOnce(s, d).aux)
  {
    forall t | t in s.aux.handed ensures t.def in AddOnce(s, d).aux.fate && AddOnce(s, d).aux.fate[t.def] == Handed {
      assert FateOk(s.aux, t.def);
    }
  }

  lemma StopNamedSame(tab: Table, rt: Runtime, n: Name)
    ensures SamePlaces(rt, StopNamed(tab, rt, n))
  {
  }

  // An upsert of the callback's name, or of another one.
  lemma AddKnows(aux: Aux, d: Definition, cb: Callback, ph: Phase, n: Name)
    requires CallbackOk(aux, cb, n)
    ensures CallbackOk(aux.(defs := aux.defs + [d], current := aux.current[d.name := |aux.defs|],
                            adds := aux.adds[d.name := Get(aux.adds, d.name) + 1]),
                       cb.(phase := ph), n)
  {
  }

  lemma AddCallbacks(s: State, d: Definition)
    requires Callbacks(s.rt, s.aux) && Versions(s) && Keys(s)
    ensures Callbacks(AddOnce(s, d).rt, AddOnce(s, d).aux)
  {
    var s' := AddOnce(s, d);
    StopNamedSame(s.tab, s.rt, d.name);
    forall id | id in s'.rt.callbacks
      ensures id.batch < s'.rt.batch && CallbackOk(s'.aux, s'.rt.callbacks[id], id.name)
    {
      if id in s.rt.callbacks {
        AddKnows(s.aux, d, s.rt.callbacks[id], s'.rt.callbacks[id].phase, id.name);
      }
    }
  }

  lemma AddVersions(s: State, d: Definition)
    requires Inv(s) && d.name != ""
    ensures Versions(AddOnce(s, d))
  {
  }

  lemma AddTimer(s: State, d: Definition, n: Name)
    requires n != d.name && TimerOk(s, n) && s.tab.timers[n].batch < s.rt.batch
    requires d.name in s.tab.timers ==> s.tab.timers[d.name].name == d.name
    ensures TimerOk(AddOnce(s, d), n)
  {
  }

  lemma AddTimers(s: State, d: Definition)
    requires Timers(s) && Callbacks(s.rt, s.aux) && d.name != ""
    ensures Timers(AddOnce(s, d))
  {
    var s' := AddOnce(s, d);
    assert d.name in s.tab.timers ==> TimerOk(s, d.name);
    forall n | n in s'.tab.timers ensures TimerOk(s', n) {
      if n != d.name {
        assert TimerOk(s, n);
        AddTimer(s, d, n);
      }
    }
  }

  // ----- a deletion: Remove, or a callback that passes -----

  ghost predicate SameOutside(rt: Runtime, rt': Runtime, n: Name) {
    SamePlaces(rt, rt') && forall id :: id in rt.callbacks && id.name != n ==> rt'.callbacks[id] == rt.callbacks[id]
  }

  function Dropped(s: State, n: Name, rt: Runtime, f: Fate): State {
    State(Drop(s.tab, n), rt, DropAux(s.aux, n, f))
  }

  lemma DropTables(s: State, n: Name, rt: Runtime, f: Fate)
    requires Keys(s) && Contents(s)
    ensures Keys(Dropped(s, n, rt, f)) && Contents(Dropped(s, n, rt, f))
  {
  }

  lemma DropFates(s: State, n: Name, f: Fate)
    requires Fates(s.aux)
    ensures Fates(DropAux(s.aux, n, f))
  {
    var aux' := DropAux(s.aux, n, f);
    forall k: nat | k < |aux'.defs| ensures FateOk(aux', k) {
      assert FateOk(s.aux, k);
    }
  }

  lemma DropHanded(s: State, n: Name, f: Fate)
    requires Fates(s.aux) && HandedOnce(s.aux)
    ensures HandedOnce(DropAux(s.aux, n, f))
  {
    forall t | t in s.aux.handed
      ensures t.def in DropAux(s.aux, n, f).fate && DropAux(s.aux, n, f).fate[t.def] == Handed
    {
      assert FateOk(s.aux, t.def);
    }
  }

  lemma DropKnows(aux: Aux, cb: Callback, ph: Phase, m: Name, n: Name, f: Fate)
    requires CallbackOk(aux, cb, m)
    ensures CallbackOk(DropAux(aux, n, f), cb.(phase := ph), m)
  {
  }

  lemma DropCallbacks(s: State, n: Name, rt: Runtime, f: Fate)
    requires Callbacks(s.rt, s.aux) && SamePlaces(s.rt, rt)
    ensures Callbacks(rt, DropAux(s.aux, n, f))
  {
    forall id | id in rt.callbacks
      ensures id.batch < rt.batch && CallbackOk(DropAux(s.aux, n, f), rt.callbacks[id], id.name)
    {
      DropKnows(s.aux, s.rt.callbacks[id], rt.callbacks[id].phase, id.name, n, f);
    }
  }

  lemma DropTimers(s: State, n: Name, rt: Runtime, f: Fate)
    requires Timers(s) && Versions(s) && SameOutside(s.rt, rt, n)
    ensures Timers(Dropped(s, n, rt, f)) && Versions(Dropped(s, n, rt, f))
  {
    var s' := Dropped(s, n, rt, f);
    forall m | m in s'.tab.timers ensures TimerOk(s', m) {
      assert TimerOk(s, m);
    }
  }

  lemma DropInv(s: State, n: Name, rt: Runtime, f: Fate)
    requires Inv(s) && SameOutside(s.rt, rt, n)
    ensures Inv(Dropped(s, n, rt, f))
  {
    DropTables(s, n, rt, f);
    DropFates(s, n, f);
    DropHanded(s, n, f);
    DropCallbacks(s, n, rt, f);
    DropTimers(s, n, rt, f);
  }

  lemma AddInv(s: State, d: Definition)
    requires Inv(s) && d.name != ""
    ensures Inv(AddOnce(s, d))
  {
    AddKeys(s, d);
    AddContents(s, d);
    AddFates(s, d);
    AddHanded(s, d);
    AddCallbacks(s, d);
    AddVersions(s, d);
    AddTimers(s, d);
  }

  lemma StopNamedOutside(s: State, n: Name)
    requires Timers(s)
    ensures SameOutside(s.rt, StopNamed(s.tab, s.rt, n), n)
  {
    if n in s.tab.timers {
      assert TimerOk(s, n);
    }
  }

  lemma RemoveInv(s: State, n: Name)
    requires Inv(s)
    ensures Inv(RemoveNamed(s, n))
  {
    StopNamedOutside(s, n);
    DropInv(s, n, StopNamed(s.tab, s.rt, n), Removed);
  }

  // ----- a phase change -----

  lemma PhaseInv(s: State, rt: Runtime)
    requires Inv(s) && SamePlaces(s.rt, rt)
    requires forall id ::
               id in s.rt.callbacks && rt.callbacks[id] != s.rt.callbacks[id] && rt.callbacks[id].phase == Dead ==>
               !(id.name in s.tab.timers && s.tab.timers[id.name] == id)
               || (id.name in s.tab.job && s.tab.job[id.name].None?)
    ensures Inv(s.(rt := rt))
  {
    var s' := s.(rt := rt);
    forall id | id in rt.callbacks
      ensures id.batch < rt.batch && CallbackOk(s.aux, rt.callbacks[id], id.name)
    {
      assert CallbackOk(s.aux, s.rt.callbacks[id], id.name);
    }
    forall n | n in s.tab.timers ensures TimerOk(s', n) {
      assert TimerOk(s, n);
    }
  }

  function Finished(s: State, id: TimerId): Runtime
    requires id in s.rt.callbacks
  {
    s.rt.(callbacks := s.rt.callbacks[id := s.rt.callbacks[id].(phase := Dead)])
  }

  lemma CallFails(s: State, id: TimerId)
    requires Inv(s) && id in s.rt.callbacks && !Passes(s, id)
    ensures Inv(s.(rt := Finished(s, id)))
  {
    if id.name in s.tab.timers {
      assert TimerOk(s, id.name);
    }
    PhaseInv(s, Finished(s, id));
  }

  lemma TaskFaithful(s: State, n: Name)
    requires Keys(s) && Contents(s) && Fates(s.aux) && n in s.tab.job && s.tab.job[n].Some?
    ensures forall id: TimerId :: id.name == n ==>
              Faithful(s.aux, TaskOf(s, id)) && TaskOf(s, id).def !in s.aux.fate
  {
    assert FateOk(s.aux, s.aux.current[n]);
  }

  // Appending it to the list of tasks handed over.
  lemma HandInv(aux: Aux, aux': Aux, t: Task)
    requires HandedOnce(aux) && HandedOnce(aux') && aux'.handed == aux.handed && aux'.defs == aux.defs
    requires t.def !in aux.fate && t.def in aux'.fate && aux'.fate[t.def] == Handed && Faithful(aux, t)
    ensures HandedOnce(aux'.(handed := aux.handed + [t]))
  {
  }

  lemma HandedOnly(s: State, handed: seq<Task>)
    requires Inv(s) && HandedOnce(s.aux.(handed := handed))
    ensures Inv(s.(aux := s.aux.(handed := handed)))
  {
    var s' := s.(aux := s.aux.(handed := handed));
    forall k: nat | k < |s'.aux.defs| ensures FateOk(s'.aux, k) {
      assert FateOk(s.aux, k);
    }
    forall id | id in s'.rt.callbacks
      ensures id.batch < s'.rt.batch && CallbackOk(s'.aux, s'.rt.callbacks[id], id.name)
    {
      assert CallbackOk(s.aux, s.rt.callbacks[id], id.name);
    }
    forall n | n in s'.tab.timers ensures TimerOk(s', n) {
      assert TimerOk(s, n);
    }
  }

  lemma CallPasses(s: State, id: TimerId)
    requires Inv(s) && id in s.rt.callbacks && Passes(s, id)
    ensures var d := Dropped(s, id.name, Finished(s, id), Handed);
            Inv(d.(aux := d.aux.(handed := s.aux.handed + [TaskOf(s, id)])))
  {
    DropInv(s, id.name, Finished(s, id), Handed);
    TaskFaithful(s, id.name);
    HandInv(s.aux, DropAux(s.aux, id.name, Handed), TaskOf(s, id));
    HandedOnly(Dropped(s, id.name, Finished(s, id), Handed), s.aux.handed + [TaskOf(s, id)]);
  }

  lemma CallInv(s: State, id: TimerId)
    requires Inv(s) && id in s.rt.callbacks
    ensures Inv(RunCallback(s, id))
  {
    if Passes(s, id) {
      CallPasses(s, id);
    } else {
      CallFails(s, id);
    }
  }

  lemma FireInv(s: State, id: TimerId)
    requires Inv(s) && id in s.rt.callbacks
    ensures Inv(s.(rt := s.rt.(callbacks := s.rt.callbacks[id := s.rt.callbacks[id].(phase := Fired)])))
  {
    PhaseInv(s, s.rt.(callbacks := s.rt.callbacks[id := s.rt.callbacks[id].(phase := Fired)]));
  }

  // ----- Stop and Start -----

  lemma ClearInv(s: State)
    requires Inv(s)
    ensures Inv(ClearTimers(s))
  {
    var s' := ClearTimers(s);
    forall id | id in s'.rt.callbacks
      ensures id.batch < s'.rt.batch && CallbackOk(s'.aux, s'.rt.callbacks[id], id.name)
    {
      assert CallbackOk(s.aux, s.rt.callbacks[id], id.name);
    }
    forall k: nat | k < |s'.aux.defs| ensures FateOk(s'.aux, k) {
      assert FateOk(s.aux, k);
    }
  }

  lemma RebuildKeys(s: State)
    requires Keys(s)
    ensures Keys(Rebuild(s))
  {
  }

  lemma RebuildContents(s: State)
    requires Keys(s) && Contents(s)
    ensures Contents(Rebuild(s))
  {
  }

  lemma RebuildVersions(s: State)
    requires Keys(s) && Versions(s)
    ensures Versions(Rebuild(s))
  {
  }

  lemma LostFates(aux: Aux, lost: set<Name>)
    requires Fates(aux) && lost <= aux.current.Keys
    ensures Fates(LostAux(aux, lost))
  {
    var aux' := LostAux(aux, lost);
    forall k: nat | k < |aux'.defs| ensures FateOk(aux', k) {
      assert FateOk(aux, k);
    }
  }

  lemma LostHanded(aux: Aux, lost: set<Name>)
    requires HandedOnce(aux)
    ensures HandedOnce(LostAux(aux, lost))
  {
  }

  lemma LostKnows(aux: Aux, lost: set<Name>, cb: Callback, ph: Phase, m: Name)
    requires CallbackOk(aux, cb, m) && lost <= aux.current.Keys
    ensures CallbackOk(LostAux(aux, lost), cb.(phase := ph), m)
  {
  }

  lemma FreshKnows(s: State, n: Name)
    requires Keys(s) && Contents(s) && Versions(s) && n in s.tab.at && n !in Lost(s.tab)
    ensures CallbackOk(LostAux(s.aux, Lost(s.tab)), FreshCallback(s, n), n)
  {
  }

  lemma FreshTimer(s: State, n: Name)
    requires Keys(s) && n in s.tab.at && n !in Lost(s.tab)
    ensures TimerOk(Rebuild(s), n)
  {
    assert TimerId(s.rt.batch, n) in FreshCallbacks(s);
  }

  lemma RebuiltOld(s: State, id: TimerId)
    requires id in s.rt.callbacks && id.batch < s.rt.batch
    ensures var cbs := Rebuild(s).rt.callbacks;
            id in cbs && cbs[id] == s.rt.callbacks[id].(phase := cbs[id].phase)
  {
    assert id !in FreshCallbacks(s);
  }

  lemma RebuiltNew(s: State, id: TimerId)
    requires id in Rebuild(s).rt.callbacks && id !in s.rt.callbacks
    ensures id.batch == s.rt.batch && id.name in s.tab.at && id.name !in Lost(s.tab)
    ensures Rebuild(s).rt.callbacks[id] == FreshCallback(s, id.name)
  {
    assert id in FreshCallbacks(s);
  }

  lemma RebuildCallback(s: State, id: TimerId)
    requires Keys(s) && Contents(s) && Versions(s) && Callbacks(s.rt, s.aux) && id in Rebuild(s).rt.callbacks
    ensures id.batch < Rebuild(s).rt.batch && CallbackOk(Rebuild(s).aux, Rebuild(s).rt.callbacks[id], id.name)
  {
    if id in s.rt.callbacks {
      RebuiltOld(s, id);
      LostKnows(s.aux, Lost(s.tab), s.rt.callbacks[id], Rebuild(s).rt.callbacks[id].phase, id.name);
    } else {
      RebuiltNew(s, id);
      FreshKnows(s, id.name);
    }
  }

  lemma RebuildInv(s: State)
    requires Inv(s)
    ensures Inv(Rebuild(s))
  {
    var s' := Rebuild(s);
    RebuildKeys(s);
    RebuildContents(s);
    RebuildVersions(s);
    LostFates(s.aux, Lost(s.tab));
    LostHanded(s.aux, Lost(s.tab));
    forall id | id in s'.rt.callbacks
      ensures id.batch < s'.rt.batch && CallbackOk(s'.aux, s'.rt.callbacks[id], id.name)
    {
      RebuildCallback(s, id);
    }
    forall n | n in s'.tab.timers ensures TimerOk(s', n) {
      FreshTimer(s, n);
    }
  }
}
