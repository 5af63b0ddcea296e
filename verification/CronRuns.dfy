/**
Whole runs of the cron definitions through the service's phases: upserts, removals, starts, stops, and
Applies that change the timezone.

The service's field holds one cron, but others may be live beside it. Stop takes the cron out of the
field before it stops it. An Apply with another timezone restarts the cron even while the service is
stopping, when it finds none in the field; the finalizer leaves that one there, and the next Start puts
its own cron into the field without stopping the one it finds. Nothing ever stops an abandoned cron or
removes an entry from it. Its entries are part of every statement here.
*/
module CronRuns {
  import opened Wrappers
  import opened CronIndex
  import opened CronCapture
  import Text

  datatype Phase = Stopped | Running | Stopping

  datatype World = World(
    phase: Phase,
    t: Table,                     // the definitions, and the cron in the service's field
    retiring: Option<Cron>,       // taken out of the field by Stop and not stopped yet
    abandoned: seq<Cron>)         // overwritten by Start, and live ever after

  datatype Op =
    | AddOp(name: Name, spec: nat, job: nat, extra: nat)
    | RemoveOp(name: Name)
    | StartOp
    | StopOp
    | CronStopOp                  // the stop in progress stops the cron it took
    | FinalizeOp                  // the stop in progress is completed
    | ApplyOp                     // Apply with another timezone

  function Initial(parses: nat -> bool): (w: World)
    ensures Shape(w.t)
  {
    World(Stopped, Table(map[0 := []], 0, 0, None, 1, parses), None, [])
  }

  // Calls in the wrong phase return, or wait and are repeated; here they do nothing.
  function Step(w: World, op: Op): (r: World)
    requires Shape(w.t)
    ensures Shape(r.t)
  {
    match op
    case AddOp(name, spec, job, extra) => w.(t := Add(w.t, name, spec, job, extra).t)
    case RemoveOp(name) => w.(t := Remove(w.t, name))
    case StartOp =>
      if w.phase != Stopped then w
      else World(Running, StartCron(w.t), w.retiring, w.abandoned + InField(w))
    case StopOp =>
      if w.phase != Running then w
      else World(Stopping, StopCron(w.t), w.t.cron, w.abandoned)
    case CronStopOp => if w.phase != Stopping then w else w.(retiring := None)
    case FinalizeOp => if w.phase != Stopping || w.retiring.Some? then w else w.(phase := Stopped)
    case ApplyOp => if w.phase == Stopped then w else w.(t := StartCron(w.t))
  }

  function InField(w: World): seq<Cron> {
    if w.t.cron.Some? then [w.t.cron.value] else []
  }

  function Run(parses: nat -> bool, ops: seq<Op>): (w: World)
    ensures Shape(w.t)
  {
    if ops == [] then Initial(parses) else Step(Run(parses, ops[..|ops| - 1]), ops[|ops| - 1])
  }

  // ----- what every run keeps -----

  function Strays(w: World): seq<Cron> {
    w.abandoned + (if w.retiring.Some? then [w.retiring.value] else [])
  }

  // A cron that was registered in full has one entry at most for each registration made so far.
  ghost predicate Once(c: Cron, nextReg: nat) {
    && (forall e :: e in c.entries ==> c.entries[e].own < nextReg)
    && (forall e, f :: e in c.entries && f in c.entries && c.entries[e].own == c.entries[f].own ==> e == f)
  }

  ghost predicate AllOnce(crons: seq<Cron>, nextReg: nat) {
    forall i :: 0 <= i < |crons| ==> Once(crons[i], nextReg)
  }

  predicate PhaseOk(w: World) {
    && (w.phase == Running ==> w.t.cron.Some? && w.retiring.None?)
    && (w.phase == Stopped ==> w.retiring.None?)
  }

  ghost predicate Inv(w: World) {
    Indexed(w.t) && PhaseOk(w) && AllOnce(Strays(w), w.t.nextReg)
  }

  lemma OwnOnce(t: Table)
    requires Agrees(t) && t.cron.Some?
    ensures Once(t.cron.value, t.nextReg)
  {
    var c := t.cron.value;
    forall e | e in c.entries ensures c.entries[e].own < t.nextReg {
      EntryOwner(t, e);
    }
    forall e, f | e in c.entries && f in c.entries && c.entries[e].own == c.entries[f].own ensures e == f {
      EntryOwner(t, e);
      EntryOwner(t, f);
    }
  }

  lemma {:induction false} RegisteredNumbers(t: Table, i: nat)
    requires Shape(t) && i <= t.len && t.cron.Some?
    ensures RegisterAll(t, i).nextReg == t.nextReg && RegisterAll(t, i).parses == t.parses
    decreases t.len - i
  {
    if i < t.len {
      RegisteredNumbers(Register(t, i), i + 1);
    }
  }

  lemma StartNumbers(t: Table)
    requires Shape(t)
    ensures StartCron(t).nextReg == t.nextReg && StartCron(t).parses == t.parses && StartCron(t).cron.Some?
  {
    RegisteredNumbers(t.(cron := Some(Cron(map[], 1))), 0);
  }

  lemma AddNumbers(t: Table, name: Name, spec: nat, job: nat, extra: nat)
    requires Shape(t)
    ensures var a := Add(t, name, spec, job, extra).t;
            t.nextReg <= a.nextReg && a.parses == t.parses && a.cron.Some? == t.cron.Some?
  {
  }

  // Registration numbers only grow, the accepted specs stay.
  lemma StepNumbers(w: World, op: Op)
    requires Shape(w.t)
    ensures w.t.nextReg <= Step(w, op).t.nextReg && Step(w, op).t.parses == w.t.parses
  {
    match op
    case AddOp(name, spec, job, extra) => AddNumbers(w.t, name, spec, job, extra);
    case StartOp => StartNumbers(w.t);
    case ApplyOp => StartNumbers(w.t);
    case _ =>
  }

  lemma StepIndexed(w: World, op: Op)
    requires Indexed(w.t)
    ensures Indexed(Step(w, op).t)
  {
    match op
    case AddOp(name, spec, job, extra) =>
      if Text.Trim(name) != "" {
        AddIndexed(w.t, name, spec, job, extra);
      }
    case RemoveOp(name) => RemoveIndexed(w.t, name);
    case StartOp => StartIndexed(w.t);
    case ApplyOp => StartIndexed(w.t);
    case _ =>
  }

  lemma StepPhase(w: World, op: Op)
    requires Shape(w.t) && PhaseOk(w)
    ensures PhaseOk(Step(w, op))
  {
    match op
    case AddOp(name, spec, job, extra) => AddNumbers(w.t, name, spec, job, extra);
    case StartOp => StartNumbers(w.t);
    case ApplyOp => StartNumbers(w.t);
    case _ =>
  }

  // A step adds no live cron but the service's own one, whether it retires or is abandoned.
  lemma StepStrays(w: World, op: Op)
    requires Shape(w.t) && PhaseOk(w)
    ensures forall c :: c in Strays(Step(w, op)) ==> c in Strays(w) || w.t.cron == Some(c)
  {
  }

  lemma StepInv(w: World, op: Op)
    requires Inv(w)
    ensures Inv(Step(w, op))
  {
    var r := Step(w, op);
    StepIndexed(w, op);
    StepPhase(w, op);
    StepStrays(w, op);
    StepNumbers(w, op);
    if w.t.cron.Some? {
      OwnOnce(w.t);
    }
    forall i | 0 <= i < |Strays(r)| ensures Once(Strays(r)[i], r.t.nextReg) {
      assert Strays(r)[i] in Strays(r);
    }
  }

  // In every run, whatever names it adds: the definitions with a valid spec and the entries of the cron in
  // the service's field correspond one to one, and a name that a removal can find stands in the list at
  // most once.
  lemma {:induction false} RunInv(parses: nat -> bool, ops: seq<Op>)
    ensures Inv(Run(parses, ops))
  {
    if ops != [] {
      RunInv(parses, ops[..|ops| - 1]);
      StepInv(Run(parses, ops[..|ops| - 1]), ops[|ops| - 1]);
    }
  }

  // ----- names -----

  predicate TrimmedName(op: Op) {
    op.AddOp? ==> Text.Trimmed(op.name)
  }

  lemma AddUnique(t: Table, name: Name, spec: nat, job: nat, extra: nat)
    requires Agrees(t) && UniqueNames(Defs(t)) && Text.Clean(name)
    ensures UniqueNames(Defs(Add(t, name, spec, job, extra).t))
  {
    Text.TrimFixed(name);
    AddAgrees(t, name, spec, job, extra);
    WithoutUnique(Defs(t), name);
    WithoutKeeps(Defs(t), name);
  }

  lemma StartUnique(t: Table)
    requires Agrees(t) && UniqueNames(Defs(t))
    ensures UniqueNames(Defs(StartCron(t)))
  {
    StartAgrees(t);
    var ds, ds' := Defs(t), Defs(StartCron(t));
    forall i, j | 0 <= i < j < |ds'| ensures ds'[i].name != ds'[j].name {
      assert ds[i].name != ds[j].name;
    }
  }

  lemma StepUnique(w: World, op: Op)
    requires Agrees(w.t) && UniqueNames(Defs(w.t)) && TrimmedName(op)
    ensures UniqueNames(Defs(Step(w, op).t))
  {
    match op
    case AddOp(name, spec, job, extra) =>
      Text.TrimFixed(name);
      if name != "" {
        AddUnique(w.t, name, spec, job, extra);
      }
    case RemoveOp(name) =>
      RemoveAgrees(w.t, name);
      WithoutUnique(Defs(w.t), Text.Trim(name));
    case StartOp => StartUnique(w.t);
    case ApplyOp => StartUnique(w.t);
    case _ =>
  }

  // Names stay unique in every run that only adds names equal to their trimmed form.
  lemma {:induction false} RunUnique(parses: nat -> bool, ops: seq<Op>)
    requires forall i :: 0 <= i < |ops| ==> TrimmedName(ops[i])
    ensures UniqueNames(Defs(Run(parses, ops).t))
  {
    if ops != [] {
      var before := ops[..|ops| - 1];
      assert forall i :: 0 <= i < |before| ==> before[i] == ops[i];
      RunInv(parses, before);
      RunUnique(parses, before);
      StepUnique(Run(parses, before), ops[|ops| - 1]);
    }
  }

  // Upserting a name twice leaves one definition of it exactly if the name is trimmed.
  lemma UpsertTwice(t: Table, name: Name, spec: nat, job: nat, extra: nat, extra2: nat)
    requires Agrees(t) && UniqueNames(Defs(t)) && Text.Trim(name) != ""
    ensures UniqueNames(Defs(Add(Add(t, name, spec, job, extra).t, name, spec, job, extra2).t)) <==> Text.Trimmed(name)
  {
    var t1 := Add(t, name, spec, job, extra).t;
    AddAgrees(t, name, spec, job, extra);
    if Text.Trimmed(name) {
      Text.TrimFixed(name);
      AddUnique(t, name, spec, job, extra);
      AddUnique(t1, name, spec, job, extra2);
    } else {
      UntrimmedTwice(t1, name, spec, job, extra2);
    }
  }

  // An untrimmed name does not replace itself.
  lemma UntrimmedTwice(t: Table, name: Name, spec: nat, job: nat, extra: nat)
    requires Agrees(t) && Text.Trim(name) != "" && !Text.Trimmed(name)
    requires t.len > 0 && Defs(t)[t.len - 1].name == name
    ensures !UniqueNames(Defs(Add(t, name, spec, job, extra).t))
  {
    var kept := Without(Defs(t), Text.Trim(name));
    Text.TrimFixed(name);
    KeptIndex(Defs(t), t.len - 1, Text.Trim(name));
    var i :| 0 <= i < |kept| && kept[i] == Defs(t)[t.len - 1];
    AddAgrees(t, name, spec, job, extra);
    RepeatedName(kept, i, Def(t.nextReg, name, spec, job, LastEntry(Add(t, name, spec, job, extra).t)));
  }

  lemma KeptIndex(ds: seq<Def>, k: nat, n: Name)
    requires k < |ds| && ds[k].name != n
    ensures exists i :: 0 <= i < |Without(ds, n)| && Without(ds, n)[i] == ds[k]
  {
    WithoutKeeps(ds, n);
    assert ds[k] in Without(ds, n);
  }

  lemma RepeatedName(ds: seq<Def>, i: nat, d: Def)
    requires i < |ds| && ds[i].name == d.name
    ensures !UniqueNames(ds + [d])
  {
    assert (ds + [d])[i].name == (ds + [d])[|ds|].name;
  }

  predicate RemovedBy(t: Table, d: Def, m: Name)
    requires Shape(t)
  {
    d !in Defs(Remove(t, m))
  }

  lemma RemovedExactly(t: Table, d: Def, m: Name)
    requires Agrees(t) && d in Defs(t)
    ensures RemovedBy(t, d, m) <==> Text.Trim(m) == d.name != ""
  {
    RemoveAgrees(t, m);
    WithoutKeeps(Defs(t), Text.Trim(m));
  }

  lemma TrimMakesClean(m: Name)
    ensures Text.Trim(m) != "" ==> Text.Clean(Text.Trim(m))
    ensures Text.Clean(m) ==> Text.Trim(m) == m
  {
    Text.TrimFixed(m);
  }

  // A removed definition has a clean name.
  lemma OnlyCleanRemoved(t: Table, d: Def, m: Name)
    requires Agrees(t) && d in Defs(t) && RemovedBy(t, d, m)
    ensures Text.Clean(d.name)
  {
    RemovedExactly(t, d, m);
    TrimMakesClean(m);
  }

  // A definition can be removed by some call to Remove exactly if its name is trimmed and not empty.
  lemma Removable(t: Table, d: Def)
    requires Agrees(t) && d in Defs(t)
    ensures (exists m: Name :: RemovedBy(t, d, m)) <==> Text.Clean(d.name)
  {
    if Text.Clean(d.name) {
      TrimMakesClean(d.name);
      RemovedExactly(t, d, d.name);
    }
    if m: Name :| RemovedBy(t, d, m) {
      OnlyCleanRemoved(t, d, m);
    }
  }

  // ----- all live entries -----

  // Every live cron; while the service runs the first is its own and the others are abandoned.
  function Crons(w: World): seq<Cron> {
    InField(w) + Strays(w)
  }

  predicate Live(w: World, k: nat, e: nat) {
    k < |Crons(w)| && e in Crons(w)[k].entries
  }

  // The e-th entry of the k-th live cron was made for the registration; had its closure captured the
  // definition by value, this is the one it would fire.
  predicate MadeFor(w: World, k: nat, e: nat, reg: nat) {
    Live(w, k, e) && Crons(w)[k].entries[e].own == reg
  }

  predicate Valid(w: World, i: nat)
    requires Shape(w.t)
  {
    i < w.t.len && w.t.parses(Defs(w.t)[i].spec)
  }

  // Every definition with a valid spec has a live entry, none has two, and there are no others.
  ghost predicate OneToOne(w: World)
    requires Shape(w.t)
  {
    && (forall i: nat :: Valid(w, i) ==> exists k: nat, e: nat :: MadeFor(w, k, e, Defs(w.t)[i].reg))
    && (forall reg: nat, k: nat, e: nat, l: nat, f: nat :: MadeFor(w, k, e, reg) && MadeFor(w, l, f, reg) ==>
        k == l && e == f)
    && (forall reg: nat, k: nat, e: nat :: MadeFor(w, k, e, reg) ==>
        exists i: nat :: Valid(w, i) && Defs(w.t)[i].reg == reg)
  }

  ghost predicate OncePerCron(w: World, reg: nat) {
    forall k: nat, e: nat, f: nat :: MadeFor(w, k, e, reg) && MadeFor(w, k, f, reg) ==> e == f
  }

  // Each live cron makes a definition fire at most once; the service's own fires each exactly once.
  lemma PerCron(w: World, i: nat)
    requires Inv(w) && w.phase == Running && Valid(w, i)
    ensures MadeFor(w, 0, Defs(w.t)[i].entry, Defs(w.t)[i].reg)
    ensures OncePerCron(w, Defs(w.t)[i].reg)
  {
    OwnOnce(w.t);
    forall k: nat, e: nat, f: nat | MadeFor(w, k, e, Defs(w.t)[i].reg) && MadeFor(w, k, f, Defs(w.t)[i].reg)
      ensures e == f
    {
      assert Once(Crons(w)[k], w.t.nextReg);
    }
  }

  // Captured by value, the closures of the service's own cron fire each definition once, the one that
  // lists the entry; those of an abandoned cron fire it at most once more each.
  lemma OwnCapture(parses: nat -> bool, ops: seq<Op>, i: nat)
    requires var w := Run(parses, ops); w.phase == Running && Valid(w, i)
    ensures var w := Run(parses, ops);
            && MadeFor(w, 0, Defs(w.t)[i].entry, Defs(w.t)[i].reg)
            && OncePerCron(w, Defs(w.t)[i].reg)
  {
    RunInv(parses, ops);
    PerCron(Run(parses, ops), i);
  }

  predicate NoneLeft(crons: seq<Cron>) {
    forall i :: 0 <= i < |crons| ==> crons[i].entries == map[]
  }

  lemma OnlyOwn(w: World)
    requires Inv(w) && w.phase == Running && NoneLeft(w.abandoned)
    ensures forall k: nat, e: nat :: Live(w, k, e) ==> k == 0
  {
    assert forall k :: 0 < k < |Crons(w)| ==> Crons(w)[k] == w.abandoned[k - 1];
  }

  lemma OwnEntries(w: World, e: nat)
    requires Inv(w) && w.phase == Running && Live(w, 0, e)
    ensures exists i: nat :: Valid(w, i) && Defs(w.t)[i].reg == Crons(w)[0].entries[e].own
  {
    EntryOwner(w.t, e);
    var i :| 0 <= i < w.t.len && Defs(w.t)[i].entry == e && Defs(w.t)[i].reg == w.t.cron.value.entries[e].own;
    assert Valid(w, i);
  }

  lemma NoneLeftAgrees(w: World)
    requires Inv(w) && w.phase == Running && NoneLeft(w.abandoned)
    ensures OneToOne(w)
  {
    OnlyOwn(w);
    OwnOnce(w.t);
    forall i: nat | Valid(w, i) ensures exists k: nat, e: nat :: MadeFor(w, k, e, Defs(w.t)[i].reg) {
      PerCron(w, i);
    }
    forall reg: nat, k: nat, e: nat | MadeFor(w, k, e, reg)
      ensures exists i: nat :: Valid(w, i) && Defs(w.t)[i].reg == reg
    {
      OwnEntries(w, e);
    }
  }

  // An abandoned entry belongs to a definition that has an entry in the service's cron too, or to none.
  lemma LeftDisagrees(w: World, a: nat, e: nat)
    requires Inv(w) && w.phase == Running && a < |w.abandoned| && e in w.abandoned[a].entries
    ensures !OneToOne(w)
  {
    var reg := w.abandoned[a].entries[e].own;
    assert Crons(w)[a + 1] == w.abandoned[a];
    assert MadeFor(w, a + 1, e, reg);
    if i: nat :| Valid(w, i) && Defs(w.t)[i].reg == reg {
      PerCron(w, i);
    }
  }

  lemma AgreesExactly(w: World)
    requires Inv(w) && w.phase == Running
    ensures OneToOne(w) <==> NoneLeft(w.abandoned)
  {
    if NoneLeft(w.abandoned) {
      NoneLeftAgrees(w);
    } else {
      var a :| 0 <= a < |w.abandoned| && w.abandoned[a].entries != map[];
      var e :| e in w.abandoned[a].entries;
      LeftDisagrees(w, a, e);
    }
  }

  // ----- which runs abandon a cron -----

  // A Start that finds a cron with entries in the field.
  predicate Overwrites(w: World, op: Op) {
    op.StartOp? && w.phase == Stopped && w.t.cron.Some? && w.t.cron.value.entries != map[]
  }

  ghost predicate SomeOverwritten(parses: nat -> bool, ops: seq<Op>) {
    ops != [] && (SomeOverwritten(parses, ops[..|ops| - 1])
        || Overwrites(Run(parses, ops[..|ops| - 1]), ops[|ops| - 1]))
  }

  lemma StepLeft(w: World, op: Op)
    requires Shape(w.t)
    ensures NoneLeft(Step(w, op).abandoned) <==> NoneLeft(w.abandoned) && !Overwrites(w, op)
  {
    if op.StartOp? && w.phase == Stopped && w.t.cron.Some? {
      OneMoreLeft(w.abandoned, w.t.cron.value);
    } else {
      assert w.abandoned + [] == w.abandoned;
    }
  }

  lemma OneMoreLeft(crons: seq<Cron>, c: Cron)
    ensures NoneLeft(crons + [c]) <==> NoneLeft(crons) && c.entries == map[]
  {
    assert (crons + [c])[|crons|] == c;
    assert forall i :: 0 <= i < |crons| ==> (crons + [c])[i] == crons[i];
  }

  lemma {:induction false} LeftExactly(parses: nat -> bool, ops: seq<Op>)
    ensures NoneLeft(Run(parses, ops).abandoned) <==> !SomeOverwritten(parses, ops)
  {
    if ops != [] {
      LeftExactly(parses, ops[..|ops| - 1]);
      StepLeft(Run(parses, ops[..|ops| - 1]), ops[|ops| - 1]);
    }
  }

  // In any run, at any moment when the service is running, the live entries of all crons and the
  // definitions with a valid spec correspond one to one exactly if no Start so far found a cron with
  // entries in the field.
  lemma RunAgrees(parses: nat -> bool, ops: seq<Op>)
    requires Run(parses, ops).phase == Running
    ensures OneToOne(Run(parses, ops)) <==> !SomeOverwritten(parses, ops)
  {
    RunInv(parses, ops);
    AgreesExactly(Run(parses, ops));
    LeftExactly(parses, ops);
  }

  // The world after more operations.
  function Later(w: World, ops: seq<Op>): (r: World)
    requires Shape(w.t)
    ensures Shape(r.t)
  {
    if ops == [] then w else Step(Later(w, ops[..|ops| - 1]), ops[|ops| - 1])
  }

  lemma StepAbandoned(w: World, op: Op)
    requires Shape(w.t)
    ensures w.abandoned <= Step(w, op).abandoned
  {
  }

  // An abandoned cron stays as it is, whatever is added, removed, stopped or started.
  lemma {:induction false} AbandonedForever(w: World, ops: seq<Op>)
    requires Shape(w.t)
    ensures w.abandoned <= Later(w, ops).abandoned
  {
    if ops != [] {
      AbandonedForever(w, ops[..|ops| - 1]);
      StepAbandoned(Later(w, ops[..|ops| - 1]), ops[|ops| - 1]);
    }
  }

  // An Apply with another timezone that comes while the service is stopping.
  predicate AppliesWhileStopping(w: World, op: Op) {
    op.ApplyOp? && w.phase == Stopping
  }

  ghost predicate SomeApplyWhileStopping(parses: nat -> bool, ops: seq<Op>) {
    ops != [] && (SomeApplyWhileStopping(parses, ops[..|ops| - 1])
                  || AppliesWhileStopping(Run(parses, ops[..|ops| - 1]), ops[|ops| - 1]))
  }

  // A cron that nobody will stop: abandoned, or in the field of a service that does not run.
  predicate Unattended(w: World) {
    w.abandoned != [] || (w.phase != Running && w.t.cron.Some?)
  }

  lemma StepUnattended(w: World, op: Op)
    requires Shape(w.t) && PhaseOk(w)
    ensures Unattended(Step(w, op)) <==> Unattended(w) || AppliesWhileStopping(w, op)
  {
    match op
    case AddOp(name, spec, job, extra) => AddNumbers(w.t, name, spec, job, extra);
    case StartOp => StartNumbers(w.t);
    case ApplyOp => StartNumbers(w.t);
    case _ =>
  }

  // Crons are abandoned exactly in the runs in which an Apply with another timezone comes between a Stop
  // and its completion: the running service has another live cron beside its own exactly if one did.
  lemma {:induction false} AbandonedExactly(parses: nat -> bool, ops: seq<Op>)
    ensures Unattended(Run(parses, ops)) <==> SomeApplyWhileStopping(parses, ops)
    ensures Run(parses, ops).phase == Running ==>
              (|Crons(Run(parses, ops))| > 1 <==> SomeApplyWhileStopping(parses, ops))
  {
    RunInv(parses, ops);
    if ops != [] {
      AbandonedExactly(parses, ops[..|ops| - 1]);
      RunInv(parses, ops[..|ops| - 1]);
      StepUnattended(Run(parses, ops[..|ops| - 1]), ops[|ops| - 1]);
    }
  }

  // ----- firing -----

  // Every entry of the cron reads its own definition.
  ghost predicate CronFaithful(t: Table, c: Cron) {
    forall e :: e in c.entries ==> Faithful(t, c.entries[e])
  }

  ghost predicate CronsFaithful(t: Table, crons: seq<Cron>) {
    forall i :: 0 <= i < |crons| ==> CronFaithful(t, crons[i])
  }

  // Every live entry, of whatever cron, reads its own definition.
  ghost predicate EntriesFaithful(w: World) {
    AllFaithful(w.t) && CronsFaithful(w.t, Strays(w))
  }

  lemma EntriesFaithfulMeans(w: World)
    ensures EntriesFaithful(w) <==> forall k: nat, e: nat :: Live(w, k, e) ==> Faithful(w.t, Crons(w)[k].entries[e])
  {
    var n := |InField(w)|;
    assert forall i :: 0 <= i < |Strays(w)| ==> Crons(w)[i + n] == Strays(w)[i];
    if forall k: nat, e: nat :: Live(w, k, e) ==> Faithful(w.t, Crons(w)[k].entries[e]) {
      forall i | 0 <= i < |Strays(w)| ensures CronFaithful(w.t, Strays(w)[i]) {
        assert forall e :: e in Strays(w)[i].entries ==> Live(w, i + n, e);
      }
      assert w.t.cron.Some? ==> forall e :: e in w.t.cron.value.entries ==> Live(w, 0, e);
    }
    if EntriesFaithful(w) {
      forall k: nat, e: nat | Live(w, k, e) ensures Faithful(w.t, Crons(w)[k].entries[e]) {
        assert k >= n ==> Crons(w)[k] == Strays(w)[k - n];
      }
    }
  }

  // The operation writes no cell that a live entry which outlives it points to. Entries of crons that are
  // not in the service's field outlive everything but the end of their cron.
  ghost predicate Harmless(w: World, op: Op)
    requires Shape(w.t)
  {
    match op
    case AddOp(name, _, _, _) =>
      var n := Text.Trim(name);
      n == "" || (AddMisses(w.t, n) && NoneWritten(w.t, n, Strays(w)))
    case RemoveOp(name) =>
      var n := Text.Trim(name);
      n == "" || (RemoveMisses(w.t, n) && NoneMoved(w.t, n, Strays(w)))
    case _ => true
  }

  ghost predicate NoneWritten(t: Table, n: Name, crons: seq<Cron>)
    requires Shape(t)
  {
    forall i, e :: 0 <= i < |crons| && e in crons[i].entries ==> !Writes(t, n, crons[i].entries[e].slot)
  }

  ghost predicate NoneMoved(t: Table, n: Name, crons: seq<Cron>)
    requires Shape(t)
  {
    forall i, e :: 0 <= i < |crons| && e in crons[i].entries ==> !Moves(t, n, crons[i].entries[e].slot)
  }

  lemma StraysAdd(t: Table, name: Name, spec: nat, job: nat, extra: nat, crons: seq<Cron>)
    requires Indexed(t) && Text.Trim(name) != "" && CronsFaithful(t, crons) && AllOnce(crons, t.nextReg)
    ensures CronsFaithful(Add(t, name, spec, job, extra).t, crons) <==> NoneWritten(t, Text.Trim(name), crons)
  {
    var a, n := Add(t, name, spec, job, extra).t, Text.Trim(name);
    forall i, e | 0 <= i < |crons| && e in crons[i].entries
      ensures Faithful(a, crons[i].entries[e]) <==> !Writes(t, n, crons[i].entries[e].slot)
    {
      assert CronFaithful(t, crons[i]) && Once(crons[i], t.nextReg);
      AfterUpsert(t, name, spec, job, extra, crons[i].entries[e]);
    }
    SameQuestion(a, crons);
  }

  lemma StraysRemove(t: Table, n: Name, crons: seq<Cron>)
    requires Indexed(t) && Text.Clean(n) && CronsFaithful(t, crons)
    ensures CronsFaithful(RemoveCells(t, n), crons) <==> NoneMoved(t, n, crons)
  {
    var r := RemoveCells(t, n);
    forall i, e | 0 <= i < |crons| && e in crons[i].entries
      ensures Faithful(r, crons[i].entries[e]) <==> !Moves(t, n, crons[i].entries[e].slot)
    {
      assert CronFaithful(t, crons[i]);
      AfterRemoval(t, n, crons[i].entries[e]);
    }
    SameQuestion(r, crons);
  }

  lemma SameQuestion(t: Table, crons: seq<Cron>)
    ensures CronsFaithful(t, crons) <==>
            forall i, e :: 0 <= i < |crons| && e in crons[i].entries ==> Faithful(t, crons[i].entries[e])
  {
    if CronsFaithful(t, crons) {
      forall i, e | 0 <= i < |crons| && e in crons[i].entries ensures Faithful(t, crons[i].entries[e]) {
        assert CronFaithful(t, crons[i]);
      }
    }
  }

  lemma StrayStart(t: Table, c: Cron)
    requires Shape(t) && CronFaithful(t, c)
    ensures CronFaithful(StartCron(t), c)
  {
    forall e | e in c.entries ensures Faithful(StartCron(t), c.entries[e]) {
      OthersStarted(t, c.entries[e]);
    }
  }

  lemma AddHarmless(w: World, name: Name, spec: nat, job: nat, extra: nat)
    requires Inv(w) && EntriesFaithful(w)
    ensures EntriesFaithful(Step(w, AddOp(name, spec, job, extra))) <==> Harmless(w, AddOp(name, spec, job, extra))
  {
    if Text.Trim(name) != "" {
      AddFaithful(w.t, name, spec, job, extra);
      StraysAdd(w.t, name, spec, job, extra, Strays(w));
    }
  }

  lemma RemoveHarmless(w: World, name: Name)
    requires Inv(w) && EntriesFaithful(w)
    ensures EntriesFaithful(Step(w, RemoveOp(name))) <==> Harmless(w, RemoveOp(name))
  {
    var n := Text.Trim(name);
    if n != "" {
      TrimmedClean(name);
      RemoveFaithful(w.t, n);
      StraysRemove(w.t, n, Strays(w));
    }
  }

  lemma StartHarmless(w: World, op: Op)
    requires Inv(w) && EntriesFaithful(w) && (op.StartOp? || op.ApplyOp?)
    ensures EntriesFaithful(Step(w, op))
  {
    var r := Step(w, op);
    StartFaithful(w.t);
    StepStrays(w, op);
    forall i | 0 <= i < |Strays(r)| ensures CronFaithful(r.t, Strays(r)[i]) {
      assert Strays(r)[i] in Strays(r);
      if r != w {
        StrayStart(w.t, Strays(r)[i]);
      }
    }
  }

  lemma OtherHarmless(w: World, op: Op)
    requires Inv(w) && EntriesFaithful(w) && (op.StopOp? || op.CronStopOp? || op.FinalizeOp?)
    ensures EntriesFaithful(Step(w, op))
  {
    var r := Step(w, op);
    StepStrays(w, op);
    forall i | 0 <= i < |Strays(r)| ensures CronFaithful(r.t, Strays(r)[i]) {
      assert Strays(r)[i] in Strays(r);
    }
  }

  // One operation, of any kind: where every live entry reads its own definition it still does afterwards
  // exactly if the operation is harmless.
  lemma StepFaithful(w: World, op: Op)
    requires Inv(w) && EntriesFaithful(w)
    ensures EntriesFaithful(Step(w, op)) <==> Harmless(w, op)
  {
    match op
    case AddOp(name, spec, job, extra) => AddHarmless(w, name, spec, job, extra);
    case RemoveOp(name) => RemoveHarmless(w, name);
    case StartOp => StartHarmless(w, op);
    case ApplyOp => StartHarmless(w, op);
    case _ => OtherHarmless(w, op);
  }

  // At every moment of the run every live entry reads its own definition.
  ghost predicate FaithfulThroughout(parses: nat -> bool, ops: seq<Op>) {
    EntriesFaithful(Run(parses, ops)) && (ops == [] || FaithfulThroughout(parses, ops[..|ops| - 1]))
  }

  // Every operation of the run was harmless when it came.
  ghost predicate HarmlessThroughout(parses: nat -> bool, ops: seq<Op>) {
    ops == [] || (HarmlessThroughout(parses, ops[..|ops| - 1])
        && Harmless(Run(parses, ops[..|ops| - 1]), ops[|ops| - 1]))
  }

  // In any run, with any names and specs, every live entry of every cron fires its own definition at every
  // moment exactly if no operation writes a cell that a live entry which outlives it points to.
  lemma {:induction false} RunFaithful(parses: nat -> bool, ops: seq<Op>)
    ensures FaithfulThroughout(parses, ops) <==> HarmlessThroughout(parses, ops)
  {
    if ops != [] {
      var before := ops[..|ops| - 1];
      RunFaithful(parses, before);
      RunInv(parses, before);
      if FaithfulThroughout(parses, before) {
        StepFaithful(Run(parses, before), ops[|ops| - 1]);
      }
    }
  }

  // ----- the shortest run that abandons a cron -----

  // The list holds one definition, and the service's cron one entry, which points to its cell.
  ghost predicate OneDef(t: Table, d: Def) {
    && Shape(t) && t.len == 1 && t.cron.Some? && t.parses(d.spec)
    && Defs(t)[0] == d.(entry := Defs(t)[0].entry) && d.reg < t.nextReg
    && t.cron.value.entries == map[Defs(t)[0].entry := Entry(Slot(t.cur, 0), d.reg)]
  }

  lemma StartOne(t: Table, d: Def)
    requires Shape(t) && t.len == 1 && t.parses(d.spec) && Defs(t)[0] ==
        d.(entry := Defs(t)[0].entry) && d.reg < t.nextReg
    ensures OneDef(StartCron(t), d) && StartCron(t).cur == t.cur
  {
    var t1 := t.(cron := Some(Cron(map[], 1)));
    assert RegisterAll(t1, 0) == Register(t1, 0);
  }

  // An abandoned entry that points to the first cell, where A's definition still stands though the list
  // is empty.
  ghost predicate FiresRemoved(w: World, a: Name, job: nat) {
    && w.phase == Running && Shape(w.t) && Defs(w.t) == []
    && exists k: nat, e: nat :: && Live(w, k, e)
                                && Read(w.t, Crons(w)[k].entries[e].slot).name == a
                                && Read(w.t, Crons(w)[k].entries[e].slot).job == job
  }

  lemma OwnsOnly(t: Table, d: Def)
    requires OwnsLast(t, d) && Defs(t) == [d] && t.parses(d.spec)
    ensures OneDef(t, d.(entry := 0))
  {
    var es := t.cron.value.entries;
    forall e | e in es ensures e == d.entry {
      EntryOwner(t, e);
    }
    assert es == map[d.entry := Entry(Slot(t.cur, 0), d.reg)];
  }

  lemma StartEmpty(parses: nat -> bool)
    ensures var w := Step(Initial(parses), StartOp);
            && w.phase == Running && Strays(w) == [] && Indexed(w.t) && Defs(w.t) == []
            && w.t.cron.Some? && w.t.nextReg == 1 && w.t.parses == parses
  {
    StepIndexed(Initial(parses), StartOp);
    assert StartCron(Initial(parses).t) == Initial(parses).t.(cron := Some(Cron(map[], 1)));
  }

  lemma AddOne(w: World, a: Name, spec: nat, job: nat, x: nat)
    requires w.phase == Running && Strays(w) == [] && Indexed(w.t) && Defs(w.t) == [] && w.t.cron.Some?
    requires w.t.parses(spec) && Text.Clean(a)
    ensures var r := Step(w, AddOp(a, spec, job, x));
            r.phase == Running && Strays(r) == [] && OneDef(r.t, Def(w.t.nextReg, a, spec, job, 0))
  {
    AddFirst(w.t, a, spec, job, x);
    OwnsOnly(Add(w.t, a, spec, job, x).t, Def(w.t.nextReg, a, spec, job, w.t.cron.value.next));
  }

  // Between a Stop and its completion, an Apply with another timezone.
  lemma StopWithApply(w: World, d: Def)
    requires w.phase == Running && Strays(w) == [] && OneDef(w.t, d)
    ensures var r := Step(Step(Step(Step(w, StopOp), CronStopOp), ApplyOp), FinalizeOp);
            r.phase == Stopped && Strays(r) == [] && OneDef(r.t, d)
  {
    StartOne(StopCron(w.t), d);
  }

  lemma StartAgain(w: World, d: Def)
    requires w.phase == Stopped && Strays(w) == [] && OneDef(w.t, d)
    ensures var r := Step(w, StartOp);
            r.phase == Running && OneDef(r.t, d) && r.t.cur == w.t.cur && Crons(r) == [r.t.cron.value, w.t.cron.value]
  {
    StartOne(w.t, d);
  }

  lemma RemoveOnly(t: Table, d: Def)
    requires OneDef(t, d) && Text.Clean(d.name)
    ensures var r := Remove(t, d.name);
            && Defs(r) == [] && InHeap(r, Slot(t.cur, 0))
            && Read(r, Slot(t.cur, 0)).name == d.name && Read(r, Slot(t.cur, 0)).job == d.job
  {
    Text.TrimFixed(d.name);
    assert OnlyAt(Defs(t), 0, d.name);
    RemovedCells(t, 0, d.name);
  }

  lemma RemoveOne(w: World, d: Def, c: Cron, e: nat)
    requires w.phase == Running && OneDef(w.t, d) && Text.Clean(d.name) && Crons(w) == [w.t.cron.value, c]
    requires c.entries == map[e := Entry(Slot(w.t.cur, 0), d.reg)]
    ensures FiresRemoved(Step(w, RemoveOp(d.name)), d.name, d.job)
  {
    var r := Step(w, RemoveOp(d.name));
    RemoveOnly(w.t, d);
    assert Crons(w)[1] == c && Crons(r)[1] == c;
    assert Live(r, 1, e);
  }

  lemma StopAndRemove(w: World, d: Def)
    requires w.phase == Running && Strays(w) == [] && OneDef(w.t, d) && Text.Clean(d.name)
    ensures var s := Step(Step(Step(Step(w, StopOp), CronStopOp), ApplyOp), FinalizeOp);
            FiresRemoved(Step(Step(s, StartOp), RemoveOp(d.name)), d.name, d.job)
  {
    var s := Step(Step(Step(Step(w, StopOp), CronStopOp), ApplyOp), FinalizeOp);
    StopWithApply(w, d);
    StartAgain(s, d);
    RemoveOne(Step(s, StartOp), d, s.t.cron.value, Defs(s.t)[0].entry);
  }

  // Start, add A, stop, and before the stop is completed an Apply with another timezone; start, remove A.
  // The list is empty, and an entry goes on firing A's job.
  lemma RemovedStillFires(parses: nat -> bool, a: Name, spec: nat, job: nat, x: nat)
    requires parses(spec) && Text.Clean(a)
    ensures var w := Step(Step(Initial(parses), StartOp), AddOp(a, spec, job, x));
            var s := Step(Step(Step(Step(w, StopOp), CronStopOp), ApplyOp), FinalizeOp);
            FiresRemoved(Step(Step(s, StartOp), RemoveOp(a)), a, job)
  {
    StartEmpty(parses);
    AddOne(Step(Initial(parses), StartOp), a, spec, job, x);
    StopAndRemove(Step(Step(Initial(parses), StartOp), AddOp(a, spec, job, x)), Def(1, a, spec, job, 0));
  }
}
