/**
Several plugins' schedule helpers over one scheduler: whole runs of registrations, removals, cleanups,
and whatever the scheduler does by itself.
*/
module ScheduleRuns {
  import opened Wrappers
  import opened ScheduleHelper
  import CronIndex
  import OnceTimers
  import Text

  datatype World = World(
    s: Sched,
    tasks: map<Name, set<Name>>,      // what each plugin's helper remembers
    kept: set<Name>)                  // auxiliary: names kept by a registration that failed and was not remembered

  function Tasks(w: World, p: Name): set<Name> {
    if p in w.tasks then w.tasks[p] else {}
  }

  datatype Event =
    | Do(p: Name, name: Name, q: Request)
    | Drop(p: Name, name: Name)       // Remove through the helper
    | Cleanup(p: Name, order: seq<Name>)
    | Internal(next: Sched)           // starts, stops, timers that fire: no name is added

  ghost predicate Possible(w: World, e: Event) {
    match e
    case Do(_, _, _) => true
    case Drop(_, _) => true
    case Cleanup(p, order) => forall f :: f in Tasks(w, p) <==> f in order
    case Internal(next) => Fine(next) && Fine(w.s) && forall n :: Has(next, n) ==> Has(w.s, n)
  }

  function RemovedAll(s: Sched, names: seq<Name>): (r: Sched)
    requires CronIndex.Shape(s.cron)
    ensures CronIndex.Shape(r.cron)
  {
    if names == [] then s else Removed(RemovedAll(s, names[..|names| - 1]), names[|names| - 1])
  }

  function Step(w: World, e: Event): World
    requires CronIndex.Shape(w.s.cron)
  {
    match e
    case Do(p, name, q) =>
      var full, r := Ns(p, name), Registered(w.s, Ns(p, name), q);
      if r.ok then World(r.s, w.tasks[p := Tasks(w, p) + {full}], w.kept - {full})
      else World(r.s, w.tasks, if full in Tasks(w, p) then w.kept else w.kept + {full})
    case Drop(p, name) =>
      World(Removed(w.s, Ns(p, name)), w.tasks[p := Tasks(w, p) - {Ns(p, name)}], w.kept)
    case Cleanup(p, order) => World(RemovedAll(w.s, order), w.tasks[p := {}], w.kept)
    case Internal(next) => w.(s := next)
  }

  // Removal recognizes clean names only.
  predicate CleanEvent(e: Event) {
    match e
    case Do(p, name, _) => Text.Clean(Ns(p, name))
    case Drop(p, name) => Text.Clean(Ns(p, name))
    case Cleanup(_, _) => true
    case Internal(_) => true
  }

  ghost predicate Known(w: World, n: Name) {
    n in w.kept || exists p :: n in Tasks(w, p)
  }

  ghost predicate Own(p: Name, f: Name) {
    exists x :: f == Ns(p, x)
  }

  // Every schedule is remembered by a helper or left from a failed registration; helpers remember
  // only clean names of their own.
  ghost predicate Inv(w: World) {
    Fine(w.s) && AllKnown(w) && TasksOk(w)
  }

  ghost predicate AllKnown(w: World)
    requires CronIndex.Shape(w.s.cron)
  {
    forall n :: Has(w.s, n) ==> Known(w, n)
  }

  ghost predicate TasksOk(w: World) {
    forall p, f :: f in Tasks(w, p) ==> Text.Clean(f) && Own(p, f)
  }

  function Elems(names: seq<Name>): set<Name> {
    set f | f in names
  }

  lemma ElemsStep(names: seq<Name>)
    requires names != []
    ensures Elems(names) == Elems(names[..|names| - 1]) + {names[|names| - 1]}
  {
    assert names == names[..|names| - 1] + [names[|names| - 1]];
  }

  lemma {:induction false} RemovedAllCleaned(s: Sched, names: seq<Name>)
    requires Fine(s)
    ensures Cleaned(s, RemovedAll(s, names), TakenAll(Elems(names)))
  {
    if names == [] {
      CleanedNothing(s);
      assert TakenAll(Elems(names)) == {};
    } else {
      var front, f := names[..|names| - 1], names[|names| - 1];
      RemovedAllCleaned(s, front);
      RemovedMore(s, RemovedAll(s, front), TakenAll(Elems(front)), f);
      TakenAllMore(Elems(front), f);
      ElemsStep(names);
    }
  }

  lemma TakenClean(names: set<Name>)
    requires forall f :: f in names ==> Text.Clean(f)
    ensures TakenAll(names) == names
  {
    forall f | f in names ensures Text.Trim(f) == f {
      Text.TrimFixed(f);
    }
    forall f | f in names ensures f in TakenAll(names) {
      assert Text.Trim(f) == f;
    }
  }

  // ----- every step keeps the invariant -----

  // A name stays known as long as it is not dropped from where it was known.
  lemma StillKnown(w: World, t: World, n: Name)
    requires Known(w, n)
    requires n in w.kept ==> n in t.kept
    requires forall p :: n in Tasks(w, p) ==> n in Tasks(t, p)
    ensures Known(t, n)
  {
    if n !in w.kept {
      var p :| n in Tasks(w, p);
      assert n in Tasks(t, p);
    }
  }

  // Forgetting some of a plugin's names leaves the others known.
  lemma OthersKnown(w: World, t: World, p: Name, gone: set<Name>, n: Name)
    requires t.kept == w.kept && t.tasks == w.tasks[p := Tasks(w, p) - gone] && n !in gone && Known(w, n)
    ensures Known(t, n)
  {
    assert forall o :: n in Tasks(w, o) ==> n in Tasks(t, o);
    StillKnown(w, t, n);
  }

  // After a registration its name is known, and so is every other that was.
  lemma RegisteredKnown(w: World, t: World, p: Name, full: Name, ok: bool, n: Name)
    requires if ok then t.tasks == w.tasks[p := Tasks(w, p) + {full}] && t.kept == w.kept - {full}
             else t.tasks == w.tasks && t.kept == if full in Tasks(w, p) then w.kept else w.kept + {full}
    requires n != full ==> Known(w, n)
    ensures Known(t, n)
  {
    if n == full {
      assert n in t.kept || n in Tasks(t, p);
    } else {
      StillKnown(w, t, n);
    }
  }

  lemma FewerTasks(w: World, t: World)
    requires TasksOk(w) && forall p, f :: f in Tasks(t, p) ==> f in Tasks(w, p)
    ensures TasksOk(t)
  {
  }

  lemma OneMoreTask(w: World, t: World, p: Name, name: Name)
    requires TasksOk(w) && Text.Clean(Ns(p, name))
    requires forall o, f :: f in Tasks(t, o) ==> f in Tasks(w, o) || (o == p && f == Ns(p, name))
    ensures TasksOk(t)
  {
    assert Own(p, Ns(p, name));
  }

  lemma DoKeeps(w: World, p: Name, name: Name, q: Request)
    requires Inv(w) && Text.Clean(Ns(p, name))
    ensures Inv(Step(w, Do(p, name, q)))
  {
    RegisteredNames(w.s, Ns(p, name), q, Ns(p, name));
    OneMoreTask(w, Step(w, Do(p, name, q)), p, name);
    forall n | Has(Step(w, Do(p, name, q)).s, n) ensures Known(Step(w, Do(p, name, q)), n) {
      RegisteredNames(w.s, Ns(p, name), q, n);
      RegisteredKnown(w, Step(w, Do(p, name, q)), p, Ns(p, name), Registered(w.s, Ns(p, name), q).ok, n);
    }
  }

  lemma OneCleaned(s: Sched, full: Name)
    requires Fine(s) && Text.Clean(full)
    ensures Cleaned(s, Removed(s, full), {full})
  {
    CleanedNothing(s);
    RemovedMore(s, s, {}, full);
    Text.TrimFixed(full);
    assert {} + Taken(full) == {full};
  }

  // Taking some of a plugin's schedules away and forgetting them.
  lemma ForgetKeeps(w: World, t: World, p: Name, gone: set<Name>)
    requires Inv(w) && Cleaned(w.s, t.s, gone) && Fine(t.s)
    requires t.kept == w.kept && t.tasks == w.tasks[p := Tasks(w, p) - gone]
    ensures Inv(t)
  {
    FewerTasks(w, t);
    forall n | Has(t.s, n) ensures Known(t, n) {
      CleanedHas(w.s, t.s, gone, n);
      OthersKnown(w, t, p, gone, n);
    }
  }

  lemma DropKeeps(w: World, p: Name, name: Name)
    requires Inv(w) && Text.Clean(Ns(p, name))
    ensures Inv(Step(w, Drop(p, name)))
  {
    OneCleaned(w.s, Ns(p, name));
    ForgetKeeps(w, Step(w, Drop(p, name)), p, {Ns(p, name)});
  }

  lemma TasksClean(w: World, p: Name)
    requires TasksOk(w)
    ensures TakenAll(Tasks(w, p)) == Tasks(w, p)
  {
    TakenClean(Tasks(w, p));
  }

  lemma CleanupCleaned(w: World, p: Name, order: seq<Name>)
    requires Fine(w.s) && TakenAll(Tasks(w, p)) == Tasks(w, p) && Possible(w, Cleanup(p, order))
    ensures Cleaned(w.s, RemovedAll(w.s, order), Tasks(w, p))
  {
    RemovedAllCleaned(w.s, order);
    assert Elems(order) == Tasks(w, p);
  }

  // After a cleanup a name is scheduled exactly if it was and the helper did not remember it; the
  // helper remembers nothing.
  lemma CleanupExactly(w: World, p: Name, order: seq<Name>, n: Name)
    requires Inv(w) && Possible(w, Cleanup(p, order))
    ensures Tasks(Step(w, Cleanup(p, order)), p) == {}
    ensures Has(Step(w, Cleanup(p, order)).s, n) <==> Has(w.s, n) && n !in Tasks(w, p)
  {
    TasksClean(w, p);
    CleanupCleaned(w, p, order);
    CleanedHas(w.s, RemovedAll(w.s, order), Tasks(w, p), n);
  }

  lemma CleanupKeeps(w: World, p: Name, order: seq<Name>)
    requires Inv(w) && Possible(w, Cleanup(p, order))
    ensures Inv(Step(w, Cleanup(p, order)))
  {
    TasksClean(w, p);
    CleanupCleaned(w, p, order);
    assert Tasks(w, p) - Tasks(w, p) == {};
    ForgetKeeps(w, Step(w, Cleanup(p, order)), p, Tasks(w, p));
  }

  lemma InternalKeeps(w: World, next: Sched)
    requires Inv(w) && Possible(w, Internal(next))
    ensures Inv(Step(w, Internal(next)))
  {
    var t := Step(w, Internal(next));
    FewerTasks(w, t);
    forall n | Has(t.s, n) ensures Known(t, n) {
      StillKnown(w, t, n);
    }
  }

  ghost predicate PossibleRun(ws: seq<World>, es: seq<Event>) {
    && |ws| == |es| + 1
    && forall i :: 0 <= i < |es| ==>
        Fine(ws[i].s) && Possible(ws[i], es[i]) && CleanEvent(es[i]) && ws[i + 1] == Step(ws[i], es[i])
  }

  lemma StepKeeps(w: World, e: Event)
    requires Inv(w) && Possible(w, e) && CleanEvent(e)
    ensures Inv(Step(w, e))
  {
    match e
    case Do(p, name, q) => DoKeeps(w, p, name, q);
    case Drop(p, name) => DropKeeps(w, p, name);
    case Cleanup(p, order) => CleanupKeeps(w, p, order);
    case Internal(next) => InternalKeeps(w, next);
  }

  // In every run that uses clean names, whatever is scheduled is remembered by a helper or was left
  // by a registration that failed.
  lemma {:induction false} RunInv(ws: seq<World>, es: seq<Event>, k: nat)
    requires PossibleRun(ws, es) && Inv(ws[0]) && k <= |es|
    ensures Inv(ws[k])
  {
    if k > 0 {
      RunInv(ws, es, k - 1);
      StepKeeps(ws[k - 1], es[k - 1]);
    }
  }

  // ----- what cleanup promises -----

  lemma OwnersCollide(w: World, p: Name, other: Name, y: Name)
    requires TasksOk(w) && Ns(other, y) in Tasks(w, p)
    ensures Collide(p, other)
  {
    assert Own(p, Ns(other, y));
    var x :| Ns(other, y) == Ns(p, x);
    NamesDisjoint(p, other);
  }

  // Nothing registered through the helper with success is left, and for a plugin whose names cannot
  // collide nothing of its schedules changed.
  lemma CleanupComplete(w: World, p: Name, order: seq<Name>, other: Name, y: Name)
    requires Inv(w) && Possible(w, Cleanup(p, order)) && !Collide(p, other)
    ensures var t, full := Step(w, Cleanup(p, order)), Ns(other, y);
            && (forall f :: f in Tasks(w, p) ==> !Has(t.s, f))
            && (Has(t.s, full) <==> Has(w.s, full))
            && (forall d: CronIndex.Def :: d.name == full ==> (d in CronDefs(t.s) <==> d in CronDefs(w.s)))
            && (HasOnce(w.s, full) ==> HasOnce(t.s, full) && t.s.once.tab.at[full] == w.s.once.tab.at[full])
  {
    var full := Ns(other, y);
    if full in Tasks(w, p) {
      OwnersCollide(w, p, other, y);
    }
    TasksClean(w, p);
    CleanupCleaned(w, p, order);
    CleanupExactly(w, p, order, full);
    OutsideHas(CronDefs(w.s), Tasks(w, p));
    forall f | f in Tasks(w, p) ensures !Has(Step(w, Cleanup(p, order)).s, f) {
      CleanupExactly(w, p, order, f);
    }
  }

  // If every registration so far succeeded, a cleanup leaves nothing under the plugin's names, unless
  // a plugin with colliding names remembers something.
  lemma CleanupLeavesNothing(w: World, p: Name, order: seq<Name>, x: Name)
    requires Inv(w) && Possible(w, Cleanup(p, order)) && w.kept == {}
    requires forall o :: o != p && Collide(p, o) ==> Tasks(w, o) == {}
    ensures !Has(Step(w, Cleanup(p, order)).s, Ns(p, x))
  {
    var full := Ns(p, x);
    CleanupExactly(w, p, order, full);
    if Has(w.s, full) {
      assert Known(w, full);
      var o :| full in Tasks(w, o);
      OwnersCollide(w, o, p, x);
      assert Collide(p, o);
    }
  }

  // A cron schedule that a running scheduler refuses outlives the cleanup: it is kept by the
  // scheduler and remembered by nobody.
  lemma RefusedOutlives(w: World, p: Name, name: Name, q: Request, order: seq<Name>)
    requires Inv(w) && Text.Clean(Ns(p, name)) && Ns(p, name) !in Tasks(w, p)
    requires q.Cron? && w.s.cron.cron.Some? && !w.s.cron.parses(q.spec)
    requires Possible(Step(w, Do(p, name, q)), Cleanup(p, order))
    ensures Has(Step(Step(w, Do(p, name, q)), Cleanup(p, order)).s, Ns(p, name))
  {
    var w1 := Step(w, Do(p, name, q));
    Text.TrimFixed(Ns(p, name));
    RefusedStays(w.s, Ns(p, name), q);
    DoKeeps(w, p, name, q);
    CleanupExactly(w1, p, order, Ns(p, name));
  }
}
