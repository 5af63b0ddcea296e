/**
The schedule helper of a plugin, on top of the scheduler: names prefixed with the plugin's own,
successful registrations remembered, and everything remembered removed at the end.
*/
module ScheduleHelper {
  import opened Wrappers
  import CronIndex
  import OnceTimers
  import Text

  type Name = string

  // ----- names -----

  function Ns(plugin: Name, name: Name): Name {
    if plugin == "" then name else if name == "" then plugin else plugin + ":" + name
  }

  predicate Collide(p: Name, q: Name) {
    p == q || p == "" || q == "" || p + ":" <= q || q + ":" <= p
  }

  lemma PrefixBeforeColon(p: Name, x: Name, q: Name, y: Name)
    requires p + ":" + x == q + ":" + y && |p| <= |q|
    ensures p == q || p + ":" <= q
  {
    var s := p + ":" + x;
    assert s[..|p|] == p && s[|p|] == ':' && s[..|q|] == q;
    if |p| < |q| {
      assert q[..|p| + 1] == p + ":";
    }
  }

  lemma SameFullName(p: Name, x: Name, q: Name, y: Name)
    requires Ns(p, x) == Ns(q, y) && |p| <= |q|
    ensures Collide(p, q)
  {
    if p != "" {
      if x != "" && y != "" {
        PrefixBeforeColon(p, x, q, y);
      } else if x != "" {
        assert (p + ":" + x)[..|p| + 1] == p + ":";
      }
    }
  }

  lemma CollidingNames(p: Name, q: Name) returns (x: Name, y: Name)
    requires Collide(p, q)
    ensures Ns(p, x) == Ns(q, y)
    decreases if p + ":" <= q then 0 else 1
  {
    if p == q {
      x, y := "", "";
    } else if p == "" {
      x, y := q, "";
    } else if q == "" {
      x, y := "", p;
    } else if p + ":" <= q {
      var z := q[|p| + 1..];
      assert q == p + ":" + z;
      if z != "" {
        x, y := z, "";
      } else {
        x, y := "::", ":";
        assert p + ":" + "::" == (p + ":") + ":" + ":";
      }
    } else {
      y, x := CollidingNames(q, p);
    }
  }

  // Two plugins can give a schedule the same full name exactly if they have the same name, one has
  // none, or one's name continues the other's behind a colon. Names without colons never collide.
  lemma NamesDisjoint(p: Name, q: Name)
    ensures (exists x, y :: Ns(p, x) == Ns(q, y)) <==> Collide(p, q)
    ensures p != "" && q != "" && p != q && ':' !in p && ':' !in q ==> !Collide(p, q)
  {
    if x, y :| Ns(p, x) == Ns(q, y) {
      if |p| <= |q| {
        SameFullName(p, x, q, y);
      } else {
        SameFullName(q, y, p, x);
      }
    }
    if Collide(p, q) {
      var x, y := CollidingNames(p, q);
    }
    if p + ":" <= q {
      assert (p + ":")[|p|] == q[|p|];
    }
    if q + ":" <= p {
      assert (q + ":")[|q|] == p[|q|];
    }
  }

  // ----- the scheduler underneath -----

  datatype Sched = Sched(cron: CronIndex.Table, once: OnceTimers.State)

  ghost predicate Fine(s: Sched) {
    CronIndex.Agrees(s.cron)
  }

  function CronDefs(s: Sched): seq<CronIndex.Def>
    requires CronIndex.Shape(s.cron)
  {
    CronIndex.Defs(s.cron)
  }

  predicate HasCron(s: Sched, n: Name)
    requires CronIndex.Shape(s.cron)
  {
    exists i :: 0 <= i < |CronDefs(s)| && CronDefs(s)[i].name == n
  }

  predicate HasOnce(s: Sched, n: Name) {
    n in s.once.tab.at
  }

  predicate Has(s: Sched, n: Name)
    requires CronIndex.Shape(s.cron)
  {
    HasCron(s, n) || HasOnce(s, n)
  }

  // Remove by name, on both sides.
  function Removed(s: Sched, name: Name): (r: Sched)
    requires CronIndex.Shape(s.cron)
    ensures CronIndex.Shape(r.cron)
  {
    Sched(CronIndex.Remove(s.cron, name), OnceTimers.Remove(s.once, name))
  }

  // The definitions whose names are outside a set, in order.
  function Outside(ds: seq<CronIndex.Def>, names: set<Name>): seq<CronIndex.Def> {
    if ds == [] then []
    else
      var last := ds[|ds| - 1];
      Outside(ds[..|ds| - 1], names) + (if last.name in names then [] else [last])
  }

  lemma WithoutAppend(ds: seq<CronIndex.Def>, d: CronIndex.Def, n: Name)
    ensures CronIndex.Without(ds + [d], n) == CronIndex.Without(ds, n) + (if d.name != n then [d] else [])
  {
    assert (ds + [d])[..|ds|] == ds;
  }

  lemma {:induction false} OutsideMore(ds: seq<CronIndex.Def>, names: set<Name>, n: Name)
    ensures CronIndex.Without(Outside(ds, names), n) == Outside(ds, names + {n})
  {
    if ds != [] {
      var front, d := ds[..|ds| - 1], ds[|ds| - 1];
      OutsideMore(front, names, n);
      var o, more := Outside(front, names), Outside(front, names + {n});
      if d.name in names {
        assert o + [] == o && more + [] == more;
      } else {
        WithoutAppend(o, d, n);
        assert d.name in names + {n} <==> d.name == n;
      }
    }
  }

  lemma {:induction false} OutsideNone(ds: seq<CronIndex.Def>)
    ensures Outside(ds, {}) == ds
  {
    if ds != [] {
      var front, last := ds[..|ds| - 1], ds[|ds| - 1];
      OutsideNone(front);
      assert Outside(ds, {}) == front + [last];
    }
  }

  lemma {:induction false} OutsideHas(ds: seq<CronIndex.Def>, names: set<Name>)
    ensures forall d :: d in Outside(ds, names) <==> d in ds && d.name !in names
  {
    if ds != [] {
      OutsideHas(ds[..|ds| - 1], names);
      assert ds == ds[..|ds| - 1] + [ds[|ds| - 1]];
    }
  }

  function Forgotten(t: OnceTimers.Table, names: set<Name>): OnceTimers.Table {
    OnceTimers.Table(t.timers - names, t.at - names, t.timeout - names, t.job - names, t.ver - names)
  }

  ghost predicate CronCleaned(s: CronIndex.Table, r: CronIndex.Table, names: set<Name>) {
    CronIndex.Agrees(s) && CronIndex.Agrees(r) && CronIndex.Defs(r) == Outside(CronIndex.Defs(s), names)
  }

  // What removing some names leaves: the other definitions exactly as they were, in order, and the
  // other one-time tasks.
  ghost predicate Cleaned(s: Sched, r: Sched, names: set<Name>) {
    CronCleaned(s.cron, r.cron, names) && r.once.tab == Forgotten(s.once.tab, names)
  }

  // The names a removal by that name takes away.
  function Taken(name: Name): set<Name> {
    if Text.Trim(name) == "" then {} else {Text.Trim(name)}
  }

  lemma MinusTwice<K, V>(m: map<K, V>, a: set<K>, k: K)
    ensures (m - a) - {k} == m - (a + {k})
  {
  }

  lemma ForgottenMore(t: OnceTimers.Table, names: set<Name>, n: Name)
    ensures OnceTimers.Drop(Forgotten(t, names), n) == Forgotten(t, names + {n})
  {
    MinusTwice(t.timers, names, n);
    MinusTwice(t.at, names, n);
    MinusTwice(t.timeout, names, n);
    MinusTwice(t.job, names, n);
    MinusTwice(t.ver, names, n);
  }

  lemma CronMore(s: CronIndex.Table, r: CronIndex.Table, names: set<Name>, name: Name)
    requires CronCleaned(s, r, names)
    ensures CronCleaned(s, CronIndex.Remove(r, name), names + Taken(name))
  {
    CronIndex.RemoveAgrees(r, name);
    OutsideMore(CronIndex.Defs(s), names, Text.Trim(name));
    assert names + {} == names;
  }

  lemma OnceMore(t: OnceTimers.Table, r: OnceTimers.State, names: set<Name>, name: Name)
    requires r.tab == Forgotten(t, names)
    ensures OnceTimers.Remove(r, name).tab == Forgotten(t, names + Taken(name))
  {
    ForgottenMore(t, names, Text.Trim(name));
    assert names + {} == names;
  }

  lemma RemovedMore(s: Sched, r: Sched, names: set<Name>, name: Name)
    requires Cleaned(s, r, names)
    ensures Cleaned(s, Removed(r, name), names + Taken(name))
  {
    CronMore(s.cron, r.cron, names, name);
    OnceMore(s.once.tab, r.once, names, name);
  }

  lemma CleanedNothing(s: Sched)
    requires Fine(s)
    ensures Cleaned(s, s, {})
  {
    OutsideNone(CronDefs(s));
    assert forall m: map<Name, int> :: m - {} == m;
    assert Forgotten(s.once.tab, {}) == s.once.tab;
  }

  // ----- registering -----

  // What a builder asks for: a cron or interval schedule, a one-time task, or something whose time
  // does not parse.
  datatype Request =
    | Cron(spec: nat, job: nat, extra: nat)
    | Once(at: Option<int>, timeout: int, oneJob: Option<nat>)
    | Unparsable

  datatype Outcome = Outcome(s: Sched, ok: bool)

  function Registered(s: Sched, full: Name, q: Request): (r: Outcome)
    requires CronIndex.Shape(s.cron)
  {
    match q
    case Cron(spec, job, extra) =>
      var a := CronIndex.Add(s.cron, full, spec, job, extra);
      Outcome(Sched(a.t, s.once), a.ok)
    case Once(at, timeout, job) =>
      if full == "" || at.None? then Outcome(s, false)
      else Outcome(Sched(s.cron, OnceTimers.AddOnce(s.once, OnceTimers.Definition(full, at.value, timeout, job))), true)
    case Unparsable => Outcome(s, false)
  }

  lemma HasCronIn(s: Sched, n: Name, d: CronIndex.Def)
    requires CronIndex.Shape(s.cron) && d in CronDefs(s) && d.name == n
    ensures HasCron(s, n)
  {
  }

  lemma AddedDefs(t: CronIndex.Table, full: Name, spec: nat, job: nat, extra: nat)
    requires CronIndex.Agrees(t) && Text.Trim(full) != ""
    ensures var r := CronIndex.Add(t, full, spec, job, extra).t;
            CronIndex.Agrees(r) && forall d :: d in CronIndex.Defs(r) ==> d.name == full || d in CronIndex.Defs(t)
  {
    CronIndex.AddAgrees(t, full, spec, job, extra);
    CronIndex.WithoutKeeps(CronIndex.Defs(t), Text.Trim(full));
  }

  lemma CronNames(s: Sched, full: Name, q: Request, n: Name)
    requires Fine(s) && q.Cron?
    ensures var r := Registered(s, full, q).s; Fine(r) && (HasCron(r, n) && n != full ==> HasCron(s, n))
  {
    if Text.Trim(full) != "" {
      var r := Registered(s, full, q).s;
      AddedDefs(s.cron, full, q.spec, q.job, q.extra);
      if HasCron(r, n) && n != full {
        var i :| 0 <= i < |CronDefs(r)| && CronDefs(r)[i].name == n;
        HasCronIn(s, n, CronDefs(r)[i]);
      }
    }
  }

  // Registering adds no name but its own, whether or not it succeeds.
  lemma RegisteredNames(s: Sched, full: Name, q: Request, n: Name)
    requires Fine(s)
    ensures var r := Registered(s, full, q).s; Fine(r) && (Has(r, n) && n != full ==> Has(s, n))
  {
    var r := Registered(s, full, q).s;
    if q.Cron? {
      CronNames(s, full, q, n);
    } else if HasCron(r, n) {
      var i :| 0 <= i < |CronDefs(r)| && CronDefs(r)[i].name == n;
      HasCronIn(s, n, CronDefs(r)[i]);
    }
  }

  // Registering succeeds exactly for a name that is not white space and a spec the running cron, if any,
  // parses, or for a one-time task with a name and a time; and then the schedule is there as it was asked for.
  lemma RegisteredHolds(s: Sched, full: Name, q: Request)
    requires Fine(s)
    ensures var r := Registered(s, full, q);
            match q
            case Cron(spec, job, extra) =>
              && (r.ok <==> Text.Trim(full) != "" && (s.cron.cron.Some? ==> s.cron.parses(spec)))
              && (r.ok ==> exists d :: d in CronDefs(r.s) && Asked(d, full, spec, job, extra))
            case Once(at, timeout, job) =>
              && (r.ok <==> full != "" && at.Some?)
              && (r.ok ==> var tab := r.s.once.tab;
                           && full in tab.at && tab.at[full] == at.value && full in tab.job && tab.job[full] == job
                           && full in tab.timeout && tab.timeout[full] == timeout && full in tab.timers)
            case Unparsable => !r.ok && r.s == s
  {
    if q.Cron? && Text.Trim(full) != "" {
      CronIndex.AddAgrees(s.cron, full, q.spec, q.job, q.extra);
      var ds := CronDefs(Registered(s, full, q).s);
      assert Asked(ds[|ds| - 1], full, q.spec, q.job, q.extra);
    }
  }

  predicate Asked(d: CronIndex.Def, full: Name, spec: nat, job: nat, extra: nat) {
    d.name == full && d.spec == spec && d.job == job
  }

  // A definition that a running cron refuses is kept under its name, although the caller gets an error.
  lemma RefusedStays(s: Sched, full: Name, q: Request)
    requires Fine(s) && q.Cron? && Text.Trim(full) != "" && s.cron.cron.Some? && !s.cron.parses(q.spec)
    ensures var r := Registered(s, full, q); !r.ok && HasCron(r.s, full)
  {
    CronIndex.AddAgrees(s.cron, full, q.spec, q.job, q.extra);
    var ds := CronDefs(Registered(s, full, q).s);
    HasCronIn(Registered(s, full, q).s, full, ds[|ds| - 1]);
  }

  // ----- removing everything remembered -----

  function TakenAll(names: set<Name>): set<Name> {
    set f | f in names && Text.Trim(f) != "" :: Text.Trim(f)
  }

  lemma TakenAllMore(names: set<Name>, f: Name)
    ensures TakenAll(names + {f}) == TakenAll(names) + Taken(f)
  {
  }

  // A name is left exactly if it was there and is not the trimmed form of a remembered one.
  lemma CleanedHas(s: Sched, r: Sched, names: set<Name>, n: Name)
    requires Cleaned(s, r, names)
    ensures Has(r, n) <==> Has(s, n) && n !in names
  {
    OutsideHas(CronDefs(s), names);
    if HasCron(r, n) {
      var i :| 0 <= i < |CronDefs(r)| && CronDefs(r)[i].name == n;
      HasCronIn(s, n, CronDefs(r)[i]);
    }
    if HasCron(s, n) && n !in names {
      var i :| 0 <= i < |CronDefs(s)| && CronDefs(s)[i].name == n;
      HasCronIn(r, n, CronDefs(s)[i]);
    }
  }

  class Scheduler {
    var s: Sched

    constructor (s: Sched)
      ensures this.s == s
    {
      this.s := s;
    }

    method Register(full: Name, q: Request) returns (ok: bool)
      requires Fine(s)
      modifies this
      ensures Fine(s) && Outcome(s, ok) == Registered(old(s), full, q)
    {
      RegisteredNames(s, full, q, full);
      var r := Registered(s, full, q);
      s, ok := r.s, r.ok;
    }

    method Remove(full: Name)
      requires Fine(s)
      modifies this
      ensures Fine(s) && s == Removed(old(s), full)
    {
      CronIndex.RemoveAgrees(s.cron, full);
      s := Removed(s, full);
    }
  }

  class Helper {
    const pluginName: Name
    const svc: Scheduler
    var tasks: set<Name>

    constructor (pluginName: Name, svc: Scheduler)
      ensures this.pluginName == pluginName && this.svc == svc && tasks == {}
    {
      this.pluginName, this.svc, tasks := pluginName, svc, {};
    }

    // Only a registration that succeeded is remembered.
    method Do(name: Name, q: Request) returns (ok: bool)
      requires Fine(svc.s)
      modifies this, svc
      ensures Fine(svc.s) && Outcome(svc.s, ok) == Registered(old(svc.s), Ns(pluginName, name), q)
      ensures tasks == if ok then old(tasks) + {Ns(pluginName, name)} else old(tasks)
    {
      var fullName := Ns(pluginName, name);
      ok := svc.Register(fullName, q);
      if ok {
        tasks := tasks + {fullName};
      }
    }

    method Remove(name: Name)
      requires Fine(svc.s)
      modifies this, svc
      ensures Fine(svc.s) && svc.s == Removed(old(svc.s), Ns(pluginName, name))
      ensures tasks == old(tasks) - {Ns(pluginName, name)}
    {
      svc.Remove(Ns(pluginName, name));
      tasks := tasks - {Ns(pluginName, name)};
    }

    // The remembered names are removed in an arbitrary order.
    method Cleanup()
      requires Fine(svc.s)
      modifies this, svc
      ensures tasks == {} && Cleaned(old(svc.s), svc.s, TakenAll(old(tasks)))
    {
      var keys := tasks;
      ghost var done: set<Name> := {};
      tasks := {};
      CleanedNothing(svc.s);
      assert TakenAll({}) == {};
      while keys != {}
        modifies svc
        invariant done + keys == old(tasks) && Cleaned(old(svc.s), svc.s, TakenAll(done))
        decreases keys
      {
        var k :| k in keys;
        RemovedMore(old(svc.s), svc.s, TakenAll(done), k);
        TakenAllMore(done, k);
        svc.Remove(k);
        keys, done := keys - {k}, done + {k};
      }
      assert done == old(tasks);
    }
  }
}
