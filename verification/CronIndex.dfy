/**
The scheduler's list of cron definitions and the entries of the live cron.

The list is a Go slice: a backing array and a length. Removal compacts it in place, an append writes
the next free cell or, when there is none, moves the list to a new array. Each cron entry's closure
holds a pointer to the cell its definition was in when it was registered, and reads that cell when
it fires. Old arrays are never written again, but closures go on reading them.
*/
module CronIndex {
  import opened Wrappers
  import Text

  type Name = string

  // reg numbers registrations; entry is 0 until the cron accepted the spec.
  datatype Def = Def(reg: nat, name: Name, spec: nat, job: nat, entry: nat)

  const ZERO_DEF := Def(0, "", 0, 0, 0)

  datatype Slot = Slot(arr: nat, idx: nat)

  // A cron entry: the cell its closure points to, and (auxiliary) the registration it was made for.
  datatype Entry = Entry(slot: Slot, own: nat)

  datatype Cron = Cron(entries: map<nat, Entry>, next: nat)

  datatype Table = Table(
    heap: map<nat, seq<Def>>,     // every backing array the list ever had
    cur: nat,
    len: nat,
    cron: Option<Cron>,           // None while the service is not running
    nextReg: nat,
    parses: nat -> bool)          // which specs the cron parser accepts

  predicate Shape(t: Table) {
    && t.cur in t.heap && t.len <= |t.heap[t.cur]|
    && (forall a :: a in t.heap ==> a <= t.cur)
  }

  function Cells(t: Table): seq<Def>
    requires Shape(t)
  {
    t.heap[t.cur]
  }

  function Defs(t: Table): seq<Def>
    requires Shape(t)
  {
    t.heap[t.cur][..t.len]
  }

  // ----- the list as a value -----

  // The definitions with another name, in order.
  function Without(ds: seq<Def>, n: Name): (r: seq<Def>)
    ensures |r| <= |ds|
  {
    if ds == [] then []
    else
      var last := ds[|ds| - 1];
      Without(ds[..|ds| - 1], n) + (if last.name != n then [last] else [])
  }

  // Removal first unregisters: the entries of that name go, and their definitions' entry ids are cleared.
  function Cleared(ds: seq<Def>, n: Name): (r: seq<Def>)
    ensures |r| == |ds|
    ensures forall i :: 0 <= i < |ds| ==> r[i] == if ds[i].name == n then ds[i].(entry := 0) else ds[i]
  {
    seq(|ds|, i requires 0 <= i < |ds| => if ds[i].name == n then ds[i].(entry := 0) else ds[i])
  }

  function EntryIds(ds: seq<Def>, n: Name): set<nat> {
    set d | d in ds && d.name == n && d.entry != 0 :: d.entry
  }

  // Compaction: the kept definitions move to the front, the cells behind them keep what they held.
  function Compacted(cells: seq<Def>, len: nat, n: Name): seq<Def>
    requires len <= |cells|
  {
    Without(cells[..len], n) + cells[|Without(cells[..len], n)|..]
  }

  function RemoveCells(t: Table, n: Name): (r: Table)
    requires Shape(t)
    ensures Shape(r) && r.cron.Some? == t.cron.Some?
  {
    var cells := Cells(t);
    var cleared := if t.cron.Some? then Cleared(cells[..t.len], n) + cells[t.len..] else cells;
    t.(heap := t.heap[t.cur := Compacted(cleared, t.len, n)],
       len := |Without(cleared[..t.len], n)|,
       cron := if t.cron.Some?
               then Some(t.cron.value.(entries := t.cron.value.entries - EntryIds(Defs(t), n))) else None)
  }

  // removeScheduleLocked
  function Remove(t: Table, name: Name): (r: Table)
    requires Shape(t)
    ensures Shape(r) && r.cron.Some? == t.cron.Some?
  {
    var n := Text.Trim(name);
    if n == "" then t else RemoveCells(t, n)
  }

  function Padding(k: nat): seq<Def> {
    seq(k, _ => ZERO_DEF)
  }

  // append: in place when there is room, otherwise into a new array of capacity more than len.
  function Append(t: Table, d: Def, extra: nat): (r: Table)
    requires Shape(t)
    ensures Shape(r) && r.len == t.len + 1 && Defs(r) == Defs(t) + [d] && r.cron == t.cron
  {
    if t.len < |Cells(t)| then
      t.(heap := t.heap[t.cur := Cells(t)[t.len := d]], len := t.len + 1)
    else
      t.(heap := t.heap[t.cur + 1 := Defs(t) + [d] + Padding(extra)], cur := t.cur + 1, len := t.len + 1)
  }

  // addCronLocked on the i-th definition; an invalid spec leaves everything as it is.
  function Register(t: Table, i: nat): (r: Table)
    requires Shape(t) && i < t.len && t.cron.Some?
    ensures Shape(r) && r.len == t.len && r.cron.Some?
  {
    var d, c := Cells(t)[i], t.cron.value;
    if !t.parses(d.spec) then t
    else
      t.(heap := t.heap[t.cur := Cells(t)[i := d.(entry := c.next)]],
         cron := Some(Cron(c.entries[c.next := Entry(Slot(t.cur, i), d.reg)], c.next + 1)))
  }

  datatype Added = Added(t: Table, ok: bool)

  // AddCronOpt and AddIntervalOpt. ok is whether an id is returned without an error; a definition
  // whose spec the running cron refuses is kept all the same.
  function Add(t: Table, name: Name, spec: nat, job: nat, extra: nat): Added
    requires Shape(t)
  {
    if Text.Trim(name) == "" then Added(t, false)
    else AddDef(Remove(t, name), Def(t.nextReg, name, spec, job, 0), extra)
  }

  // The part after the removal.
  function AddDef(t: Table, d: Def, extra: nat): Added
    requires Shape(t)
  {
    var t2 := Append(t, d, extra).(nextReg := t.nextReg + 1);
    if t2.cron.None? then Added(t2, true)
    else Added(Register(t2, t2.len - 1), t.parses(d.spec))
  }

  function RegisterAll(t: Table, i: nat): (r: Table)
    ensures Shape(r) && r.len == t.len && r.cron.Some?
    requires Shape(t) && i <= t.len && t.cron.Some?
    decreases t.len - i
  {
    if i == t.len then t else RegisterAll(Register(t, i), i + 1)
  }

  // Start, and both halves of restartLocked: a new cron in the field, with every definition registered anew.
  // What becomes of the cron that was there is told apart in CronRuns.
  function StartCron(t: Table): (r: Table)
    requires Shape(t)
    ensures Shape(r)
  {
    RegisterAll(t.(cron := Some(Cron(map[], 1))), 0)
  }

  function StopCron(t: Table): Table {
    t.(cron := None)
  }

  // ----- what the index promises -----

  // The first k definitions and the live entries correspond one to one: each of these definitions has
  // an entry exactly if its spec is valid, the entry was made for it, and there are no other entries.
  ghost predicate Matched(ds: seq<Def>, k: nat, c: Cron, parses: nat -> bool)
    requires k <= |ds|
  {
    && 0 < c.next && (forall e :: e in c.entries ==> 0 < e < c.next)
    && (forall i :: 0 <= i < k ==> (ds[i].entry != 0 <==> parses(ds[i].spec)))
    && (forall i :: 0 <= i < k && ds[i].entry != 0 ==>
          ds[i].entry in c.entries && c.entries[ds[i].entry].own == ds[i].reg)
    && (forall e :: e in c.entries ==> exists i :: 0 <= i < k && ds[i].entry == e)
  }

  // Registrations are distinct and numbered below nextReg; an entry id, stale or not, means a valid spec.
  predicate Sound(ds: seq<Def>, nextReg: nat, parses: nat -> bool) {
    && (forall i, j :: 0 <= i < j < |ds| ==> ds[i].reg != ds[j].reg)
    && (forall i :: 0 <= i < |ds| ==> ds[i].reg < nextReg && (ds[i].entry != 0 ==> parses(ds[i].spec)))
  }

  ghost predicate Agrees(t: Table) {
    && Shape(t) && Sound(Defs(t), t.nextReg, t.parses)
    && (t.cron.Some? ==> Matched(Defs(t), t.len, t.cron.value, t.parses))
  }

  predicate UniqueNames(ds: seq<Def>) {
    forall i, j :: 0 <= i < j < |ds| ==> ds[i].name != ds[j].name
  }

  predicate Absent(ds: seq<Def>, n: Name) {
    forall i :: 0 <= i < |ds| ==> ds[i].name != n
  }

  // ----- removal -----

  lemma {:induction false} WithoutKeeps(ds: seq<Def>, n: Name)
    ensures forall d :: d in Without(ds, n) <==> d in ds && d.name != n
  {
    if ds != [] {
      WithoutKeeps(ds[..|ds| - 1], n);
      assert ds == ds[..|ds| - 1] + [ds[|ds| - 1]];
    }
  }

  lemma {:induction false} WithoutSound(ds: seq<Def>, n: Name, nextReg: nat, parses: nat -> bool)
    requires Sound(ds, nextReg, parses)
    ensures Sound(Without(ds, n), nextReg, parses)
  {
    if ds != [] {
      var front := ds[..|ds| - 1];
      WithoutSound(front, n, nextReg, parses);
      WithoutKeeps(front, n);
    }
  }

  lemma {:induction false} WithoutUnique(ds: seq<Def>, n: Name)
    requires UniqueNames(ds)
    ensures UniqueNames(Without(ds, n))
  {
    if ds != [] {
      var front := ds[..|ds| - 1];
      WithoutUnique(front, n);
      WithoutKeeps(front, n);
    }
  }

  // Clearing the entry ids of the definitions that go does not change the ones that stay.
  lemma {:induction false} WithoutCleared(ds: seq<Def>, n: Name)
    ensures Without(Cleared(ds, n), n) == Without(ds, n)
  {
    if ds != [] {
      var front := ds[..|ds| - 1];
      WithoutCleared(front, n);
      assert Cleared(ds, n)[..|ds| - 1] == Cleared(front, n);
    }
  }

  // In-place removal is a stable filter of the list.
  lemma RemoveDefs(t: Table, n: Name)
    requires Shape(t)
    ensures Defs(RemoveCells(t, n)) == Without(Defs(t), n)
  {
    WithoutCleared(Defs(t), n);
    var cells := Cells(t);
    if t.cron.Some? {
      assert (Cleared(cells[..t.len], n) + cells[t.len..])[..t.len] == Cleared(cells[..t.len], n);
    }
  }

  lemma RemoveMatched(ds: seq<Def>, n: Name, c: Cron, nextReg: nat, parses: nat -> bool)
    requires Matched(ds, |ds|, c, parses) && Sound(ds, nextReg, parses)
    ensures var r := Without(ds, n);
            Matched(r, |r|, c.(entries := c.entries - EntryIds(ds, n)), parses)
  {
    var r, c' := Without(ds, n), c.(entries := c.entries - EntryIds(ds, n));
    WithoutKeeps(ds, n);
    forall i | 0 <= i < |r|
      ensures r[i].entry != 0 <==> parses(r[i].spec)
      ensures r[i].entry != 0 ==> r[i].entry in c'.entries && c'.entries[r[i].entry].own == r[i].reg
    {
      assert r[i] in ds;
      var j :| 0 <= j < |ds| && ds[j] == r[i];
    }
    forall e | e in c'.entries ensures exists i :: 0 <= i < |r| && r[i].entry == e {
      var j :| 0 <= j < |ds| && ds[j].entry == e;
      assert ds[j].name != n;
      assert ds[j] in r;
    }
  }

  lemma RemoveAgrees(t: Table, name: Name)
    requires Agrees(t)
    ensures Agrees(Remove(t, name))
    ensures var n := Text.Trim(name);
            Defs(Remove(t, name)) == if n == "" then Defs(t) else Without(Defs(t), n)
  {
    var n := Text.Trim(name);
    if n != "" {
      RemoveDefs(t, n);
      WithoutSound(Defs(t), n, t.nextReg, t.parses);
      if t.cron.Some? {
        RemoveMatched(Defs(t), n, t.cron.value, t.nextReg, t.parses);
      }
    }
  }

  // ----- registration -----

  // What registering the i-th definition does to the list: its entry id may change.
  lemma RegisterDefs(t: Table, i: nat)
    requires Shape(t) && i < t.len && t.cron.Some?
    ensures var r, d := Register(t, i), Defs(t)[i];
            && Defs(r) == (if t.parses(d.spec) then Defs(t)[i := d.(entry := t.cron.value.next)] else Defs(t))
            && r.nextReg == t.nextReg && r.parses == t.parses
  {
  }

  lemma RegisterMatched(ds: seq<Def>, i: nat, c: Cron, parses: nat -> bool, slot: Slot)
    requires i < |ds| && Matched(ds, i, c, parses) && parses(ds[i].spec)
    ensures Matched(ds[i := ds[i].(entry := c.next)], i + 1,
                    Cron(c.entries[c.next := Entry(slot, ds[i].reg)], c.next + 1), parses)
  {
    var ds', c' := ds[i := ds[i].(entry := c.next)], Cron(c.entries[c.next := Entry(slot, ds[i].reg)], c.next + 1);
    forall e | e in c'.entries ensures exists j :: 0 <= j < i + 1 && ds'[j].entry == e {
      if e in c.entries {
        var j :| 0 <= j < i && ds[j].entry == e;
        assert ds'[j].entry == e;
      } else {
        assert ds'[i].entry == e;
      }
    }
  }

  lemma RegisterSkipped(ds: seq<Def>, i: nat, c: Cron, parses: nat -> bool)
    requires i < |ds| && Matched(ds, i, c, parses) && !parses(ds[i].spec) && ds[i].entry == 0
    ensures Matched(ds, i + 1, c, parses)
  {
    forall e | e in c.entries ensures exists j :: 0 <= j < i + 1 && ds[j].entry == e {
      var j :| 0 <= j < i && ds[j].entry == e;
    }
  }

  lemma RegisterAgrees(t: Table, i: nat)
    requires Shape(t) && i < t.len && t.cron.Some? && Sound(Defs(t), t.nextReg, t.parses)
    requires Matched(Defs(t), i, t.cron.value, t.parses)
    ensures var r := Register(t, i);
            && Sound(Defs(r), r.nextReg, r.parses) && Matched(Defs(r), i + 1, r.cron.value, r.parses)
            && r.nextReg == t.nextReg && r.parses == t.parses
            && forall j :: 0 <= j < t.len ==> Defs(r)[j] == Defs(t)[j].(entry := Defs(r)[j].entry)
  {
    var ds := Defs(t);
    RegisterDefs(t, i);
    if t.parses(ds[i].spec) {
      RegisterMatched(ds, i, t.cron.value, t.parses, Slot(t.cur, i));
    } else {
      RegisterSkipped(ds, i, t.cron.value, t.parses);
    }
  }

  lemma {:induction false} RegisterAllAgrees(t: Table, i: nat)
    requires Shape(t) && i <= t.len && t.cron.Some? && Sound(Defs(t), t.nextReg, t.parses)
    requires Matched(Defs(t), i, t.cron.value, t.parses)
    ensures Agrees(RegisterAll(t, i))
    ensures |Defs(RegisterAll(t, i))| == |Defs(t)|
    ensures forall j :: 0 <= j < t.len ==>
              Defs(RegisterAll(t, i))[j] == Defs(t)[j].(entry := Defs(RegisterAll(t, i))[j].entry)
    decreases t.len - i
  {
    if i < t.len {
      RegisterAgrees(t, i);
      RegisterAllAgrees(Register(t, i), i + 1);
    }
  }

  // Starting registers every definition whose spec is valid, whatever ids an earlier cron left behind.
  lemma StartAgrees(t: Table)
    requires Agrees(t)
    ensures Agrees(StartCron(t))
    ensures |Defs(StartCron(t))| == |Defs(t)|
    ensures forall j :: 0 <= j < t.len ==>
              Defs(StartCron(t))[j] == Defs(t)[j].(entry := Defs(StartCron(t))[j].entry)
  {
    RegisterAllAgrees(t.(cron := Some(Cron(map[], 1))), 0);
  }

  // ----- upsert -----

  lemma AppendAgrees(t: Table, d: Def, extra: nat)
    requires Agrees(t) && d.reg == t.nextReg && d.entry == 0
    ensures var t2 := Append(t, d, extra).(nextReg := t.nextReg + 1);
            && Shape(t2) && Sound(Defs(t2), t2.nextReg, t2.parses)
            && (t.cron.Some? ==> Matched(Defs(t2), t.len, t2.cron.value, t2.parses))
  {
    var ds, ds' := Defs(t), Defs(Append(t, d, extra));
    assert forall i :: 0 <= i < |ds| ==> ds'[i] == ds[i];
    if t.cron.Some? {
      forall e | e in t.cron.value.entries ensures exists i :: 0 <= i < t.len && ds'[i].entry == e {
        var i :| 0 <= i < t.len && ds[i].entry == e;
        assert ds'[i].entry == e;
      }
    }
  }

  function LastEntry(t: Table): nat {
    if Shape(t) && t.len > 0 then Cells(t)[t.len - 1].entry else 0
  }

  lemma AddDefAgrees(t: Table, d: Def, extra: nat)
    requires Agrees(t) && d.reg == t.nextReg && d.entry == 0
    ensures var a := AddDef(t, d, extra);
            && Agrees(a.t)
            && Defs(a.t) == Defs(t) + [d.(entry := LastEntry(a.t))]
            && (t.cron.Some? ==> (LastEntry(a.t) != 0 <==> a.ok))
            && a.ok == (t.cron.Some? ==> t.parses(d.spec))
  {
    AppendAgrees(t, d, extra);
    var t2 := Append(t, d, extra).(nextReg := t.nextReg + 1);
    if t2.cron.Some? {
      RegisterAgrees(t2, t2.len - 1);
      RegisterLast(t2);
    }
  }

  lemma RegisterLast(t: Table)
    requires Shape(t) && t.cron.Some? && t.len > 0
    ensures Defs(Register(t, t.len - 1)) == Defs(t)[t.len - 1 := Defs(Register(t, t.len - 1))[t.len - 1]]
  {
  }

  // After an upsert the list is the old one without the (trimmed) name, plus the new definition at
  // the end; it is in the cron exactly if its spec is valid, and in the list in either case.
  lemma AddAgrees(t: Table, name: Name, spec: nat, job: nat, extra: nat)
    requires Agrees(t) && Text.Trim(name) != ""
    ensures var a, kept := Add(t, name, spec, job, extra), Without(Defs(t), Text.Trim(name));
            && Agrees(a.t)
            && Defs(a.t) == kept + [Def(t.nextReg, name, spec, job, LastEntry(a.t))]
            && (t.cron.Some? ==> (LastEntry(a.t) != 0 <==> a.ok))
            && a.ok == (t.cron.Some? ==> t.parses(spec))
  {
    RemoveAgrees(t, name);
    AddDefAgrees(Remove(t, name), Def(t.nextReg, name, spec, job, 0), extra);
  }
}
