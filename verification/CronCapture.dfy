/**
Which definition a firing cron entry enqueues.

A closure that had captured its definition by value would always enqueue its own (EntryOwner). The
closures capture a pointer to a cell of the list instead, and both removal and append write cells that
closures may still point to, so an entry may enqueue another definition's job. For every table in
which each entry still reads its own definition, the exact condition is given under which an
operation keeps it so: no surviving entry points to a cell that the operation writes.
*/
module CronCapture {
  import opened Wrappers
  import opened CronIndex
  import Text

  // By index agreement every live entry belongs to exactly one definition, the one it was made for.
  lemma EntryOwner(t: Table, e: nat)
    requires Agrees(t) && t.cron.Some? && e in t.cron.value.entries
    ensures exists i :: 0 <= i < t.len && Defs(t)[i].entry == e && Defs(t)[i].reg == t.cron.value.entries[e].own
    ensures forall i, j :: 0 <= i < t.len && 0 <= j < t.len && Defs(t)[i].entry == e && Defs(t)[j].entry == e ==> i == j
  {
    var ds := Defs(t);
    forall i, j | 0 <= i < t.len && 0 <= j < t.len && ds[i].entry == e && ds[j].entry == e
      ensures i == j
    {
      assert ds[i].reg == ds[j].reg;
    }
  }

  predicate InHeap(t: Table, s: Slot) {
    s.arr in t.heap && s.idx < |t.heap[s.arr]|
  }

  // The definition the entry's closure reads when it fires.
  function Read(t: Table, s: Slot): Def {
    if InHeap(t, s) then t.heap[s.arr][s.idx] else ZERO_DEF
  }

  predicate Faithful(t: Table, e: Entry) {
    InHeap(t, e.slot) && Read(t, e.slot).reg == e.own
  }

  ghost predicate AllFaithful(t: Table) {
    t.cron.Some? ==> forall e :: e in t.cron.value.entries ==> Faithful(t, t.cron.value.entries[e])
  }

  // A name that a removal can find stands in the list at most once.
  predicate CleanOnce(ds: seq<Def>) {
    forall i, j :: 0 <= i < j < |ds| && ds[i].name == ds[j].name ==> !Text.Clean(ds[i].name)
  }

  // What every run keeps, whatever names it adds (CronRuns.RunInv).
  ghost predicate Indexed(t: Table) {
    Agrees(t) && CleanOnce(Defs(t))
  }

  // ----- starting -----

  lemma RegisterFaithful(t: Table, i: nat)
    requires Shape(t) && i < t.len && t.cron.Some? && AllFaithful(t)
    ensures AllFaithful(Register(t, i))
  {
  }

  lemma {:induction false} RegisterAllFaithful(t: Table, i: nat)
    requires Shape(t) && i <= t.len && t.cron.Some? && AllFaithful(t)
    ensures AllFaithful(RegisterAll(t, i))
    decreases t.len - i
  {
    if i < t.len {
      RegisterFaithful(t, i);
      RegisterAllFaithful(Register(t, i), i + 1);
    }
  }

  // Registering anew leaves the registrations in the cells alone, so any other cron's entry reads what
  // it read.
  lemma {:induction false} OthersRegistered(t: Table, i: nat, e: Entry)
    requires Shape(t) && i <= t.len && t.cron.Some? && InHeap(t, e.slot)
    ensures InHeap(RegisterAll(t, i), e.slot) && Read(RegisterAll(t, i), e.slot).reg == Read(t, e.slot).reg
    decreases t.len - i
  {
    if i < t.len {
      OthersRegistered(Register(t, i), i + 1, e);
    }
  }

  lemma OthersStarted(t: Table, e: Entry)
    requires Shape(t) && Faithful(t, e)
    ensures Faithful(StartCron(t), e)
  {
    OthersRegistered(t.(cron := Some(Cron(map[], 1))), 0, e);
  }

  // Start and restart leave every entry of the new cron reading its own definition.
  lemma StartFaithful(t: Table)
    requires Shape(t)
    ensures AllFaithful(StartCron(t))
  {
    RegisterAllFaithful(t.(cron := Some(Cron(map[], 1))), 0);
  }

  // ----- removal -----

  // The k-th definition is the only one of that name.
  predicate OnlyAt(ds: seq<Def>, k: nat, n: Name) {
    k < |ds| && ds[k].name == n && forall j :: 0 <= j < |ds| && j != k ==> ds[j].name != n
  }

  lemma FindOnly(ds: seq<Def>, n: Name) returns (k: nat)
    requires CleanOnce(ds) && Text.Clean(n) && !Absent(ds, n)
    ensures OnlyAt(ds, k, n)
  {
    k :| 0 <= k < |ds| && ds[k].name == n;
  }

  lemma {:induction false} WithoutAbsent(ds: seq<Def>, n: Name)
    requires Absent(ds, n)
    ensures Without(ds, n) == ds
  {
    if ds != [] {
      var last := |ds| - 1;
      WithoutAbsent(ds[..last], n);
      assert ds == ds[..last] + [ds[last]];
    }
  }

  // The list without its k-th definition.
  function Dropped(ds: seq<Def>, k: nat): (r: seq<Def>)
    requires k < |ds|
    ensures |r| == |ds| - 1
    ensures forall i :: 0 <= i < |r| ==> r[i] == if i < k then ds[i] else ds[i + 1]
  {
    ds[..k] + ds[k + 1..]
  }

  // Removing the only definition of that name.
  lemma {:induction false} WithoutAt(ds: seq<Def>, k: nat, n: Name)
    requires OnlyAt(ds, k, n)
    ensures Without(ds, n) == Dropped(ds, k)
  {
    var last := |ds| - 1;
    var front := ds[..last];
    if k == last {
      WithoutAbsent(front, n);
      assert Dropped(ds, k) == front;
    } else {
      WithoutAt(front, k, n);
      assert Dropped(ds, k) == Dropped(front, k) + [ds[last]];
    }
  }

  // What in-place removal leaves in each cell: the definitions behind the removed one move down by
  // one, and the last cell in use keeps what it held.
  predicate Shifted(cells: seq<Def>, cells': seq<Def>, k: nat, len: nat) {
    && |cells'| == |cells|
    && (forall i :: 0 <= i < |cells| && (i < k || len <= i) ==> cells'[i] == cells[i])
    && (forall i :: k <= i < len - 1 < |cells| ==> cells'[i] == cells[i + 1])
    && (k < len - 1 < |cells| ==> cells'[len - 1] == cells[len - 1])
    && (0 < len <= |cells| && k == len - 1 ==> cells'[k] == cells[k].(entry := cells'[k].entry))
  }

  lemma CompactedShifts(cells: seq<Def>, len: nat, k: nat, n: Name)
    requires len <= |cells| && OnlyAt(cells[..len], k, n)
    ensures Shifted(cells, Compacted(cells, len, n), k, len)
  {
    WithoutAt(cells[..len], k, n);
  }

  // Cells behind the k-th that were not touched, put behind the list without the k-th definition.
  lemma DroppedShifts(cells: seq<Def>, cells1: seq<Def>, len: nat, k: nat)
    requires k < len <= |cells| && |cells1| == |cells|
    requires forall i :: len - 1 <= i < |cells| && i != k ==> cells1[i] == cells[i]
    requires cells1[k] == cells[k].(entry := cells1[k].entry)
    ensures Shifted(cells, Dropped(cells[..len], k) + cells1[len - 1..], k, len)
  {
  }

  // Clearing the entry id of the definition that goes is not seen afterwards.
  lemma ClearedShifts(cells: seq<Def>, len: nat, k: nat, n: Name)
    requires len <= |cells| && OnlyAt(cells[..len], k, n)
    ensures Shifted(cells, Compacted(Cleared(cells[..len], n) + cells[len..], len, n), k, len)
  {
    var cleared := Cleared(cells[..len], n) + cells[len..];
    ClearedCompacted(cells[..len], cells[len..], k, n);
    assert forall i :: len - 1 <= i < |cells| && i != k ==> cleared[i] == cells[i];
    DroppedShifts(cells, cleared, len, k);
  }

  lemma ClearedCompacted(ds: seq<Def>, free: seq<Def>, k: nat, n: Name)
    requires OnlyAt(ds, k, n)
    ensures Compacted(Cleared(ds, n) + free, |ds|, n) == Dropped(ds, k) + (Cleared(ds, n) + free)[|ds| - 1..]
  {
    assert (Cleared(ds, n) + free)[..|ds|] == Cleared(ds, n);
    WithoutCleared(ds, n);
    WithoutAt(ds, k, n);
  }

  lemma RemovedLength(t: Table, k: nat, n: Name)
    requires Shape(t) && OnlyAt(Defs(t), k, n)
    ensures RemoveCells(t, n).len == t.len - 1
  {
    WithoutAt(Defs(t), k, n);
    WithoutCleared(Defs(t), n);
    var cells := Cells(t);
    assert (Cleared(cells[..t.len], n) + cells[t.len..])[..t.len] == Cleared(cells[..t.len], n);
  }

  lemma RemovedCells(t: Table, k: nat, n: Name)
    requires Shape(t) && OnlyAt(Defs(t), k, n)
    ensures var r := RemoveCells(t, n);
            && r.heap == t.heap[t.cur := Cells(r)] && r.cur == t.cur && r.len == t.len - 1
            && Shifted(Cells(t), Cells(r), k, t.len)
  {
    RemovedLength(t, k, n);
    if t.cron.Some? {
      ClearedShifts(Cells(t), t.len, k, n);
    } else {
      CompactedShifts(Cells(t), t.len, k, n);
    }
  }

  lemma RemoveAbsent(t: Table, n: Name)
    requires Shape(t) && Absent(Defs(t), n)
    ensures RemoveCells(t, n) == t
  {
    var cells := Cells(t);
    WithoutAbsent(Defs(t), n);
    assert Cleared(cells[..t.len], n) == cells[..t.len];
    assert cells[..t.len] + cells[t.len..] == cells;
    assert EntryIds(Defs(t), n) == {};
    if t.cron.Some? {
      assert t.cron.value.entries - {} == t.cron.value.entries;
    }
  }

  // ----- what the entries read after a removal -----

  // The cells a removal moves another definition into: those in use behind the removed definition,
  // its own included, but for the last.
  predicate Moves(t: Table, n: Name, s: Slot)
    requires Shape(t)
  {
    s.arr == t.cur && s.idx + 1 < t.len && !Absent(Defs(t)[..s.idx + 1], n)
  }

  lemma MovesFrom(t: Table, k: nat, n: Name, s: Slot)
    requires Shape(t) && OnlyAt(Defs(t), k, n)
    ensures Moves(t, n, s) <==> s.arr == t.cur && k <= s.idx && s.idx + 1 < t.len
  {
    if s.idx + 1 < t.len && k <= s.idx {
      assert Defs(t)[..s.idx + 1][k].name == n;
    }
  }

  lemma RemovedRead(t: Table, k: nat, n: Name, s: Slot)
    requires Shape(t) && OnlyAt(Defs(t), k, n) && InHeap(t, s)
    requires s == Slot(t.cur, k) ==> k + 1 < t.len
    ensures var r := RemoveCells(t, n);
            && InHeap(r, s)
            && Read(r, s) == if Moves(t, n, s) then Defs(t)[s.idx + 1] else Read(t, s)
  {
    RemovedCells(t, k, n);
    MovesFrom(t, k, n, s);
  }

  // The registration that a pointer to any cell finds after a removal.
  lemma RemovedReg(t: Table, n: Name, s: Slot)
    requires Indexed(t) && Text.Clean(n) && InHeap(t, s)
    ensures var r := RemoveCells(t, n);
            && InHeap(r, s)
            && Read(r, s).reg == if Moves(t, n, s) then Defs(t)[s.idx + 1].reg else Read(t, s).reg
  {
    if Absent(Defs(t), n) {
      RemoveAbsent(t, n);
      NotMoved(t, n, s);
    } else {
      var k := FindOnly(Defs(t), n);
      RemovedCells(t, k, n);
      MovesFrom(t, k, n, s);
      if s != Slot(t.cur, k) {
        RemovedRead(t, k, n, s);
      }
    }
  }

  lemma NotMoved(t: Table, n: Name, s: Slot)
    requires Shape(t) && Absent(Defs(t), n)
    ensures !Moves(t, n, s)
  {
  }

  // An entry of any cron, the service's own or not, that reads its own definition still does after the
  // removal exactly if its cell was not written.
  lemma AfterRemoval(t: Table, n: Name, e: Entry)
    requires Indexed(t) && Text.Clean(n) && Faithful(t, e)
    ensures Faithful(RemoveCells(t, n), e) <==> !Moves(t, n, e.slot)
  {
    RemovedReg(t, n, e.slot);
    if Moves(t, n, e.slot) {
      assert Defs(t)[e.slot.idx].reg == e.own;
    }
  }

  // The entries of the service's cron that outlive the removal of a name.
  function Survivors(t: Table, n: Name): map<nat, Entry>
    requires Shape(t) && t.cron.Some?
  {
    t.cron.value.entries - EntryIds(Defs(t), n)
  }

  // No surviving entry points to a cell that the removal writes.
  ghost predicate RemoveMisses(t: Table, n: Name)
    requires Shape(t)
  {
    t.cron.Some? ==> forall e :: e in Survivors(t, n) ==> !Moves(t, n, Survivors(t, n)[e].slot)
  }

  // A removal leaves every entry on its own definition exactly if no surviving entry points to a cell
  // that the compaction moves another definition into.
  lemma RemoveFaithful(t: Table, n: Name)
    requires Indexed(t) && AllFaithful(t) && Text.Clean(n)
    ensures AllFaithful(RemoveCells(t, n)) <==> RemoveMisses(t, n)
  {
    if t.cron.Some? {
      forall e | e in Survivors(t, n)
        ensures Faithful(RemoveCells(t, n), Survivors(t, n)[e]) <==> !Moves(t, n, Survivors(t, n)[e].slot)
      {
        AfterRemoval(t, n, Survivors(t, n)[e]);
      }
      assert RemoveCells(t, n).cron.value.entries == Survivors(t, n);
    }
  }

  // ----- what the entries read after an upsert -----

  // The array an append writes to.
  function Home(t: Table): nat
    requires Shape(t)
  {
    if t.len < |Cells(t)| then t.cur else t.cur + 1
  }

  // The cell that an upsert of the name appends to.
  function NewSlot(t: Table, n: Name): Slot
    requires Shape(t)
  {
    if Absent(Defs(t), n) then Slot(Home(t), t.len) else Slot(t.cur, t.len - 1)
  }

  lemma AddDefRead(t: Table, d: Def, extra: nat, s: Slot)
    requires Shape(t) && InHeap(t, s)
    ensures var r := AddDef(t, d, extra).t;
            && InHeap(r, s)
            && Read(r, s) == if s == Slot(Home(t), t.len) then d.(entry := LastEntry(r)) else Read(t, s)
  {
  }

  lemma AddDefEntries(t: Table, d: Def, extra: nat)
    requires Shape(t) && t.cron.Some? && d.entry == 0
    ensures var a := AddDef(t, d, extra);
            && a.t.cron.Some? && a.t.cur == Home(t) && a.t.len == t.len + 1 && Shape(a.t)
            && a.t.cron.value.entries ==
               (if t.parses(d.spec)
                then t.cron.value.entries[t.cron.value.next := Entry(Slot(Home(t), t.len), d.reg)]
                else t.cron.value.entries)
            && InHeap(a.t, Slot(Home(t), t.len))
            && Read(a.t, Slot(Home(t), t.len)) == d.(entry := LastEntry(a.t))
            && (t.parses(d.spec) ==> LastEntry(a.t) == t.cron.value.next)
  {
  }

  lemma AddIsUpsert(t: Table, name: Name, spec: nat, job: nat, extra: nat)
    requires Shape(t) && Text.Trim(name) != ""
    ensures Add(t, name, spec, job, extra) ==
            AddDef(RemoveCells(t, Text.Trim(name)), Def(t.nextReg, name, spec, job, 0), extra)
  {
  }

  lemma TrimmedClean(name: Name)
    requires Text.Trim(name) != ""
    ensures Text.Clean(Text.Trim(name))
  {
    Text.TrimFixed(name);
  }

  // After the removal the append goes to the cell NewSlot names.
  lemma AppendsThere(t: Table, n: Name)
    requires Indexed(t) && Text.Clean(n)
    ensures Slot(Home(RemoveCells(t, n)), RemoveCells(t, n).len) == NewSlot(t, n)
  {
    if Absent(Defs(t), n) {
      RemoveAbsent(t, n);
    } else {
      var k := FindOnly(Defs(t), n);
      RemovedCells(t, k, n);
    }
  }

  // The misdirection in full: what every cell that anything may point to holds after an upsert.
  lemma AddRead(t: Table, name: Name, spec: nat, job: nat, extra: nat, s: Slot)
    requires Indexed(t) && Text.Trim(name) != "" && InHeap(t, s)
    ensures var a, n := Add(t, name, spec, job, extra).t, Text.Trim(name);
            && InHeap(a, s)
            && Read(a, s) ==
               if s == NewSlot(t, n) then Def(t.nextReg, name, spec, job, LastEntry(a))
               else if Moves(t, n, s) then Defs(t)[s.idx + 1]
               else Read(t, s)
  {
    var n := Text.Trim(name);
    var r, d := RemoveCells(t, n), Def(t.nextReg, name, spec, job, 0);
    TrimmedClean(name);
    AddIsUpsert(t, name, spec, job, extra);
    AppendsThere(t, n);
    if Absent(Defs(t), n) {
      RemoveAbsent(t, n);
      NotMoved(t, n, s);
    } else {
      var k := FindOnly(Defs(t), n);
      RemovedCells(t, k, n);
      if s != NewSlot(t, n) {
        RemovedRead(t, k, n, s);
      }
    }
    AddDefRead(r, d, extra, s);
  }

  // The cells an upsert writes.
  predicate Writes(t: Table, n: Name, s: Slot)
    requires Shape(t)
  {
    Moves(t, n, s) || s == NewSlot(t, n)
  }

  // An entry of any cron that reads its own definition still does after the upsert exactly if its cell
  // was not written.
  lemma AfterUpsert(t: Table, name: Name, spec: nat, job: nat, extra: nat, e: Entry)
    requires Indexed(t) && Text.Trim(name) != "" && Faithful(t, e) && e.own < t.nextReg
    ensures Faithful(Add(t, name, spec, job, extra).t, e) <==> !Writes(t, Text.Trim(name), e.slot)
  {
    AddRead(t, name, spec, job, extra, e.slot);
    if Moves(t, Text.Trim(name), e.slot) {
      assert Defs(t)[e.slot.idx].reg == e.own;
    }
  }

  // The entries after an upsert: the survivors and, if the spec is valid, one new entry that reads the
  // new definition.
  lemma AddEntries(t: Table, name: Name, spec: nat, job: nat, extra: nat)
    requires Indexed(t) && t.cron.Some? && Text.Trim(name) != ""
    ensures var a, n := Add(t, name, spec, job, extra).t, Text.Trim(name);
            && a.cron.Some?
            && (forall e :: e in Survivors(t, n) ==>
                e in a.cron.value.entries && a.cron.value.entries[e] == Survivors(t, n)[e])
            && (forall e :: e in a.cron.value.entries && e !in Survivors(t, n) ==> Faithful(a, a.cron.value.entries[e]))
  {
    var r, d := RemoveCells(t, Text.Trim(name)), Def(t.nextReg, name, spec, job, 0);
    AddIsUpsert(t, name, spec, job, extra);
    AddDefEntries(r, d, extra);
    assert r.cron.value.entries == Survivors(t, Text.Trim(name));
    assert t.cron.value.next !in t.cron.value.entries;
  }

  // No surviving entry points to a cell that the upsert writes.
  ghost predicate AddMisses(t: Table, n: Name)
    requires Shape(t)
  {
    t.cron.Some? ==> forall e :: e in Survivors(t, n) ==> !Writes(t, n, Survivors(t, n)[e].slot)
  }

  lemma StaysIdle(t: Table, name: Name, spec: nat, job: nat, extra: nat)
    requires Shape(t) && t.cron.None?
    ensures Add(t, name, spec, job, extra).t.cron.None?
  {
  }

  // An upsert, of a new name or an existing one, with a valid spec or an invalid one, leaves every
  // entry on its own definition exactly if no surviving entry points to a cell that it writes: one the
  // compaction moves another definition into, or the one the append takes.
  lemma AddFaithful(t: Table, name: Name, spec: nat, job: nat, extra: nat)
    requires Indexed(t) && AllFaithful(t) && Text.Trim(name) != ""
    ensures AllFaithful(Add(t, name, spec, job, extra).t) <==> AddMisses(t, Text.Trim(name))
  {
    var a, n := Add(t, name, spec, job, extra).t, Text.Trim(name);
    if t.cron.None? {
      StaysIdle(t, name, spec, job, extra);
    } else {
      AddEntries(t, name, spec, job, extra);
      forall e | e in Survivors(t, n)
        ensures Faithful(a, Survivors(t, n)[e]) <==> !Writes(t, n, Survivors(t, n)[e].slot)
      {
        EntryOwner(t, e);
        AfterUpsert(t, name, spec, job, extra, Survivors(t, n)[e]);
      }
    }
  }

  // ----- names -----

  lemma {:induction false} WithoutCleanOnce(ds: seq<Def>, n: Name)
    requires CleanOnce(ds)
    ensures CleanOnce(Without(ds, n))
  {
    if ds != [] {
      var front := ds[..|ds| - 1];
      WithoutCleanOnce(front, n);
      WithoutKeeps(front, n);
    }
  }

  lemma RemoveIndexed(t: Table, name: Name)
    requires Indexed(t)
    ensures Indexed(Remove(t, name))
  {
    RemoveAgrees(t, name);
    WithoutCleanOnce(Defs(t), Text.Trim(name));
  }

  // A clean name replaces itself, so it is not doubled; any other name cannot be found anyway.
  lemma AddIndexed(t: Table, name: Name, spec: nat, job: nat, extra: nat)
    requires Indexed(t) && Text.Trim(name) != ""
    ensures Indexed(Add(t, name, spec, job, extra).t)
  {
    var n := Text.Trim(name);
    Text.TrimFixed(name);
    AddAgrees(t, name, spec, job, extra);
    WithoutCleanOnce(Defs(t), n);
    WithoutKeeps(Defs(t), n);
    OnceMore(Without(Defs(t), n), Def(t.nextReg, name, spec, job, LastEntry(Add(t, name, spec, job, extra).t)));
  }

  lemma OnceMore(ds: seq<Def>, d: Def)
    requires CleanOnce(ds) && (Text.Clean(d.name) ==> Absent(ds, d.name))
    ensures CleanOnce(ds + [d])
  {
  }

  lemma StartIndexed(t: Table)
    requires Indexed(t)
    ensures Indexed(StartCron(t))
  {
    StartAgrees(t);
    var ds, ds' := Defs(t), Defs(StartCron(t));
    assert forall i :: 0 <= i < |ds| ==> ds'[i].name == ds[i].name;
  }

  // ----- the shortest runs that go wrong -----

  // The last definition has an entry that points to its own cell, and nothing is misdirected.
  ghost predicate OwnsLast(t: Table, d: Def) {
    && Indexed(t) && AllFaithful(t) && t.cron.Some? && t.len > 0 && Defs(t)[t.len - 1] == d
    && d.entry in t.cron.value.entries && t.cron.value.entries[d.entry] == Entry(Slot(t.cur, t.len - 1), d.reg)
  }

  lemma FreshOwnsLast(t: Table, name: Name, spec: nat, job: nat, extra: nat)
    requires Indexed(t) && AllFaithful(t) && t.cron.Some? && Text.Clean(name) && Absent(Defs(t), name)
    requires t.parses(spec) && AddMisses(t, name)
    ensures var a := Add(t, name, spec, job, extra).t;
            && OwnsLast(a, Def(t.nextReg, name, spec, job, t.cron.value.next))
            && Defs(a) == Defs(t) + [Def(t.nextReg, name, spec, job, t.cron.value.next)]
            && a.parses == t.parses
  {
    var d := Def(t.nextReg, name, spec, job, 0);
    Text.TrimFixed(name);
    AddIsUpsert(t, name, spec, job, extra);
    RemoveAbsent(t, name);
    AddDefEntries(t, d, extra);
    AddFaithful(t, name, spec, job, extra);
    AddIndexed(t, name, spec, job, extra);
    AddDefAgrees(t, d, extra);
  }

  lemma EmptyMisses(t: Table, name: Name)
    requires Agrees(t) && Defs(t) == []
    ensures AddMisses(t, name)
  {
  }

  lemma OneMisses(t: Table, d: Def, name: Name)
    requires OwnsLast(t, d) && Defs(t) == [d] && d.name != name
    ensures AddMisses(t, name)
  {
    forall e | e in Survivors(t, name) ensures !Writes(t, name, Survivors(t, name)[e].slot) {
      EntryOwner(t, e);
      NotMoved(t, name, Survivors(t, name)[e].slot);
    }
  }

  // After adding two names, b's definition is the last and its entry points to its cell.
  ghost predicate TwoAdded(t: Table, a: Name, b: Name, jobB: nat) {
    && Indexed(t) && t.len == 2 && Defs(t)[0].name == a && Defs(t)[1].name == b && Defs(t)[1].job == jobB
    && OwnsLast(t, Defs(t)[1])
  }

  lemma AddFirst(t0: Table, a: Name, spec: nat, job: nat, extra: nat)
    requires Indexed(t0) && t0.cron.Some? && Defs(t0) == [] && t0.parses(spec) && Text.Clean(a)
    ensures var t1, d := Add(t0, a, spec, job, extra).t, Def(t0.nextReg, a, spec, job, t0.cron.value.next);
            OwnsLast(t1, d) && Defs(t1) == [d] && t1.parses(spec)
  {
    assert AllFaithful(t0);
    EmptyMisses(t0, a);
    FreshOwnsLast(t0, a, spec, job, extra);
  }

  lemma AddSecond(t1: Table, d: Def, b: Name, spec: nat, job: nat, extra: nat)
    requires OwnsLast(t1, d) && Defs(t1) == [d] && t1.parses(spec) && Text.Clean(b) && d.name != b
    ensures TwoAdded(Add(t1, b, spec, job, extra).t, d.name, b, job)
  {
    OneMisses(t1, d, b);
    FreshOwnsLast(t1, b, spec, job, extra);
    assert |Defs(Add(t1, b, spec, job, extra).t)| == 2;
  }

  lemma AddTwo(t0: Table, a: Name, b: Name, spec: nat, jobA: nat, jobB: nat, x: nat, y: nat)
    requires Indexed(t0) && t0.cron.Some? && Defs(t0) == [] && t0.parses(spec)
    requires Text.Clean(a) && Text.Clean(b) && a != b
    ensures TwoAdded(Add(Add(t0, a, spec, jobA, x).t, b, spec, jobB, y).t, a, b, jobB)
  {
    AddFirst(t0, a, spec, jobA, x);
    AddSecond(Add(t0, a, spec, jobA, x).t, Def(t0.nextReg, a, spec, jobA, t0.cron.value.next), b, spec, jobB, y);
  }

  // B's entry, which an upsert of the given name makes read a definition of that name and job.
  ghost predicate Hijacked(t: Table, r: Table, name: Name, job: nat) {
    && t.cron.Some? && r.cron.Some? && t.len == 2 && Shape(t)
    && var e := Defs(t)[1].entry;
       && e in t.cron.value.entries && e in r.cron.value.entries && r.cron.value.entries[e] == t.cron.value.entries[e]
       && Read(r, r.cron.value.entries[e].slot).name == name && Read(r, r.cron.value.entries[e].slot).job == job
  }

  // With a running cron and no definitions: add A, add B, add A again. B's entry now enqueues A's job.
  lemma ReAddTrace(t0: Table, a: Name, b: Name, spec: nat, jobA: nat, jobB: nat, x: nat, y: nat, z: nat)
    requires Indexed(t0) && t0.cron.Some? && Defs(t0) == [] && t0.parses(spec)
    requires Text.Clean(a) && Text.Clean(b) && a != b
    ensures var t2 := Add(Add(t0, a, spec, jobA, x).t, b, spec, jobB, y).t;
            TwoAdded(t2, a, b, jobB) && Hijacked(t2, Add(t2, a, spec, jobA, z).t, a, jobA)
  {
    AddTwo(t0, a, b, spec, jobA, jobB, x, y);
    LastHijacked(Add(Add(t0, a, spec, jobA, x).t, b, spec, jobB, y).t, 0, a, spec, jobA, z);
  }

  lemma LastHijacked(t: Table, k: nat, name: Name, spec: nat, job: nat, extra: nat)
    requires Shape(t) && t.len == 2 && OwnsLast(t, Defs(t)[1]) && Text.Clean(name)
    requires OnlyAt(Defs(t), k, name) && k == 0
    ensures Hijacked(t, Add(t, name, spec, job, extra).t, name, job)
  {
    Text.TrimFixed(name);
    LastSurvives(t, name);
    AddEntries(t, name, spec, job, extra);
    AddRead(t, name, spec, job, extra, Slot(t.cur, 1));
  }

  lemma LastSurvives(t: Table, name: Name)
    requires Shape(t) && t.len == 2 && OwnsLast(t, Defs(t)[1]) && Defs(t)[1].name != name
    ensures Defs(t)[1].entry in Survivors(t, name)
  {
    EntryOwner(t, Defs(t)[1].entry);
  }

  // Without adding anything again: add A, add B, remove A, and every entry still fires its own job; add
  // C, a name never used before, and B's entry enqueues C's job.
  lemma RemoveAddTrace(t0: Table, a: Name, b: Name, c: Name, spec: nat, jobA: nat, jobB: nat, jobC: nat, x: nat,
                       y: nat, z: nat)
    requires Indexed(t0) && t0.cron.Some? && Defs(t0) == [] && t0.parses(spec)
    requires Text.Clean(a) && Text.Clean(b) && Text.Clean(c) && a != b && b != c
    ensures var t2 := Add(Add(t0, a, spec, jobA, x).t, b, spec, jobB, y).t;
            var t3 := Remove(t2, a);
            && TwoAdded(t2, a, b, jobB) && AllFaithful(t3) && Absent(Defs(t3), c)
            && Hijacked(t2, Add(t3, c, spec, jobC, z).t, c, jobC)
  {
    AddTwo(t0, a, b, spec, jobA, jobB, x, y);
    var t2 := Add(Add(t0, a, spec, jobA, x).t, b, spec, jobB, y).t;
    RemoveFirst(t2, a, b, jobB);
    LastOutside(t2, Remove(t2, a), c, spec, jobC, z);
  }

  // After removing the first of two, the second's entry points to the free cell behind the list.
  ghost predicate PointsBehind(t: Table, r: Table) {
    && Shape(t) && t.len == 2 && t.cron.Some? && Defs(t)[1].entry in t.cron.value.entries
    && Indexed(r) && r.cron.Some? && r.len == 1 && r.len < |Cells(r)|
    && Defs(t)[1].entry in r.cron.value.entries
    && r.cron.value.entries[Defs(t)[1].entry] == t.cron.value.entries[Defs(t)[1].entry]
    && r.cron.value.entries[Defs(t)[1].entry].slot == Slot(r.cur, 1) && Defs(r) == [Defs(t)[1]]
  }

  // No entry that outlives a definition reads its cell.
  lemma SurvivorElsewhere(t: Table, k: nat, n: Name, e: nat)
    requires Agrees(t) && AllFaithful(t) && t.cron.Some? && OnlyAt(Defs(t), k, n) && e in Survivors(t, n)
    ensures t.cron.value.entries[e].slot != Slot(t.cur, k)
  {
    var ds := Defs(t);
    EntryOwner(t, e);
    var j :| 0 <= j < t.len && ds[j].entry == e && ds[j].reg == t.cron.value.entries[e].own;
    assert ds[k] in ds;
    assert Faithful(t, t.cron.value.entries[e]);
  }

  // No entry points to a cell that removing the first of two writes: there is none but its own.
  lemma FirstMisses(t: Table, a: Name)
    requires Indexed(t) && AllFaithful(t) && t.len == 2 && OnlyAt(Defs(t), 0, a)
    ensures RemoveMisses(t, a)
  {
    if t.cron.Some? {
      forall e | e in Survivors(t, a) ensures !Moves(t, a, Survivors(t, a)[e].slot) {
        SurvivorElsewhere(t, 0, a, e);
      }
    }
  }

  lemma FirstRemoved(t: Table, a: Name)
    requires Indexed(t) && t.len == 2 && OnlyAt(Defs(t), 0, a)
    ensures var r := RemoveCells(t, a);
            r.cur == t.cur && r.len == 1 && r.len < |Cells(r)| && Defs(r) == [Defs(t)[1]]
  {
    RemovedCells(t, 0, a);
  }

  lemma RemoveFirst(t: Table, a: Name, b: Name, jobB: nat)
    requires TwoAdded(t, a, b, jobB) && Text.Clean(a) && a != b
    ensures PointsBehind(t, Remove(t, a)) && AllFaithful(Remove(t, a))
  {
    Text.TrimFixed(a);
    RemoveIndexed(t, a);
    FirstRemoved(t, a);
    LastSurvives(t, a);
    FirstMisses(t, a);
    RemoveFaithful(t, a);
  }

  lemma LastOutside(t: Table, r: Table, c: Name, spec: nat, job: nat, extra: nat)
    requires PointsBehind(t, r) && Text.Clean(c) && Defs(t)[1].name != c
    ensures Absent(Defs(r), c) && Hijacked(t, Add(r, c, spec, job, extra).t, c, job)
  {
    Text.TrimFixed(c);
    AddEntries(r, c, spec, job, extra);
    EntryOwner(r, Defs(t)[1].entry);
    assert Defs(t)[1].entry in Survivors(r, c);
    AddRead(r, c, spec, job, extra, Slot(r.cur, 1));
  }
}
