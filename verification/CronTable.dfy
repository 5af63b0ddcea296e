/**
The scheduler's list of cron definitions as the program keeps it: an array that removal compacts in
place and that appending replaces when it is full, beside the live cron. View is the value the
functions of CronIndex are about; every method has exactly their effect.
*/
module CronTable {
  import opened Wrappers
  import opened CronIndex
  import Text

  // Moves the kept definitions to the front; k of them are kept.
  method Compact(buf: array<Def>, len: nat, n: Name) returns (k: nat, removed: bool)
    requires len <= buf.Length
    modifies buf
    ensures buf[..] == Compacted(old(buf[..]), len, n) && k == |Without(old(buf[..len]), n)|
    ensures removed <==> !Absent(old(buf[..len]), n)
  {
    ghost var cells := buf[..];
    k, removed := 0, false;
    for i := 0 to len
      invariant k <= i && k == |Without(cells[..i], n)| && (removed <==> k < i)
      invariant forall j :: 0 <= j < k ==> buf[j] == Without(cells[..i], n)[j]
      invariant forall j :: k <= j < buf.Length ==> buf[j] == cells[j]
    {
      assert cells[..i + 1][..i] == cells[..i];
      if buf[i].name == n {
        removed := true;
      } else {
        buf[k] := buf[i];
        k := k + 1;
      }
    }
    AllKept(cells[..len], n);
    CompactedAt(cells, len, n, buf[..]);
  }

  lemma CompactedAt(cells: seq<Def>, len: nat, n: Name, now: seq<Def>)
    requires len <= |cells| == |now|
    requires var kept := Without(cells[..len], n); forall j :: 0 <= j < |kept| ==> now[j] == kept[j]
    requires forall j :: |Without(cells[..len], n)| <= j < |now| ==> now[j] == cells[j]
    ensures now == Compacted(cells, len, n)
  {
  }

  lemma {:induction false} AllKept(ds: seq<Def>, n: Name)
    ensures |Without(ds, n)| == |ds| <==> Absent(ds, n)
  {
    if ds != [] {
      AllKept(ds[..|ds| - 1], n);
    }
  }

  // The new array of an append that found the old one full.
  method Grown(buf: array<Def>, len: nat, d: Def, extra: nat) returns (bigger: array<Def>)
    requires len == buf.Length
    ensures fresh(bigger) && bigger[..] == buf[..] + [d] + Padding(extra)
  {
    bigger := new Def[len + 1 + extra](_ => ZERO_DEF);
    for i := 0 to len
      invariant forall j :: 0 <= j < i ==> bigger[j] == buf[j]
      invariant forall j :: i <= j < bigger.Length ==> bigger[j] == ZERO_DEF
    {
      bigger[i] := buf[i];
    }
    bigger[len] := d;
  }

  // The cells when the definitions of that name are unregistered, if there is a cron.
  ghost function ClearedCells(t: Table, n: Name): (cells: seq<Def>)
    requires Shape(t)
    ensures |cells| == |Cells(t)|
  {
    if t.cron.Some? then Cleared(Cells(t)[..t.len], n) + Cells(t)[t.len..] else Cells(t)
  }

  lemma AbsentCleared(t: Table, n: Name)
    requires Shape(t)
    ensures Absent(ClearedCells(t, n)[..t.len], n) <==> Absent(Defs(t), n)
  {
    assert forall i :: 0 <= i < t.len ==> ClearedCells(t, n)[..t.len][i].name == Defs(t)[i].name;
  }

  lemma RemoveIs(t: Table, n: Name, cells: seq<Def>)
    requires Shape(t) && cells == ClearedCells(t, n)
    ensures RemoveCells(t, n) ==
            t.(heap := t.heap[t.cur := Compacted(cells, t.len, n)], len := |Without(cells[..t.len], n)|,
               cron := RemoveCells(t, n).cron)
  {
  }

  class DefTable {
    var buf: array<Def>
    var len: nat
    var cron: Option<Cron>
    var nextReg: nat
    const parses: nat -> bool
    var cur: nat                        // names the array buf, for the closures' pointers
    ghost var past: map<nat, seq<Def>>  // the arrays given up so far; only closures still read them

    ghost predicate Valid()
      reads this
    {
      len <= buf.Length && forall a :: a in past ==> a < cur
    }

    ghost function View(): (t: Table)
      requires Valid()
      reads this, buf
      ensures Shape(t)
    {
      Table(past[cur := buf[..]], cur, len, cron, nextReg, parses)
    }

    constructor (parses: nat -> bool)
      ensures Valid() && fresh(buf)
      ensures View() == Table(map[0 := []], 0, 0, None, 1, parses)
    {
      buf := new Def[0];
      len, cron, nextReg, cur, past := 0, None, 1, 0, map[];
      this.parses := parses;
      new;
      assert buf[..] == [];
    }

    // Takes the entries of that name out of the running cron and clears their ids.
    method Unregister(n: Name)
      requires Valid() && cron.Some?
      modifies this`cron, buf
      ensures cron == Some(old(cron.value).(entries := old(cron.value.entries) - EntryIds(old(buf[..len]), n)))
      ensures buf[..] == Cleared(old(buf[..len]), n) + old(buf[len..])
    {
      ghost var ds, tail := buf[..len], buf[len..];
      var c := cron.value;
      for i := 0 to len
        modifies this`cron, buf
        invariant cron.Some? && cron.value.next == c.next
        invariant cron.value.entries == c.entries - EntryIds(ds[..i], n)
        invariant forall j :: 0 <= j < i ==> buf[j] == Cleared(ds, n)[j]
        invariant forall j :: i <= j < buf.Length ==> buf[j] == (ds + tail)[j]
      {
        ghost var e0 := cron.value.entries;
        assert buf[i] == ds[i];
        if buf[i].name == n && buf[i].entry != 0 {
          cron := Some(cron.value.(entries := cron.value.entries - {buf[i].entry}));
          buf[i] := buf[i].(entry := 0);
        }
        IdsStep(ds, n, i);
        assert forall j :: i < j < buf.Length ==> buf[j] == (ds + tail)[j];
      }
      assert ds[..len] == ds;
    }

    // The removal proper, for a trimmed name.
    method RemoveNamed(n: Name) returns (removed: bool)
      requires Valid()
      modifies this`len, this`cron, buf
      ensures Valid() && View() == RemoveCells(old(View()), n)
      ensures removed <==> !Absent(Defs(old(View())), n)
    {
      ghost var t := View();
      if cron.Some? {
        Unregister(n);
      }
      ghost var cells := ClearedCells(t, n);
      assert buf[..] == cells && buf[..len] == cells[..t.len];
      AbsentCleared(t, n);
      RemoveIs(t, n, cells);
      len, removed := Compact(buf, len, n);
      assert past[cur := buf[..]] == t.heap[t.cur := Compacted(cells, t.len, n)];
    }

    // removeScheduleLocked
    method Remove(name: Name) returns (removed: bool)
      requires Valid()
      modifies this`len, this`cron, buf
      ensures Valid() && View() == CronIndex.Remove(old(View()), name)
      ensures removed <==> Text.Trim(name) != "" && !Absent(Defs(old(View())), Text.Trim(name))
    {
      var n := Text.Trim(name);
      if n == "" {
        return false;
      }
      removed := RemoveNamed(n);
    }

    // s.defs = append(s.defs, d)
    method Append(d: Def, extra: nat)
      requires Valid()
      modifies this`buf, this`len, this`cur, this`past, buf
      ensures Valid() && View() == CronIndex.Append(old(View()), d, extra)
      ensures buf == old(buf) || fresh(buf)
    {
      ghost var t := View();
      if len < buf.Length {
        buf[len] := d;
        assert buf[..] == Cells(t)[t.len := d];
        assert past[cur := buf[..]] == t.heap[t.cur := buf[..]];
      } else {
        var bigger := Grown(buf, len, d, extra);
        past, cur := past[cur := buf[..]], cur + 1;
        buf := bigger;
        assert past == t.heap && buf[..] == Defs(t) + [d] + Padding(extra);
      }
      len := len + 1;
    }

    // addCronLocked on the i-th definition
    method Register(i: nat) returns (ok: bool)
      requires Valid() && i < len && cron.Some?
      modifies this`cron, buf
      ensures Valid() && View() == CronIndex.Register(old(View()), i) && ok == parses(old(buf[i]).spec)
    {
      ok := parses(buf[i].spec);
      if ok {
        var c := cron.value;
        cron := Some(Cron(c.entries[c.next := Entry(Slot(cur, i), buf[i].reg)], c.next + 1));
        buf[i] := buf[i].(entry := c.next);
      }
    }

    // The part of AddCronOpt and AddIntervalOpt after the removal.
    method AddDef(d: Def, extra: nat) returns (ok: bool)
      requires Valid()
      modifies this, buf
      ensures Valid() && (buf == old(buf) || fresh(buf))
      ensures Added(View(), ok) == CronIndex.AddDef(old(View()), d, extra)
    {
      Append(d, extra);
      nextReg := nextReg + 1;
      ok := true;
      if cron.Some? {
        ok := Register(len - 1);
      }
    }

    // AddCronOpt and AddIntervalOpt
    method Add(name: Name, spec: nat, job: nat, extra: nat) returns (ok: bool)
      requires Valid()
      modifies this, buf
      ensures Valid() && (buf == old(buf) || fresh(buf))
      ensures Added(View(), ok) == CronIndex.Add(old(View()), name, spec, job, extra)
    {
      if Text.Trim(name) == "" {
        return false;
      }
      var _ := Remove(name);
      ok := AddDef(Def(nextReg, name, spec, job, 0), extra);
    }

    // Start, and the second half of restartLocked
    method StartCron()
      requires Valid()
      modifies this`cron, buf
      ensures Valid() && View() == CronIndex.StartCron(old(View()))
    {
      cron := Some(Cron(map[], 1));
      ghost var goal := RegisterAll(View(), 0);
      for i := 0 to len
        invariant cron.Some? && RegisterAll(View(), i) == goal
      {
        var _ := Register(i);
      }
    }
  }

  lemma IdsStep(ds: seq<Def>, n: Name, i: nat)
    requires i < |ds|
    ensures EntryIds(ds[..i + 1], n) ==
            EntryIds(ds[..i], n) + (if ds[i].name == n && ds[i].entry != 0 then {ds[i].entry} else {})
  {
    assert ds[..i + 1] == ds[..i] + [ds[i]];
  }
}
