/**
The speedtest history file: one record to a line, appended; read back through a ring buffer, and
compacted now and then.
*/
module History {
  import opened Wrappers
  import opened Int64
  import opened Lists

  type Line = string

  datatype Record = Record(v: int, ts: int, body: nat)

  const SCHEMA := 1
  const MAX_RECORDS := 2000
  const DAY: int := 86_400_000_000_000

  // JSON: which lines are records, and how records are written.
  datatype Codec = Codec(decode: Line -> Option<Record>, encode: Record -> Line)

  ghost predicate Sound(c: Codec) {
    forall r :: c.encode(r) != "" && c.decode(c.encode(r)) == Some(r)
  }

  function Reversed<T>(s: seq<T>): (r: seq<T>)
    ensures |r| == |s| && forall i :: 0 <= i < |s| ==> r[i] == s[|s| - 1 - i]
  {
    seq(|s|, i requires 0 <= i < |s| => s[|s| - 1 - i])
  }

  // The records in the file, in order: lines that are empty or do not decode are passed over.
  function Records(c: Codec, lines: seq<Line>): seq<Record> {
    if lines == [] then []
    else
      var n := |lines| - 1;
      var r := if lines[n] == "" then None else c.decode(lines[n]);
      Records(c, lines[..n]) + (if r.Some? then [r.value] else [])
  }

  function NotBefore(rs: seq<Record>, cutoff: int): seq<Record> {
    if rs == [] then []
    else
      var n := |rs| - 1;
      NotBefore(rs[..n], cutoff) + (if rs[n].ts < cutoff then [] else [rs[n]])
  }

  function NonEmpty(lines: seq<Line>): nat {
    if lines == [] then 0 else NonEmpty(lines[..|lines| - 1]) + (if lines[|lines| - 1] == "" then 0 else 1)
  }

  function NonEmptyAt(lines: seq<Line>): set<nat> {
    set i: nat | i < |lines| && lines[i] != ""
  }

  lemma {:induction false} NonEmptyCounts(lines: seq<Line>)
    ensures NonEmpty(lines) == |NonEmptyAt(lines)|
  {
    if lines != [] {
      var n := |lines| - 1;
      NonEmptyCounts(lines[..n]);
      assert NonEmptyAt(lines) == NonEmptyAt(lines[..n]) + (if lines[n] == "" then {} else {n});
    }
  }

  // ----- the ring -----

  // A slice of a fixed capacity: appended to until it is full, then overwritten in a circle.
  class Ring<T(0)> {
    const buf: array<T>
    var len: nat
    var idx: nat
    var full: bool

    ghost predicate Valid()
      reads this
    {
      && 0 < buf.Length && len <= buf.Length && idx < buf.Length
      && (full ==> len == buf.Length) && (!full ==> idx == 0)
    }

    // Oldest first.
    function Contents(): (s: seq<T>)
      requires Valid()
      reads this, buf
      ensures |s| == len
    {
      if full then buf[idx..] + buf[..idx] else buf[..len]
    }

    constructor (n: nat)
      requires 0 < n
      ensures Valid() && buf.Length == n && Contents() == [] && fresh(buf)
    {
      buf := new T[n];
      len, idx, full := 0, 0, false;
    }

    method Push(x: T)
      requires Valid()
      modifies this, buf
      ensures Valid() && Contents() == Last(old(Contents()) + [x], buf.Length)
    {
      if len < buf.Length {
        buf[len] := x;
        len := len + 1;
      } else {
        Overwrite(x);
      }
    }

    method Overwrite(x: T)
      requires Valid() && len == buf.Length
      modifies this`idx, this`full, buf
      ensures Valid() && Contents() == Last(old(Contents()) + [x], buf.Length)
    {
      ghost var before := buf[..];
      NextIndex(idx, buf.Length);
      Turned(before, idx, x);
      assert Contents() == before[idx..] + before[..idx];
      buf[idx] := x;
      idx := (idx + 1) % buf.Length;
      full := true;
      assert buf[..] == before[old(idx) := x];
    }
  }

  lemma NextIndex(i: nat, n: nat)
    requires i < n
    ensures (i + 1) % n == if i + 1 == n then 0 else i + 1
  {
  }

  // Overwriting the oldest element and moving on drops it and adds the new one at the end.
  lemma Turned<T>(d: seq<T>, i: nat, x: T)
    requires i < |d|
    ensures var e, k := d[i := x], if i + 1 == |d| then 0 else i + 1;
            e[k..] + e[..k] == Last(d[i..] + d[..i] + [x], |d|)
  {
  }

  method ReverseInPlace<T>(a: array<T>)
    modifies a
    ensures a[..] == Reversed(old(a[..]))
  {
    var i, j := 0, a.Length - 1;
    while i < j
      invariant 0 <= i <= a.Length && j == a.Length - 1 - i
      invariant forall k :: 0 <= k < i || j < k < a.Length ==> a[k] == old(a[..])[a.Length - 1 - k]
      invariant forall k :: i <= k <= j ==> a[k] == old(a[..])[k]
    {
      a[i], a[j] := a[j], a[i];
      i, j := i + 1, j - 1;
    }
  }

  // ----- reading back -----

  // getRecentResults: the last records, at most 50 of them, newest first.
  method GetRecentResults(c: Codec, lines: seq<Line>, want: int) returns (out: seq<Record>)
    ensures out == if want <= 0 then [] else Reversed(Last(Records(c, lines), Min(want, 50)))
  {
    if want <= 0 {
      return [];
    }
    var n := if want > 50 then 50 else want;
    var ring := new Ring<Record>(n);
    for i := 0 to |lines|
      invariant ring.Valid() && ring.buf.Length == n && fresh(ring) && fresh(ring.buf)
      invariant ring.Contents() == Last(Records(c, lines[..i]), n)
    {
      assert lines[..i + 1][..i] == lines[..i];
      var line := lines[i];
      if line == "" {
        continue;
      }
      var rec := c.decode(line);
      if rec.None? {
        continue;
      }
      LastAppend(Records(c, lines[..i]), rec.value, n);
      ring.Push(rec.value);
    }
    assert lines[..|lines|] == lines;
    var ordered := ring.Contents();
    var a := new Record[|ordered|](i requires 0 <= i < |ordered| => ordered[i]);
    assert a[..] == ordered;
    ReverseInPlace(a);
    out := a[..];
  }

  // ----- compaction -----

  // 24 hours for every day kept, in 64 bits.
  function Cutoff(now: int, keepDays: int): int {
    now + Wrap(-keepDays * DAY)
  }

  // The cutoff is the intended moment for up to 106751 days, about 292 years, and no further.
  lemma CutoffExact(now: int, keepDays: int)
    requires keepDays > 0
    ensures Cutoff(now, keepDays) == now - keepDays * (24 * 3_600_000_000_000) <==> keepDays <= 106751
  {
  }

  function Stamped(r: Record): Record {
    if r.v == 0 then r.(v := SCHEMA) else r
  }

  function Written(c: Codec, rs: seq<Record>): seq<Line> {
    if rs == [] then [] else Written(c, rs[..|rs| - 1]) + [c.encode(Stamped(rs[|rs| - 1]))]
  }

  function Kept(c: Codec, lines: seq<Line>, cutoff: int, max: nat): seq<Record> {
    Last(NotBefore(Records(c, lines), cutoff), max)
  }

  function KeepDays(keepDays: int): int {
    if keepDays < 1 then 1 else keepDays
  }

  function MaxRecords(max: int): nat {
    if max <= 0 then MAX_RECORDS else max
  }

  // compactHistoryFileLocked, file operations aside.
  method Compact(c: Codec, lines: seq<Line>, now: int, keepDays: int, maxRecords: int)
    returns (written: seq<Line>, removed: int)
    ensures var cutoff := Cutoff(now, if keepDays > 0 then keepDays else 1);
            var kept := Kept(c, lines, cutoff, if maxRecords > 0 then maxRecords else 2000);
            written == Written(c, kept) && removed == |NonEmptyAt(lines)| - |kept| && removed >= 0
  {
    var max := MaxRecords(maxRecords);
    var cutoff := Cutoff(now, KeepDays(keepDays));
    var ring := new Ring<Record>(max);
    var total := 0;
    for i := 0 to |lines|
      invariant ring.Valid() && ring.buf.Length == max && fresh(ring) && fresh(ring.buf)
      invariant ring.Contents() == Kept(c, lines[..i], cutoff, max)
      invariant total == NonEmpty(lines[..i])
    {
      CompactStep(c, lines, i, cutoff, max);
      var line := lines[i];
      if line == "" {
        continue;
      }
      total := total + 1;
      var rec := c.decode(line);
      if rec.None? || rec.value.ts < cutoff {
        continue;
      }
      ring.Push(rec.value);
    }
    assert lines[..|lines|] == lines;
    var ordered := ring.Contents();
    written := WriteAll(c, ordered);
    FewerRecords(c, lines, cutoff);
    NonEmptyCounts(lines);
    removed := total - |ordered|;
    if removed < 0 {
      removed := 0;
    }
  }

  method WriteAll(c: Codec, ordered: seq<Record>) returns (written: seq<Line>)
    ensures written == Written(c, ordered)
  {
    written := [];
    for i := 0 to |ordered|
      invariant written == Written(c, ordered[..i])
    {
      assert ordered[..i + 1][..i] == ordered[..i];
      var rec := ordered[i];
      if rec.v == 0 {
        rec := rec.(v := SCHEMA);
      }
      written := written + [c.encode(rec)];
    }
    assert ordered[..|ordered|] == ordered;
  }

  lemma CompactStep(c: Codec, lines: seq<Line>, i: nat, cutoff: int, max: nat)
    requires i < |lines| && max > 0
    ensures NonEmpty(lines[..i + 1]) == NonEmpty(lines[..i]) + (if lines[i] == "" then 0 else 1)
    ensures var r := if lines[i] == "" then None else c.decode(lines[i]);
            Kept(c, lines[..i + 1], cutoff, max) ==
            if r.Some? && r.value.ts >= cutoff then Last(Kept(c, lines[..i], cutoff, max) + [r.value], max)
            else Kept(c, lines[..i], cutoff, max)
  {
    assert lines[..i + 1][..i] == lines[..i];
    var rs := Records(c, lines[..i]);
    var r := if lines[i] == "" then None else c.decode(lines[i]);
    if r.Some? {
      assert (rs + [r.value])[..|rs|] == rs;
      if r.value.ts >= cutoff {
        LastAppend(NotBefore(rs, cutoff), r.value, max);
      } else {
        assert NotBefore(rs, cutoff) + [] == NotBefore(rs, cutoff);
      }
    } else {
      assert rs + [] == rs;
    }
  }

  lemma {:induction false} NotBeforeFewer(rs: seq<Record>, cutoff: int)
    ensures |NotBefore(rs, cutoff)| <= |rs|
  {
    if rs != [] {
      NotBeforeFewer(rs[..|rs| - 1], cutoff);
    }
  }

  // Removed and kept make up the lines that are not empty.
  lemma {:induction false} FewerRecords(c: Codec, lines: seq<Line>, cutoff: int)
    ensures |NotBefore(Records(c, lines), cutoff)| <= |Records(c, lines)| <= NonEmpty(lines)
  {
    NotBeforeFewer(Records(c, lines), cutoff);
    if lines != [] {
      FewerRecords(c, lines[..|lines| - 1], cutoff);
    }
  }

  // ----- compacting again -----

  function AllStamped(rs: seq<Record>): seq<Record> {
    if rs == [] then [] else AllStamped(rs[..|rs| - 1]) + [Stamped(rs[|rs| - 1])]
  }

  // A record without a schema gets schema 1; nothing else about a record changes.
  lemma {:induction false} SchemaFilled(rs: seq<Record>)
    ensures |AllStamped(rs)| == |rs|
    ensures forall i :: 0 <= i < |rs| ==>
              AllStamped(rs)[i] == Record(if rs[i].v == 0 then 1 else rs[i].v, rs[i].ts, rs[i].body)
  {
    if rs != [] {
      SchemaFilled(rs[..|rs| - 1]);
    }
  }

  // What was written reads back as the records with their schema filled in.
  lemma {:induction false} ReadWritten(c: Codec, rs: seq<Record>)
    requires Sound(c)
    ensures Records(c, Written(c, rs)) == AllStamped(rs) && NonEmpty(Written(c, rs)) == |rs| == |AllStamped(rs)|
  {
    if rs != [] {
      var n := |rs| - 1;
      ReadWritten(c, rs[..n]);
      var w := Written(c, rs[..n]);
      assert Written(c, rs)[..|w|] == w && |Written(c, rs)| == |w| + 1;
    }
  }

  lemma {:induction false} StampedKept(rs: seq<Record>, cutoff: int)
    ensures NotBefore(AllStamped(rs), cutoff) == AllStamped(NotBefore(rs, cutoff))
  {
    if rs != [] {
      var n := |rs| - 1;
      StampedKept(rs[..n], cutoff);
      var a, k := AllStamped(rs[..n]), NotBefore(rs[..n], cutoff);
      var b := AllStamped(rs);
      assert b[..|a|] == a && |b| == |a| + 1 && b[|a|] == Stamped(rs[n]);
      if rs[n].ts >= cutoff {
        assert (k + [rs[n]])[..|k|] == k;
      } else {
        assert NotBefore(a, cutoff) + [] == NotBefore(a, cutoff) && k + [] == k;
      }
    }
  }

  lemma {:induction false} NotBeforeAll(rs: seq<Record>, cutoff: int)
    requires forall i :: 0 <= i < |rs| ==> rs[i].ts >= cutoff
    ensures NotBefore(rs, cutoff) == rs
  {
    if rs != [] {
      NotBeforeAll(rs[..|rs| - 1], cutoff);
      assert rs == rs[..|rs| - 1] + [rs[|rs| - 1]];
    }
  }

  lemma {:induction false} NotBeforeHolds(rs: seq<Record>, cutoff: int)
    ensures forall i :: 0 <= i < |NotBefore(rs, cutoff)| ==> NotBefore(rs, cutoff)[i].ts >= cutoff
  {
    if rs != [] {
      NotBeforeHolds(rs[..|rs| - 1], cutoff);
    }
  }

  lemma {:induction false} StampedTwice(c: Codec, rs: seq<Record>)
    ensures Written(c, AllStamped(rs)) == Written(c, rs)
  {
    if rs != [] {
      var n := |rs| - 1;
      StampedTwice(c, rs[..n]);
      var a := AllStamped(rs[..n]);
      assert AllStamped(rs)[..|a|] == a && |AllStamped(rs)| == |a| + 1;
    }
  }

  // Compacting a compacted file at the same moment writes the same lines and removes nothing.
  lemma CompactTwice(c: Codec, lines: seq<Line>, cutoff: int, max: nat)
    requires Sound(c)
    ensures var w := Written(c, Kept(c, lines, cutoff, max));
            Written(c, Kept(c, w, cutoff, max)) == w && |Kept(c, w, cutoff, max)| == NonEmpty(w)
  {
    var all := NotBefore(Records(c, lines), cutoff);
    var k := Last(all, max);
    ReadWritten(c, k);
    NotBeforeHolds(Records(c, lines), cutoff);
    assert forall i :: 0 <= i < |k| ==> k[i] == all[i + |all| - |k|];
    NotBeforeAll(k, cutoff);
    StampedKept(k, cutoff);
    StampedTwice(c, k);
    assert Kept(c, Written(c, k), cutoff, max) == AllStamped(k);
  }

  // ----- compacting on the way -----

  predicate Chronological(rs: seq<Record>) {
    forall i, j :: 0 <= i < j < |rs| ==> rs[i].ts <= rs[j].ts
  }

  // The first record of a chronological list that is not before the cutoff.
  function FirstKept(rs: seq<Record>, cutoff: int): (k: nat)
    requires Chronological(rs)
    ensures k <= |rs|
    ensures forall i :: 0 <= i < |rs| ==> (rs[i].ts < cutoff <==> i < k)
  {
    if rs == [] then 0
    else
      var n := |rs| - 1;
      if rs[n].ts < cutoff then |rs| else FirstKept(rs[..n], cutoff)
  }

  lemma {:induction false} NotBeforeNone(rs: seq<Record>, cutoff: int)
    requires forall i :: 0 <= i < |rs| ==> rs[i].ts < cutoff
    ensures NotBefore(rs, cutoff) == []
  {
    if rs != [] {
      NotBeforeNone(rs[..|rs| - 1], cutoff);
    }
  }

  lemma {:induction false} NotBeforeAppend(a: seq<Record>, b: seq<Record>, cutoff: int)
    ensures NotBefore(a + b, cutoff) == NotBefore(a, cutoff) + NotBefore(b, cutoff)
  {
    if b == [] {
      assert a + b == a;
    } else {
      var n := |b| - 1;
      NotBeforeAppend(a, b[..n], cutoff);
      assert (a + b)[..|a + b| - 1] == a + b[..n];
    }
  }

  lemma NotBeforeSuffix(rs: seq<Record>, a: nat, cutoff: int)
    requires Chronological(rs) && a <= |rs|
    ensures NotBefore(rs[a..], cutoff) == rs[Max(a, FirstKept(rs, cutoff))..]
  {
    var k := Max(a, FirstKept(rs, cutoff));
    assert rs[a..] == rs[a..k] + rs[k..];
    NotBeforeSplit(rs[a..k], rs[k..], cutoff);
  }

  lemma NotBeforeSplit(a: seq<Record>, b: seq<Record>, cutoff: int)
    requires forall i :: 0 <= i < |a| ==> a[i].ts < cutoff
    requires forall i :: 0 <= i < |b| ==> b[i].ts >= cutoff
    ensures NotBefore(a + b, cutoff) == b
  {
    NotBeforeAppend(a, b, cutoff);
    NotBeforeNone(a, cutoff);
    NotBeforeAll(b, cutoff);
  }

  lemma FirstKeptPrefix(rs: seq<Record>, more: seq<Record>, c1: int, c2: int)
    requires Chronological(rs + more) && c1 <= c2 && Chronological(rs)
    ensures FirstKept(rs, c1) <= FirstKept(rs + more, c2)
  {
    var k := FirstKept(rs, c1);
    if k > 0 {
      assert (rs + more)[k - 1] == rs[k - 1];
    }
  }

  lemma LastSuffix<T>(s: seq<T>, a: nat, n: nat)
    requires a <= |s|
    ensures Last(s[a..], n) == s[Max(a, |s| - n)..]
  {
  }

  lemma KeptSuffix(rs: seq<Record>, a: nat, cutoff: int, max: nat)
    requires Chronological(rs) && a <= |rs|
    ensures Last(NotBefore(rs[a..], cutoff), max) == rs[Max(Max(a, FirstKept(rs, cutoff)), |rs| - max)..]
  {
    NotBeforeSuffix(rs, a, cutoff);
    LastSuffix(rs, Max(a, FirstKept(rs, cutoff)), max);
  }

  // On records: keeping some early, with an earlier cutoff, does not change what is kept later.
  lemma KeepEarlier(rs: seq<Record>, more: seq<Record>, c1: int, c2: int, max: nat)
    requires Chronological(rs + more) && c1 <= c2
    ensures Last(NotBefore(Last(NotBefore(rs, c1), max) + more, c2), max) == Last(NotBefore(rs + more, c2), max)
  {
    ChronologicalPrefix(rs, more);
    var a := Max(FirstKept(rs, c1), |rs| - max);
    KeptIsSuffix(rs, c1, max);
    SuffixMore(rs, more, a);
    FirstKeptPrefix(rs, more, c1, c2);
    LaterSuffix(rs + more, a, c2, max);
  }

  lemma ChronologicalPrefix(rs: seq<Record>, more: seq<Record>)
    requires Chronological(rs + more)
    ensures Chronological(rs)
  {
    assert forall i :: 0 <= i < |rs| ==> (rs + more)[i] == rs[i];
  }

  lemma KeptIsSuffix(rs: seq<Record>, cutoff: int, max: nat)
    requires Chronological(rs)
    ensures Last(NotBefore(rs, cutoff), max) == rs[Max(FirstKept(rs, cutoff), |rs| - max)..]
  {
    assert rs[0..] == rs;
    KeptSuffix(rs, 0, cutoff, max);
  }

  lemma SuffixMore(rs: seq<Record>, more: seq<Record>, a: nat)
    requires a <= |rs|
    ensures rs[a..] + more == (rs + more)[a..]
  {
  }

  // The records in front of a do not matter once they are before the cutoff or too many.
  lemma LaterSuffix(s: seq<Record>, a: nat, cutoff: int, max: nat)
    requires Chronological(s) && a <= |s| && a <= Max(FirstKept(s, cutoff), |s| - max)
    ensures Last(NotBefore(s[a..], cutoff), max) == Last(NotBefore(s, cutoff), max)
  {
    KeptSuffix(s, a, cutoff, max);
    KeptSuffix(s, 0, cutoff, max);
    assert s[0..] == s;
  }

  lemma {:induction false} RecordsAppend(c: Codec, a: seq<Line>, b: seq<Line>)
    ensures Records(c, a + b) == Records(c, a) + Records(c, b)
  {
    if b == [] {
      assert a + b == a;
    } else {
      var n := |b| - 1;
      RecordsAppend(c, a, b[..n]);
      assert (a + b)[..|a + b| - 1] == a + b[..n];
    }
  }

  lemma {:induction false} StampedAt(rs: seq<Record>)
    ensures |AllStamped(rs)| == |rs| && forall i :: 0 <= i < |rs| ==> AllStamped(rs)[i] == Stamped(rs[i])
  {
    if rs != [] {
      StampedAt(rs[..|rs| - 1]);
    }
  }

  // Filling in the schema commutes with keeping records.
  lemma StampedLast(rs: seq<Record>, cutoff: int, max: nat)
    ensures AllStamped(Last(NotBefore(rs, cutoff), max)) == Last(NotBefore(AllStamped(rs), cutoff), max)
  {
    var k := NotBefore(rs, cutoff);
    StampedKept(rs, cutoff);
    StampedAt(k);
    StampedAt(Last(k, max));
  }

  lemma StampedPart(k: seq<Record>, more: seq<Record>)
    ensures AllStamped(AllStamped(k) + more) == AllStamped(k + more)
  {
    StampedAt(k);
    SameStamped(AllStamped(k) + more, k + more);
  }

  lemma {:induction false} SameStamped(a: seq<Record>, b: seq<Record>)
    requires |a| == |b| && forall i :: 0 <= i < |a| ==> Stamped(a[i]) == Stamped(b[i])
    ensures AllStamped(a) == AllStamped(b)
  {
    if a != [] {
      SameStamped(a[..|a| - 1], b[..|b| - 1]);
    }
  }

  // What is written does not depend on whether the records in front had their schema filled in before.
  lemma WrittenSame(c: Codec, k: seq<Record>, more: seq<Record>, cutoff: int, max: nat)
    ensures Written(c, Last(NotBefore(AllStamped(k) + more, cutoff), max)) ==
            Written(c, Last(NotBefore(k + more, cutoff), max))
  {
    StampedTwice(c, Last(NotBefore(AllStamped(k) + more, cutoff), max));
    StampedTwice(c, Last(NotBefore(k + more, cutoff), max));
    StampedLast(AllStamped(k) + more, cutoff, max);
    StampedLast(k + more, cutoff, max);
    StampedPart(k, more);
  }

  // In a file whose records are in the order of time, compacting it earlier, with an earlier cutoff, and
  // appending more lines does not change the file that a later compaction writes.
  lemma CompactEarlier(c: Codec, lines: seq<Line>, more: seq<Line>, c1: int, c2: int, max: nat)
    requires Sound(c) && Chronological(Records(c, lines + more)) && c1 <= c2
    ensures Written(c, Kept(c, Written(c, Kept(c, lines, c1, max)) + more, c2, max)) ==
            Written(c, Kept(c, lines + more, c2, max))
  {
    var k := Kept(c, lines, c1, max);
    RecordsAppend(c, lines, more);
    RecordsAppend(c, Written(c, k), more);
    ReadWritten(c, k);
    WrittenSame(c, k, Records(c, more), c2, max);
    KeepEarlier(Records(c, lines), Records(c, more), c1, c2, max);
  }
}
