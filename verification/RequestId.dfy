/**
Request identifiers: a time stamp and a sequence number in base 36, and two random characters.
*/
module RequestId {
  import opened Int64
  import Text

  const CHARS := "0123456789abcdefghijklmnopqrstuvwxyz"
  const ALPHA := "abcdefghijklmnopqrstuvwxyz0123456789"
  const LENGTH := 32

  predicate IsDigit(c: char) {
    '0' <= c <= '9' || 'a' <= c <= 'z'
  }

  function Digit(d: nat): (c: char)
    requires d < 36
    ensures IsDigit(c) && Value(c) == d
  {
    CHARS[d]
  }

  function Value(c: char): nat {
    if '0' <= c <= '9' then c as int - '0' as int
    else if 'a' <= c <= 'z' then c as int - 'a' as int + 10
    else 0
  }

  predicate AllDigits(s: string) {
    forall i :: 0 <= i < |s| ==> IsDigit(s[i])
  }

  function Decode(s: string): nat {
    if s == "" then 0 else Decode(s[..|s| - 1]) * 36 + Value(s[|s| - 1])
  }

  function Pow36(n: nat): (r: nat)
    ensures r >= 1
  {
    if n == 0 then 1 else 36 * Pow36(n - 1)
  }

  // Negating the smallest integer gives itself.
  function Abs(v: int): int
    requires InRange(v)
  {
    if v < 0 then Wrap(-v) else v
  }

  lemma {:induction false} DecodePrepend(c: char, s: string)
    ensures Decode([c] + s) == Value(c) * Pow36(|s|) + Decode(s)
  {
    if s == "" {
      assert [c] + s == [c] && [c][..0] == "";
    } else {
      var n := |s| - 1;
      DecodePrepend(c, s[..n]);
      assert ([c] + s)[..|[c] + s| - 1] == [c] + s[..n];
      Distribute(Value(c), Pow36(n), Decode(s[..n]));
    }
  }

  lemma Distribute(a: nat, p: nat, d: nat)
    ensures (a * p + d) * 36 == a * (36 * p) + d * 36
  {
  }

  lemma Pow36Bounds()
    ensures Pow36(12) < TWO63 <= Pow36(13)
  {
    assert Pow36(4) == 1679616;
    assert Pow36(8) == 1679616 * 1679616;
  }

  lemma {:induction false} Pow36Grows(a: nat, b: nat)
    requires a <= b
    ensures Pow36(a) <= Pow36(b)
    decreases b - a
  {
    if a < b {
      Pow36Grows(a, b - 1);
    }
  }

  // While digits remain, fewer than thirteen have been written.
  lemma FewDigits(v: nat, k: nat, n: nat)
    requires 0 < v && v * Pow36(k) <= n < TWO63
    ensures k <= 12
  {
    Pow36Bounds();
    if k >= 13 {
      Pow36Grows(13, k);
      assert v * Pow36(k) >= 1 * Pow36(k);
    }
  }

  lemma OneDigit(v: nat, k: nat, d: nat, n: nat)
    requires n == v * Pow36(k) + d
    ensures n == (v / 36) * Pow36(k + 1) + ((v % 36) * Pow36(k) + d)
  {
    var q, r, p := v / 36, v % 36, Pow36(k);
    assert v == 36 * q + r;
    assert (36 * q + r) * p == q * (36 * p) + r * p;
  }

  // The tail written so far and the rest still to be written make up n.
  ghost predicate Written(tail: string, rest: nat, n: nat) {
    && AllDigits(tail) && n == rest * Pow36(|tail|) + Decode(tail) && |tail| <= (if rest > 0 then 12 else 13)
    && (rest == 0 && tail != "" ==> tail[0] != '0')
  }

  lemma WriteDigit(tail: string, rest: nat, n: nat)
    requires Written(tail, rest, n) && 0 < rest && n < TWO63
    ensures Written([Digit(rest % 36)] + tail, rest / 36, n)
  {
    DecodePrepend(Digit(rest % 36), tail);
    OneDigit(rest, |tail|, Decode(tail), n);
    if rest / 36 > 0 {
      FewDigits(rest / 36, |tail| + 1, n);
    }
  }

  method Put(out: array<char>, i: nat, c: char)
    requires i < out.Length
    modifies out
    ensures out[i..] == [c] + old(out[i + 1..])
  {
    out[i] := c;
  }

  lemma AllWritten(s: string, n: nat)
    requires Written(s, 0, n)
    ensures AllDigits(s) && |s| <= 13 && Decode(s) == n && (n > 0 ==> s != "" && s[0] != '0')
  {
  }

  // The digits fill the array from its end; there are none for a negative number.
  method Fill(n: int) returns (s: string)
    requires n < TWO63
    ensures if n <= 0 then s == "" else AllDigits(s) && 0 < |s| <= 13 && Decode(s) == n && s[0] != '0'
  {
    var out := new char[LENGTH](_ => ' ');
    var i, rest := LENGTH, n;
    assert out[i..] == "";
    while rest > 0
      invariant 0 <= i <= LENGTH && (n <= 0 ==> i == LENGTH)
      invariant n > 0 ==> 0 <= rest && Written(out[i..], rest, n)
      decreases rest
    {
      WriteDigit(out[i..], rest, n);
      i := i - 1;
      Put(out, i, Digit(rest % 36));
      rest := rest / 36;
    }
    s := out[i..];
    if n > 0 {
      AllWritten(s, n);
    }
  }

  method Base36(v: int) returns (s: string)
    requires InRange(v)
    ensures Renders(s, v)
  {
    var n := Abs(v);
    if n == 0 {
      assert "0"[..0] == "";
      return "0";
    }
    s := Fill(n);
  }

  // A rendering in base 36: at most thirteen digits that decode to the absolute value, without leading
  // zeros, except that the smallest integer has none.
  ghost predicate Renders(s: string, v: int)
    requires InRange(v)
  {
    && AllDigits(s) && |s| <= 13 && (s == "" <==> v == -TWO63) && (s != "" && s[0] == '0' ==> s == "0")
    && Decode(s) == if v == -TWO63 then 0 else if v < 0 then -v else v
  }

  // ----- which numbers render alike -----

  lemma {:induction false} DecodeSame(a: string, b: string)
    requires AllDigits(a) && AllDigits(b) && |a| == |b| && Decode(a) == Decode(b)
    ensures a == b
  {
    if a != "" {
      var n := |a| - 1;
      SameParts(Decode(a[..n]), Value(a[n]), Decode(b[..n]), Value(b[n]));
      DecodeSame(a[..n], b[..n]);
      assert a == a[..n] + [a[n]] && b == b[..n] + [b[n]];
    }
  }

  lemma SameParts(q: nat, d: nat, r: nat, e: nat)
    requires d < 36 && e < 36 && q * 36 + d == r * 36 + e
    ensures q == r && d == e
  {
  }

  lemma {:induction false} DecodeBound(s: string)
    requires AllDigits(s)
    ensures Decode(s) < Pow36(|s|) && (s != "" && s[0] != '0' ==> Pow36(|s| - 1) <= Decode(s))
  {
    if s != "" {
      var n := |s| - 1;
      DecodeBound(s[..n]);
      assert Pow36(|s|) == 36 * Pow36(n);
      if n > 0 && s[0] != '0' {
        assert s[..n][0] == s[0];
        assert Pow36(n) == 36 * Pow36(n - 1);
      }
    }
  }

  lemma ShorterIsLess(a: string, b: string)
    requires AllDigits(a) && AllDigits(b) && |a| < |b| && b[0] != '0'
    ensures Decode(a) < Decode(b)
  {
    DecodeBound(a);
    DecodeBound(b);
    Pow36Grows(|a|, |b| - 1);
  }

  function Magnitude(v: int): nat {
    if v < 0 then -v else v
  }

  lemma SameMagnitude(s: string, v: int, r: string, w: int)
    requires InRange(v) && InRange(w) && Renders(s, v) && Renders(r, w)
    requires Magnitude(v) == Magnitude(w) && s != "" && r != ""
    ensures s == r
  {
    if |s| < |r| {
      if r[0] != '0' {
        ShorterIsLess(s, r);
      }
    } else if |r| < |s| {
      if s[0] != '0' {
        ShorterIsLess(r, s);
      }
    }
    DecodeSame(s, r);
  }

  // Two numbers are rendered alike exactly if they are the same up to their sign; the smallest integer,
  // which has no digits, is rendered like itself only.
  lemma RendersAlike(s: string, v: int, r: string, w: int)
    requires InRange(v) && InRange(w) && Renders(s, v) && Renders(r, w)
    ensures s == r <==> Magnitude(v) == Magnitude(w)
  {
    if v != -TWO63 && w != -TWO63 && Magnitude(v) == Magnitude(w) {
      SameMagnitude(s, v, r, w);
    }
  }

  // ----- the identifiers -----

  // The sequence number read back: what stands between the first dash and the last two characters.
  function SequenceOf(id: string): nat {
    var i := Text.IndexOf(id, '-');
    if i + 3 <= |id| then Decode(id[i + 1..|id| - 2]) else 0
  }

  function AsSigned(n: nat): int {
    Wrap(n)
  }

  // An identifier made with the given time stamp, sequence number and random characters.
  ghost predicate IsId(id: string, ts: int, n: nat)
    requires InRange(ts)
  {
    exists t, m, r ::
      Renders(t, ts) && Renders(m, AsSigned(n)) && |r| == 2 && AllDigits(r) && id == t + "-" + m + r
  }

  lemma SequenceSplits(t: string, m: string, r: string)
    requires AllDigits(t) && |r| == 2
    ensures SequenceOf(t + "-" + m + r) == Decode(m)
  {
    var id := t + "-" + m + r;
    assert id[|t|] == '-' && forall j :: 0 <= j < |t| ==> id[j] == t[j];
    assert Text.IndexOf(id, '-') == |t|;
    assert id[|t| + 1..|id| - 2] == m;
  }

  // The sequence number can be read back, whatever the time stamp and the random characters, exactly
  // up to the largest signed integer.
  lemma SequenceReadBack(id: string, ts: int, n: nat)
    requires InRange(ts) && n < TWO64 && IsId(id, ts, n)
    ensures SequenceOf(id) == n <==> n < TWO63
  {
    var t, m, r :|
      Renders(t, ts) && Renders(m, AsSigned(n)) && |r| == 2 && AllDigits(r) && id == t + "-" + m + r;
    SequenceSplits(t, m, r);
  }

  lemma DistinctIds(id1: string, id2: string, ts1: int, ts2: int, n1: nat, n2: nat)
    requires InRange(ts1) && InRange(ts2) && IsId(id1, ts1, n1) && IsId(id2, ts2, n2)
    requires n1 < TWO63 && n2 < TWO63 && n1 != n2
    ensures id1 != id2
  {
    SequenceReadBack(id1, ts1, n1);
    SequenceReadBack(id2, ts2, n2);
  }

  lemma CountStep(k: nat)
    ensures (k % TWO64 + 1) % TWO64 == (k + 1) % TWO64 && (k + 1 < TWO63 ==> (k + 1) % TWO64 == k + 1)
  {
  }

  method MakeId(ts: int, n: nat, r: string) returns (id: string)
    requires InRange(ts) && |r| == 2 && AllDigits(r)
    ensures IsId(id, ts, n)
  {
    var t := Base36(ts);
    var m := Base36(AsSigned(n));
    id := t + "-" + m + r;
    assert Renders(t, ts) && Renders(m, AsSigned(n));
  }

  lemma NotGiven(given: seq<string>, id: string)
    requires (forall i :: 0 <= i < |given| ==> SequenceOf(given[i]) == i + 1) && SequenceOf(id) == |given| + 1
    ensures id !in given
    ensures forall i :: 0 <= i < |given + [id]| ==> SequenceOf((given + [id])[i]) == i + 1
  {
  }

  function Letter(r: nat): (c: char)
    requires r < 36
    ensures IsDigit(c)
  {
    ALPHA[r]
  }

  class Generator {
    var ridSeq: nat
    ghost var given: seq<string>       // everything handed out

    // Identifiers are told apart by their position as long as the counter stays below 2^63.
    ghost predicate Valid()
      reads this
    {
      && ridSeq == |given| % TWO64
      && (|given| < TWO63 ==> forall i :: 0 <= i < |given| ==> SequenceOf(given[i]) == i + 1)
    }

    constructor ()
      ensures Valid() && given == []
    {
      ridSeq, given := 0, [];
    }

    // r1 and r2 are the random draws, ts the clock.
    method NewReqId(ts: int, r1: nat, r2: nat) returns (id: string)
      requires Valid() && InRange(ts) && r1 < 36 && r2 < 36
      modifies this
      ensures Valid() && given == old(given) + [id] && IsId(id, ts, ridSeq)
      ensures |given| < TWO63 ==> id !in old(given)
    {
      CountStep(|given|);
      ridSeq := (ridSeq + 1) % TWO64;
      id := MakeId(ts, ridSeq, [Letter(r1), Letter(r2)]);
      SequenceReadBack(id, ts, ridSeq);
      if |given| + 1 < TWO63 {
        NotGiven(given, id);
      }
      given := given + [id];
    }
  }
}
