/**
What a worker does with one task: the attempts with their growing delays, the running flag around
them, and the line in the bounded history at the end.
*/
module Worker {
  import opened Int64
  import opened Lists

  // ----- the delay before a retry -----

  datatype Options = Options(retryMax: int, retryBase: int, retryMaxDelay: int, retryJitter: real)

  function Base(o: Options): int {
    if o.retryBase <= 0 then 500_000_000 else o.retryBase
  }

  function MaxDelay(o: Options): int {
    if o.retryMaxDelay <= 0 then 15_000_000_000 else o.retryMaxDelay
  }

  function Jitter(o: Options): real {
    if o.retryJitter <= 0.0 then 0.2 else o.retryJitter
  }

  // k rounds of doubling in 64 bits, stopping at the first result above the maximum.
  function Doubled(d: int, k: nat, maxD: int): int
    decreases k
  {
    if k == 0 then d
    else
      var e := Wrap(d * 2);
      if e > maxD then maxD else Doubled(e, k - 1, maxD)
  }

  function Clamped(d: int, maxD: int): int {
    if d < 0 then Min(0, maxD) else Min(d, maxD)
  }

  // The number of doublings before the given retry, which counts from 1.
  function Rounds(retry: nat): nat {
    if retry == 0 then 0 else retry - 1
  }

  // u is the random number, at least 0 and below 1.
  function Swing(o: Options, u: real): real {
    (u * 2.0 - 1.0) * Jitter(o)
  }

  function Jittered(d: int, swing: real): int {
    Truncated(Fraction(d, 1.0 + swing))
  }

  function Delay(o: Options, retry: nat, u: real): int {
    Clamped(Jittered(Doubled(Base(o), Rounds(retry), MaxDelay(o)), Swing(o, u)), MaxDelay(o))
  }

  method Grow(base: int, retry: nat, maxD: int) returns (d: int)
    ensures d == Doubled(base, Rounds(retry), maxD)
  {
    d := base;
    var i := 1;
    while i < retry
      invariant 1 <= i && (i <= retry || retry == 0)
      invariant Doubled(base, Rounds(retry), maxD) == Doubled(d, if i < retry then retry - i else 0, maxD)
    {
      d := Wrap(d * 2);
      if d > maxD {
        d := maxD;
        break;
      }
      i := i + 1;
    }
  }

  method BackoffDelay(o: Options, retry: nat, u: real) returns (delay: int)
    ensures delay == Delay(o, retry, u)
    ensures 0 <= delay <= Chosen(o.retryMaxDelay, 15_000_000_000)
  {
    var d := Grow(Base(o), retry, MaxDelay(o));
    delay := Jittered(d, Swing(o, u));
    if delay < 0 {
      delay := 0;
    }
    if delay > MaxDelay(o) {
      delay := MaxDelay(o);
    }
  }

  // The first doubling of d that is too large to be doubled again.
  function FirstTooLarge(d: int): (r: int)
    requires d > 0
    ensures r >= d && r >= TWO62
    decreases TWO62 - d
  {
    if d >= TWO62 then d else FirstTooLarge(d * 2)
  }

  // Doubling from base meets the maximum before it meets a value that cannot be doubled.
  predicate Doublable(base: int, maxD: int)
    requires base > 0
  {
    base < TWO62 && maxD < FirstTooLarge(base)
  }

  lemma Pow2Step(d: int, k: nat)
    requires d > 0 && k > 0
    ensures d * Pow2(k) == (d * 2) * Pow2(k - 1) && d * Pow2(k) >= d * 2
  {
    assert Pow2(k) == 2 * Pow2(k - 1);
    assert (d * 2) * Pow2(k - 1) >= (d * 2) * 1;
  }

  lemma {:induction false} DoubledExact(d: int, k: nat, maxD: int)
    requires d > 0 && k > 0 && maxD > 0 && Doublable(d, maxD)
    ensures Doubled(d, k, maxD) == Min(d * Pow2(k), maxD)
    decreases k
  {
    Pow2Step(d, k);
    if d * 2 <= maxD {
      if k > 1 {
        DoubledExact(d * 2, k - 1, maxD);
      }
    }
  }

  // One doubling too many turns the delay negative.
  lemma WrapsNegative(d: int)
    requires TWO62 <= d < TWO63
    ensures Wrap(d * 2) < 0
  {
  }

  lemma {:induction false} DoubledWraps(d: int, maxD: int) returns (k: nat)
    requires 0 < d < TWO63 && 0 < maxD < TWO63 && !Doublable(d, maxD)
    ensures k > 0 && Doubled(d, k, maxD) < 0
    decreases TWO62 - d
  {
    if d >= TWO62 {
      k := 1;
      WrapsNegative(d);
      assert Doubled(d, 1, maxD) == Doubled(Wrap(d * 2), 0, maxD);
    } else {
      assert FirstTooLarge(d) == FirstTooLarge(d * 2);
      var k' := DoubledWraps(d * 2, maxD);
      k := k' + 1;
      assert Doubled(d, k, maxD) == Doubled(d * 2, k', maxD);
    }
  }

  // The delays double exactly up to the maximum, for every retry, just when the base can be doubled
  // past the maximum without leaving 64 bits. A maximum below 2^62 (146 years) is enough.
  lemma BackoffExact(base: int, maxD: int)
    requires 0 < base < TWO63 && 0 < maxD < TWO63
    ensures (forall k: nat :: k > 0 ==> Doubled(base, k, maxD) == Min(base * Pow2(k), maxD)) <==> Doublable(base, maxD)
    ensures base < TWO62 && maxD < TWO62 ==> Doublable(base, maxD)
  {
    if Doublable(base, maxD) {
      forall k: nat | k > 0 ensures Doubled(base, k, maxD) == Min(base * Pow2(k), maxD) {
        DoubledExact(base, k, maxD);
      }
    } else {
      var k := DoubledWraps(base, maxD);
      Pow2Step(base, k);
      assert Doubled(base, k, maxD) != Min(base * Pow2(k), maxD);
    }
  }

  // A setting that is positive, and its default otherwise.
  function Chosen(setting: int, default: int): int {
    if setting > 0 then setting else default
  }

  // The delay before a retry without jitter, wrap-around and rounding: half a second doubled with each
  // retry up to 15 seconds, where the task says nothing else.
  function Ideal(o: Options, retry: nat): int {
    var base, maxD := Chosen(o.retryBase, 500_000_000), Chosen(o.retryMaxDelay, 15_000_000_000);
    if retry <= 1 then base else Min(base * Pow2(retry - 1), maxD)
  }

  // The fraction a delay may be off by: a fifth, where the task says nothing else.
  function Fluctuation(o: Options): real {
    if o.retryJitter > 0.0 then o.retryJitter else 0.2
  }

  predicate CanDouble(o: Options) {
    Doublable(Chosen(o.retryBase, 500_000_000), Chosen(o.retryMaxDelay, 15_000_000_000))
  }

  lemma IdealReached(o: Options, retry: nat)
    requires CanDouble(o)
    ensures 0 < Doubled(Base(o), Rounds(retry), MaxDelay(o)) == Ideal(o, retry)
  {
    if retry > 1 {
      DoubledExact(Base(o), retry - 1, MaxDelay(o));
      Pow2Step(Base(o), retry - 1);
    }
  }

  // The delay is the ideal one times 1 + (2u - 1) j for the random number u, cut towards zero, and then
  // cut off below zero and above the maximum.
  lemma DelayExact(o: Options, retry: nat, u: real)
    requires CanDouble(o)
    ensures var product := Fraction(Ideal(o, retry), 1.0 + (2.0 * u - 1.0) * Fluctuation(o));
            var maxD := Chosen(o.retryMaxDelay, 15_000_000_000);
            Delay(o, retry, u) == if product < 0.0 then 0 else if product.Floor > maxD then maxD else product.Floor
  {
    IdealReached(o, retry);
    assert Swing(o, u) == (2.0 * u - 1.0) * Fluctuation(o);
  }

  // Within the fraction j of d, cut towards zero, or cut off at the maximum.
  predicate NearIdeal(delay: int, d: int, j: real, maxD: int) {
    && delay as real <= Fraction(d, 1.0 + j)
    && (delay == maxD || delay as real > Fraction(d, 1.0 - j) - 1.0)
  }

  // With a jitter of at most 1 a delay stays within its fraction of the ideal one, and under the maximum.
  lemma JitterBounds(o: Options, retry: nat, u: real)
    requires Fluctuation(o) <= 1.0 && 0.0 <= u < 1.0 && CanDouble(o)
    ensures NearIdeal(Delay(o, retry, u), Ideal(o, retry), Fluctuation(o), Chosen(o.retryMaxDelay, 15_000_000_000))
  {
    IdealReached(o, retry);
    SwingBounds(o, u);
    JitteredBounds(Ideal(o, retry), Swing(o, u), Jitter(o), MaxDelay(o));
  }

  lemma SwingBounds(o: Options, u: real)
    requires 0.0 <= u < 1.0
    ensures -Jitter(o) <= Swing(o, u) <= Jitter(o)
  {
    Product(1.0 - (u * 2.0 - 1.0), Jitter(o));
    Product(1.0 + (u * 2.0 - 1.0), Jitter(o));
  }

  lemma JitteredBounds(d: int, r: real, j: real, maxD: int)
    requires d > 0 && -j <= r <= j <= 1.0 && maxD > 0
    ensures NearIdeal(Clamped(Jittered(d, r), maxD), d, j, maxD)
  {
    FractionOrder(d, 1.0 - j, 1.0 + r);
    FractionOrder(d, 1.0 + r, 1.0 + j);
    ClampedBounds(Fraction(d, 1.0 + r), Fraction(d, 1.0 - j), Fraction(d, 1.0 + j), maxD);
  }

  lemma ClampedBounds(y: real, lo: real, hi: real, maxD: int)
    requires 0.0 <= lo <= y <= hi && maxD > 0
    ensures var c := Clamped(Truncated(y), maxD);
            c as real <= hi && (c == maxD || c as real > lo - 1.0)
  {
  }

  lemma Product(x: real, y: real)
    requires 0.0 <= x && 0.0 <= y
    ensures 0.0 <= x * y
  {
  }

  // ----- the attempts -----

  // What happens outside: whether attempt a succeeds, whether the wait after it is cut short by a
  // cancelled context or a stop, and the random number its delay uses.
  datatype World = World(ok: nat -> bool, cut: nat -> bool, rnd: nat -> real)

  function Retries(o: Options, cfgRetryMax: int): nat {
    var n := if o.retryMax <= 0 then cfgRetryMax else o.retryMax;
    if n < 0 then 0 else n
  }

  predicate CutAfter(o: Options, w: World, a: nat) {
    Delay(o, a, w.rnd(a)) > 0 && w.cut(a)
  }

  datatype Item = Item(id: string, name: string, failed: bool)

  class RunState {
    var running: bool

    constructor ()
      ensures !running
    {
      running := false;
    }
  }

  // One attempt and as many retries as the task asks for, or the configuration where it asks for none.
  function MostAttempts(o: Options, cfgRetryMax: int): nat {
    1 + (if o.retryMax > 0 then o.retryMax else if cfgRetryMax > 0 then cfgRetryMax else 0)
  }

  // The attempts go up to the first that succeeds, the last one allowed, or the first whose wait is cut
  // short: these conditions fix their number and the outcome.
  predicate Attempted(o: Options, cfgRetryMax: int, w: World, attempts: nat, failed: bool) {
    && 1 <= attempts <= MostAttempts(o, cfgRetryMax)
    && (forall a :: 1 <= a < attempts ==> !w.ok(a) && !CutAfter(o, w, a))
    && (!failed <==> w.ok(attempts))
    && (failed ==> attempts == MostAttempts(o, cfgRetryMax) || CutAfter(o, w, attempts))
  }

  lemma AttemptedOnce(o: Options, cfgRetryMax: int, w: World, a: nat, f: bool, b: nat, g: bool)
    requires Attempted(o, cfgRetryMax, w, a, f) && Attempted(o, cfgRetryMax, w, b, g)
    ensures a == b && f == g
  {
    assert a < b ==> !w.ok(a) && !CutAfter(o, w, a);
    assert b < a ==> !w.ok(b) && !CutAfter(o, w, b);
  }

  // The retry loop.
  method Attempt(o: Options, cfgRetryMax: int, w: World) returns (attempts: nat, failed: bool)
    ensures Attempted(o, cfgRetryMax, w, attempts, failed)
  {
    var maxAttempts := 1 + Retries(o, cfgRetryMax);
    attempts, failed := 1, !w.ok(1);
    while failed && attempts < maxAttempts
      invariant 1 <= attempts <= maxAttempts
      invariant failed <==> !w.ok(attempts)
      invariant forall a :: 1 <= a < attempts ==> !w.ok(a) && !CutAfter(o, w, a)
      decreases maxAttempts - attempts
    {
      var delay := BackoffDelay(o, attempts, w.rnd(attempts));
      if delay > 0 && w.cut(attempts) {
        return;
      }
      attempts := attempts + 1;
      failed := !w.ok(attempts);
    }
  }

  // ----- the history -----

  function HistoryCap(size: int): (r: nat)
    ensures if size > 0 then r == size else r == 200
  {
    if size <= 0 then 200 else size
  }

  class Executor {
    var history: seq<Item>

    constructor ()
      ensures history == []
    {
      history := [];
    }

    // execOne: the state is absent for tasks that have no overlap control.
    method ExecOne(id: string, name: string, st: RunState?, o: Options, cfgRetryMax: int, size: int, w: World)
      returns (attempts: nat, failed: bool)
      modifies this, st
      ensures Attempted(o, cfgRetryMax, w, attempts, failed)
      ensures history == Last(old(history) + [Item(id, name, failed)], if size <= 0 then 200 else size)
      ensures st != null ==> !st.running
    {
      if st != null {
        st.running := true;
      }
      attempts, failed := Attempt(o, cfgRetryMax, w);
      history := history + [Item(id, name, failed)];
      if |history| > HistoryCap(size) {
        history := history[|history| - HistoryCap(size)..];
      }
      if st != null {
        st.running := false;
      }
    }
  }

  // The history after a series of executions, each under the size configured at that time.
  function Kept(items: seq<Item>, sizes: seq<int>): seq<Item>
    requires |items| == |sizes|
  {
    if items == [] then []
    else
      var n := |items| - 1;
      Last(Kept(items[..n], sizes[..n]) + [items[n]], HistoryCap(sizes[n]))
  }

  lemma EndStep(items: seq<Item>, k: seq<Item>, cap: nat)
    requires items != [] && cap > 0
    requires |k| < |items| && k == Last(items[..|items| - 1], |k|)
    ensures var r := Last(k + [items[|items| - 1]], cap);
            0 < |r| <= cap && |r| <= |items| && r == Last(items, |r|)
  {
    var n := |items| - 1;
    LastShorter(items[..n], items[n], |k|, cap);
    assert items == items[..n] + [items[n]];
  }

  lemma {:induction false} KeptIsEnd(items: seq<Item>, sizes: seq<int>)
    requires |items| == |sizes|
    ensures var k := Kept(items, sizes);
            && |k| <= |items| && k == Last(items, |k|)
            && (items != [] ==> 0 < |k| <= HistoryCap(sizes[|sizes| - 1]))
  {
    if items != [] {
      var n := |items| - 1;
      KeptIsEnd(items[..n], sizes[..n]);
      EndStep(items, Kept(items[..n], sizes[..n]), HistoryCap(sizes[n]));
    }
  }

  // The history is always made of the most recent executions, in order, at most as many as the
  // size configured last.
  lemma HistoryIsRecent(items: seq<Item>, sizes: seq<int>)
    requires |items| == |sizes|
    ensures var k := Kept(items, sizes);
            && |k| <= |items| && k == items[|items| - |k|..]
            && (items != [] ==> 0 < |k| <= if sizes[|sizes| - 1] > 0 then sizes[|sizes| - 1] else 200)
  {
    KeptIsEnd(items, sizes);
  }

  lemma {:induction false} KeptIsLast(items: seq<Item>, sizes: seq<int>, c: nat)
    requires |items| == |sizes| && c > 0 && forall i :: 0 <= i < |sizes| ==> HistoryCap(sizes[i]) == c
    ensures Kept(items, sizes) == Last(items, c)
  {
    if items != [] {
      var n := |items| - 1;
      KeptIsLast(items[..n], sizes[..n], c);
      LastStep(items, c);
    }
  }

  lemma LastStep(items: seq<Item>, c: nat)
    requires items != [] && c > 0
    ensures Last(Last(items[..|items| - 1], c) + [items[|items| - 1]], c) == Last(items, c)
  {
    var n := |items| - 1;
    LastAppend(items[..n], items[n], c);
    assert items == items[..n] + [items[n]];
  }

  // Under one size throughout it is exactly the last so many executions, 200 where no size is set.
  lemma HistoryIsLast(items: seq<Item>, sizes: seq<int>, c: nat)
    requires |items| == |sizes| && c > 0
    requires forall i :: 0 <= i < |sizes| ==> (if sizes[i] > 0 then sizes[i] == c else c == 200)
    ensures Kept(items, sizes) == if |items| > c then items[|items| - c..] else items
  {
    KeptIsLast(items, sizes, c);
  }
}
