/**
Automatic recovery of units: what one tick does to one unit, and what that means over a whole outage.

Times are nanoseconds on an unbounded line, durations are 64-bit. A tick sees an arbitrary status of
the unit, an arbitrary outcome of the restart, and an arbitrary jitter in its range. It reads the
clock once, before its first unit; everything it writes down is in terms of that time, while the
restart itself comes later, after the status reads and restarts of the units before.
*/
module AutoRecover {
  import opened Wrappers
  import opened Int64

  const SECOND: int := 1_000_000_000

  datatype Params = Params(minDown: int, backoffBase: int, backoffMax: int, alertEvery: int, alertStreak: int,
                           jobTimeout: int)

  // The configured durations, None where a duration does not parse.
  datatype Settings = Settings(
    minDown: Option<int>,
    restartTimeout: Option<int>,
    backoffBase: Option<int>,
    backoffMax: Option<int>,
    alertInterval: Option<int>,
    failAlertStreak: int)

  function MustDur(d: Option<int>, def: int): (r: int)
    requires def > 0
    ensures r > 0 && (InRange(def) && (d.Some? ==> InRange(d.value)) ==> InRange(r))
  {
    if d.None? || d.value <= 0 then def else d.value
  }

  // A setting that is there and positive, else the default.
  function Chosen(d: Option<int>, def: int): int {
    match d
    case Some(v) => if 0 < v then v else def
    case None => def
  }

  function JobTimeout(restartTimeout: int, unitCount: int): int {
    var units := if unitCount < 1 then 1 else unitCount;
    var t := Wrap(Wrap(units * restartTimeout) + 15 * SECOND);
    if t < 30 * SECOND then 30 * SECOND else if t > 300 * SECOND then 300 * SECOND else t
  }

  function ParseParams(c: Settings, unitCount: int): (p: Params)
    ensures p.minDown == Chosen(c.minDown, 3_000_000_000)
    ensures p.backoffBase == Chosen(c.backoffBase, 5_000_000_000)
    ensures p.backoffMax == Chosen(c.backoffMax, 300_000_000_000)
    ensures p.alertEvery == Chosen(c.alertInterval, 600_000_000_000)
    ensures p.alertStreak == (if c.failAlertStreak > 0 then c.failAlertStreak else 3)
    ensures p.jobTimeout == JobTimeout(Chosen(c.restartTimeout, 15_000_000_000), unitCount)
    ensures 30_000_000_000 <= p.jobTimeout <= 300_000_000_000
    ensures p.minDown > 0 && p.backoffBase > 0 && p.backoffMax > 0 && p.alertEvery > 0 && p.alertStreak > 0
  {
    Params(MustDur(c.minDown, 3 * SECOND), MustDur(c.backoffBase, 5 * SECOND), MustDur(c.backoffMax, 300 * SECOND),
           MustDur(c.alertInterval, 600 * SECOND), if c.failAlertStreak <= 0 then 3 else c.failAlertStreak,
           JobTimeout(MustDur(c.restartTimeout, 15 * SECOND), unitCount))
  }

  // One restart timeout per unit and 15 seconds more.
  function NeededTime(restartTimeout: int, unitCount: int): int {
    (if unitCount < 1 then 1 else unitCount) * restartTimeout + 15 * SECOND
  }

  function WithinLimits(t: int): int {
    if t < 30 * SECOND then 30 * SECOND else Min(t, 300 * SECOND)
  }

  // The job timeout is the time needed, kept between 30 seconds and 5 minutes, exactly if that time fits
  // in 64 bits or what is left of it in 64 bits still comes to 5 minutes.
  lemma JobTimeoutExact(restartTimeout: int, unitCount: int)
    requires restartTimeout > 0
    ensures var t := NeededTime(restartTimeout, unitCount);
            JobTimeout(restartTimeout, unitCount) == WithinLimits(t)
            <==> t < TWO63 || 300 * SECOND <= t % TWO64 < TWO63
  {
    var units := if unitCount < 1 then 1 else unitCount;
    Positive(units, restartTimeout);
    WrapSum(units * restartTimeout, 15 * SECOND);
    LimitsExact(NeededTime(restartTimeout, unitCount));
  }

  lemma LimitsExact(t: int)
    requires t > 0
    ensures WithinLimits(Wrap(t)) == WithinLimits(t) <==> t < TWO63 || 300 * SECOND <= t % TWO64 < TWO63
  {
    WrapParts(t);
  }

  lemma WrapParts(t: int)
    ensures Wrap(t) == if t % TWO64 < TWO63 then t % TWO64 else t % TWO64 - TWO64
  {
  }

  lemma Positive(x: int, y: int)
    requires x > 0 && y > 0
    ensures x * y > 0
  {
  }

  lemma WrapSum(x: int, y: int)
    ensures Wrap(Wrap(x) + y) == Wrap(x + y)
  {
    var q := (x + TWO63) / TWO64;
    assert Wrap(x) == x - q * TWO64;
    assert Wrap(x) + y + TWO63 == (x + y + TWO63) - q * TWO64;
    ModShift(x + y + TWO63, q);
  }

  lemma ModShift(a: int, q: int)
    ensures (a - q * TWO64) % TWO64 == a % TWO64
  {
  }

  // For every restart timeout some number of units needs more than 64 bits hold and gets 30 seconds.
  lemma JobTimeoutOverflows(restartTimeout: int) returns (unitCount: int)
    requires 0 < restartTimeout < TWO63
    ensures unitCount > 0 && JobTimeout(restartTimeout, unitCount) == 30 * SECOND
    ensures WithinLimits(NeededTime(restartTimeout, unitCount)) == 300 * SECOND
  {
    unitCount := RoundedUp(TWO63 - 15 * SECOND, restartTimeout);
    WrapSum(unitCount * restartTimeout, 15 * SECOND);
    WrapParts(NeededTime(restartTimeout, unitCount));
  }

  lemma RoundedUp(x: int, d: int) returns (n: int)
    requires x > 0 && d > 0
    ensures n > 0 && x <= n * d < x + d
  {
    n := (x + d - 1) / d;
    assert n * d == x + d - 1 - (x + d - 1) % d;
  }

  // ----- the backoff -----

  function Shift(streak: nat): nat {
    if streak <= 1 then 0 else if streak - 1 > 30 then 30 else streak - 1
  }

  // The delay after the given number of failures in a row, as computed in 64 bits.
  function Backoff(base: int, maxD: int, streak: nat): int {
    var b := if streak > 1 then Wrap(base * Pow2(Shift(streak))) else base;
    if b > maxD then maxD else b
  }

  function IdealBackoff(base: int, maxD: int, streak: nat): int {
    Min(base * Pow2(Shift(streak)), maxD)
  }

  lemma {:induction false} Pow2Bound(a: nat, b: nat)
    requires a <= b
    ensures Pow2(a) <= Pow2(b)
    decreases b - a
  {
    if a < b {
      Pow2Bound(a, b - 1);
    }
  }

  lemma Pow2At30()
    ensures Pow2(30) == 0x4000_0000
  {
    assert Pow2(10) == 1024;
    assert Pow2(20) == 1048576;
  }

  // The first doubling of base that leaves 64 bits.
  lemma {:induction false} FirstOverflow(base: int, k: nat) returns (s: nat)
    requires 0 < base < TWO63 && base * Pow2(k) >= TWO63
    ensures 0 < s <= k && TWO63 <= base * Pow2(s) < TWO64
    decreases k
  {
    if k > 0 && base * Pow2(k - 1) >= TWO63 {
      s := FirstOverflow(base, k - 1);
    } else {
      s := k;
      assert Pow2(k) == 2 * Pow2(k - 1);
      assert base * Pow2(k) == 2 * (base * Pow2(k - 1));
    }
  }

  lemma OverflowNegative(x: int)
    requires TWO63 <= x < TWO64
    ensures Wrap(x) < 0
  {
  }

  lemma Scales(base: int, a: int, b: int)
    requires base > 0 && 0 < a <= b
    ensures 0 < base * a <= base * b
  {
  }

  lemma BackoffFits(base: int, maxD: int, streak: nat)
    requires 0 < base < 8 * 0x4000_0000 && 0 < maxD < TWO63
    ensures Backoff(base, maxD, streak) == IdealBackoff(base, maxD, streak)
    ensures 0 < Backoff(base, maxD, streak) <= maxD
  {
    Pow2At30();
    Pow2Bound(Shift(streak), 30);
    Scales(base, Pow2(Shift(streak)), Pow2(30));
    assert base * Pow2(30) < TWO63;
  }

  // For every streak the computed delay is the base doubled once per failure, 30 times at most, and
  // cut at the maximum, exactly if the base is below 2^33 nanoseconds (about 8.6 seconds).
  lemma BackoffExact(base: int, maxD: int)
    requires 0 < base < TWO63 && 0 < maxD < TWO63
    ensures (forall streak: nat :: Backoff(base, maxD, streak) == IdealBackoff(base, maxD, streak))
            <==> base < 8 * 0x4000_0000
  {
    if base < 8 * 0x4000_0000 {
      forall streak: nat ensures Backoff(base, maxD, streak) == IdealBackoff(base, maxD, streak) {
        BackoffFits(base, maxD, streak);
      }
    } else {
      Pow2At30();
      var s := FirstOverflow(base, 30);
      OverflowNegative(base * Pow2(s));
      assert Shift(s + 1) == s;
      assert Backoff(base, maxD, s + 1) != IdealBackoff(base, maxD, s + 1);
    }
  }

  // Below that base the delay never shrinks as the streak grows.
  lemma BackoffMonotone(base: int, maxD: int, a: nat, b: nat)
    requires 0 < base < 8 * 0x4000_0000 && 0 < maxD < TWO63 && a <= b
    ensures Backoff(base, maxD, a) <= Backoff(base, maxD, b)
  {
    BackoffFits(base, maxD, a);
    BackoffFits(base, maxD, b);
    Pow2Bound(Shift(a), Shift(b));
    Scales(base, Pow2(Shift(a)), Pow2(Shift(b)));
  }

  // With no settings at all: 5 seconds, doubled with every failure after the first, 300 seconds at most,
  // after any number of failures.
  lemma DefaultBackoff(c: Settings, unitCount: int, streak: nat)
    requires c.backoffBase == None && c.backoffMax == None
    ensures var p := ParseParams(c, unitCount);
            Backoff(p.backoffBase, p.backoffMax, streak) ==
            if streak <= 1 then 5_000_000_000
            else if streak <= 6 then 5_000_000_000 * Pow2(streak - 1) else 300_000_000_000
  {
    var p := ParseParams(c, unitCount);
    BackoffFits(p.backoffBase, p.backoffMax, streak);
    SmallPowers();
    if streak > 6 {
      Pow2Bound(6, Shift(streak));
    }
  }

  lemma SmallPowers()
    ensures Pow2(0) == 1 && Pow2(1) == 2 && Pow2(2) == 4 && Pow2(3) == 8
    ensures Pow2(4) == 16 && Pow2(5) == 32 && Pow2(6) == 64
  {
  }

  // Ten seconds, five minutes, the 31st failure: the maximum does not catch the negative product.
  lemma TenSecondBase()
    ensures Backoff(10 * SECOND, 300 * SECOND, 31) < 0
  {
    Pow2At30();
  }

  // ----- one unit in one tick -----

  datatype Unit = Unit(missing: bool, failStreak: nat, nextTry: Option<int>, lastAlert: Option<int>)

  const FRESH := Unit(false, 0, None, None)

  // A down unit comes with up to three time stamps, what a restart would do, the jitter drawn, and when
  // the restart would begin and its outcome be known.
  datatype Status =
    | Unreadable
    | NotFound
    | Active
    | Down(inactiveSince: Option<int>, activeExit: Option<int>, stateChange: Option<int>, restartOk: bool, jitter: real,
           begun: int, ended: int)

  function PickDownSince(st: Status): Option<int>
    requires st.Down?
  {
    if st.inactiveSince.Some? then st.inactiveSince
    else if st.activeExit.Some? then st.activeExit
    else st.stateChange
  }

  predicate LongEnough(p: Params, st: Status, now: int)
    requires st.Down?
  {
    var since := PickDownSince(st);
    now - (if since.Some? then since.value else now) >= p.minDown
  }

  predicate Due(u: Unit, now: int) {
    u.nextTry.Some? ==> now >= u.nextTry.value
  }

  // Whether this tick calls for a restart of the unit.
  predicate Attempts(u: Unit, p: Params, st: Status, now: int) {
    !u.missing && st.Down? && LongEnough(p, st, now) && Due(u, now)
  }

  function JitteredBackoff(p: Params, streak: nat, jitter: real): int {
    Truncated(Fraction(Backoff(p.backoffBase, p.backoffMax, streak), jitter))
  }

  predicate ShouldAlert(u: Unit, p: Params, streak: nat, now: int) {
    p.alertStreak > 0 && streak >= p.alertStreak && (u.lastAlert.Some? ==> now - u.lastAlert.value >= p.alertEvery)
  }

  // A restart that failed: the time of its tick, when it began and ended, after how many in a row, the
  // delay set, and whether it was reported.
  datatype Failure = Failure(time: int, begun: int, ended: int, streak: nat, delay: int, alert: bool)

  function FailureAt(u: Unit, p: Params, st: Status, now: int): Failure
    requires st.Down?
  {
    var n := u.failStreak + 1;
    Failure(now, st.begun, st.ended, n, JitteredBackoff(p, n, st.jitter), ShouldAlert(u, p, n, now))
  }

  function Tick(u: Unit, p: Params, st: Status, now: int): Unit {
    if u.missing then u
    else if st.NotFound? then u.(missing := true)
    else if st.Active? then FRESH
    else if !Attempts(u, p, st, now) then u
    else if st.restartOk then FRESH
    else
      var f := FailureAt(u, p, st, now);
      u.(failStreak := f.streak, nextTry := Some(now + f.delay),
         lastAlert := if f.alert then Some(now) else u.lastAlert)
  }

  // The failures of the current outage: a healthy unit or a successful restart ends it.
  function Outage(log: seq<Failure>, u: Unit, p: Params, st: Status, now: int): seq<Failure> {
    if u.missing || st.NotFound? then log
    else if st.Active? then []
    else if !Attempts(u, p, st, now) then log
    else if st.restartOk then []
    else log + [FailureAt(u, p, st, now)]
  }

  // A failure lets every later tick try again at once exactly if the delay it sets is not positive, as a
  // wrapped product makes it (TenSecondBase).
  lemma GatingOff(u: Unit, p: Params, st: Status, now: int)
    requires Attempts(u, p, st, now) && !st.restartOk
    ensures (forall later :: now <= later ==> Due(Tick(u, p, st, now), later))
            <==> FailureAt(u, p, st, now).delay <= 0
  {
    assert Due(Tick(u, p, st, now), now) <==> now >= now + FailureAt(u, p, st, now).delay;
  }

  // ----- whole runs -----

  datatype Seen = Seen(st: Status, now: int)

  datatype History = History(unit: Unit, log: seq<Failure>)

  function Run(p: Params, ticks: seq<Seen>): History {
    if ticks == [] then History(FRESH, [])
    else
      var n := |ticks| - 1;
      var h := Run(p, ticks[..n]);
      History(Tick(h.unit, p, ticks[n].st, ticks[n].now), Outage(h.log, h.unit, p, ticks[n].st, ticks[n].now))
  }

  // The last alert among the first k failures.
  function LastAlert(log: seq<Failure>, k: nat): Option<int>
    requires k <= |log|
  {
    if k == 0 then None else if log[k - 1].alert then Some(log[k - 1].time) else LastAlert(log, k - 1)
  }

  // Failures are counted from 1; each waited for the delay of the one before; each alerts exactly if
  // the alert streak is reached and the last alert, if any, is alertEvery ago.
  predicate FailureOk(p: Params, log: seq<Failure>, i: nat)
    requires i < |log|
  {
    && log[i].streak == i + 1
    && (i > 0 ==> log[i].time >= log[i - 1].time + log[i - 1].delay)
    && (log[i].alert <==> i + 1 >= p.alertStreak &&
                          (LastAlert(log, i).Some? ==> log[i].time - LastAlert(log, i).value >= p.alertEvery))
  }

  ghost predicate Consistent(p: Params, h: History) {
    && h.unit.failStreak == |h.log|
    && h.unit.nextTry == (if h.log == [] then None else Some(h.log[|h.log| - 1].time + h.log[|h.log| - 1].delay))
    && h.unit.lastAlert == LastAlert(h.log, |h.log|)
    && forall i :: 0 <= i < |h.log| ==> FailureOk(p, h.log, i)
  }

  lemma {:induction false} LastAlertPrefix(log: seq<Failure>, f: Failure, k: nat)
    requires k <= |log|
    ensures LastAlert(log + [f], k) == LastAlert(log, k)
  {
    if k > 0 {
      LastAlertPrefix(log, f, k - 1);
    }
  }

  lemma TickConsistent(p: Params, h: History, st: Status, now: int)
    requires p.alertStreak > 0 && Consistent(p, h)
    ensures Consistent(p, History(Tick(h.unit, p, st, now), Outage(h.log, h.unit, p, st, now)))
  {
    var log' := Outage(h.log, h.unit, p, st, now);
    if log' != h.log && log' != [] {
      var f := FailureAt(h.unit, p, st, now);
      forall i | 0 <= i < |log'| ensures FailureOk(p, log', i) {
        LastAlertPrefix(h.log, f, i);
        if i < |h.log| {
          assert FailureOk(p, h.log, i);
        }
      }
      LastAlertPrefix(h.log, f, |h.log|);
    }
  }

  lemma {:induction false} RunConsistent(p: Params, ticks: seq<Seen>)
    requires p.alertStreak > 0
    ensures Consistent(p, Run(p, ticks))
  {
    if ticks != [] {
      var n := |ticks| - 1;
      RunConsistent(p, ticks[..n]);
      TickConsistent(p, Run(p, ticks[..n]), ticks[n].st, ticks[n].now);
    }
  }

  // The ticks of two failures in a row of one outage start at least the jittered backoff apart.
  lemma Separated(p: Params, ticks: seq<Seen>, i: nat)
    requires p.alertStreak > 0 && i + 1 < |Run(p, ticks).log|
    ensures var log := Run(p, ticks).log; log[i + 1].time - log[i].time >= log[i].delay
  {
    RunConsistent(p, ticks);
    assert FailureOk(p, Run(p, ticks).log, i + 1);
  }

  // The unit was down for minDown by one of the time stamps of its status.
  predicate LongDown(p: Params, seen: Seen) {
    seen.st.Down? && PickDownSince(seen.st).Some? && seen.now - PickDownSince(seen.st).value >= p.minDown
  }

  // In every run a failure comes from a tick that saw the unit down for minDown: without a time stamp, or
  // before that, no restart is tried.
  lemma {:induction false} AttemptsOnlyLongDown(p: Params, ticks: seq<Seen>, i: nat)
    requires p.minDown > 0 && i < |Run(p, ticks).log|
    ensures exists k :: 0 <= k < |ticks| && ticks[k].now == Run(p, ticks).log[i].time && LongDown(p, ticks[k])
  {
    var n := |ticks| - 1;
    var before, h := ticks[..n], Run(p, ticks[..n]);
    if i < |h.log| {
      AttemptsOnlyLongDown(p, before, i);
      var k :| 0 <= k < n && before[k].now == h.log[i].time && LongDown(p, before[k]);
      assert ticks[k] == before[k];
    } else {
      assert LongDown(p, ticks[n]);
    }
  }

  // ----- which ticks try a restart -----

  // Some tick found that there is no such unit; from then on it is left alone.
  predicate FoundMissing(ticks: seq<Seen>) {
    exists k :: 0 <= k < |ticks| && ticks[k].st.NotFound?
  }

  lemma FoundMissingMore(ticks: seq<Seen>, seen: Seen)
    ensures FoundMissing(ticks + [seen]) <==> FoundMissing(ticks) || seen.st.NotFound?
  {
    var all := ticks + [seen];
    assert forall k :: 0 <= k < |ticks| ==> all[k] == ticks[k];
    assert all[|ticks|] == seen;
    if FoundMissing(ticks) {
      var k :| 0 <= k < |ticks| && ticks[k].st.NotFound?;
      assert all[k].st.NotFound?;
    }
  }

  lemma {:induction false} MissingExactly(p: Params, ticks: seq<Seen>)
    ensures Run(p, ticks).unit.missing <==> FoundMissing(ticks)
  {
    if ticks != [] {
      var n := |ticks| - 1;
      MissingExactly(p, ticks[..n]);
      FoundMissingMore(ticks[..n], ticks[n]);
      assert ticks == ticks[..n] + [ticks[n]];
    }
  }

  // The earliest restart after the failures of an outage.
  predicate Waited(log: seq<Failure>, now: int) {
    log == [] || now >= log[|log| - 1].time + log[|log| - 1].delay
  }

  // The time stamp that counts: when the unit became inactive, or else left the active state, or else
  // changed its state.
  predicate DownFor(seen: Seen, d: int) {
    && seen.st.Down?
    && match (seen.st.inactiveSince, seen.st.activeExit, seen.st.stateChange)
       case (Some(t), _, _) => seen.now - t >= d
       case (None, Some(t), _) => seen.now - t >= d
       case (None, None, Some(t)) => seen.now - t >= d
       case (None, None, None) => false
  }

  predicate Tries(p: Params, ticks: seq<Seen>, seen: Seen) {
    !FoundMissing(ticks) && DownFor(seen, p.minDown) && Waited(Run(p, ticks).log, seen.now)
  }

  // In every run the next tick tries a restart exactly if the unit was never found missing, has been down
  // for minDown, and the delay of the last failure is over. A restart that fails is one more failure of the
  // outage; a restart that succeeds, and a unit seen active, end it; nothing else changes it.
  lemma OutageExactly(p: Params, ticks: seq<Seen>, seen: Seen)
    requires p.alertStreak > 0 && p.minDown > 0
    ensures var log, log' := Run(p, ticks).log, Run(p, ticks + [seen]).log;
            if Tries(p, ticks, seen) && !seen.st.restartOk
            then |log'| == |log| + 1 && log'[..|log|] == log && log'[|log|].time == seen.now
            else if Tries(p, ticks, seen) || (seen.st.Active? && !FoundMissing(ticks)) then log' == []
            else log' == log
  {
    var all := ticks + [seen];
    assert all[..|all| - 1] == ticks;
    MissingExactly(p, ticks);
    RunConsistent(p, ticks);
  }

  // ----- the restarts' own times -----

  // A restart begins after its tick did, and after the restarts before it ended.
  predicate Timely(ticks: seq<Seen>) {
    && (forall k :: 0 <= k < |ticks| && ticks[k].st.Down? ==> ticks[k].now <= ticks[k].st.begun <= ticks[k].st.ended)
    && (forall j, k :: 0 <= j < k < |ticks| && ticks[j].st.Down? && ticks[k].st.Down? ==>
          ticks[j].st.ended <= ticks[k].st.begun)
  }

  predicate FromTick(ticks: seq<Seen>, f: Failure) {
    exists k :: && 0 <= k < |ticks| && ticks[k].st.Down?
                && f.time == ticks[k].now && f.begun == ticks[k].st.begun && f.ended == ticks[k].st.ended
  }

  predicate LogTimely(ticks: seq<Seen>, log: seq<Failure>) {
    && (forall i :: 0 <= i < |log| ==> FromTick(ticks, log[i]))
    && (forall i :: 0 <= i < |log| - 1 ==> log[i].ended <= log[i + 1].begun)
  }

  lemma {:induction false} RunTimely(p: Params, ticks: seq<Seen>)
    requires Timely(ticks)
    ensures LogTimely(ticks, Run(p, ticks).log)
  {
    if ticks != [] {
      var n := |ticks| - 1;
      var before, log := ticks[..n], Run(p, ticks[..n]).log;
      RunTimely(p, before);
      assert forall k :: 0 <= k < n ==> ticks[k] == before[k];
      forall f | FromTick(before, f) ensures FromTick(ticks, f) {
        var k :| && 0 <= k < n && before[k].st.Down? && f.time == before[k].now && f.begun == before[k].st.begun
                 && f.ended == before[k].st.ended;
        assert ticks[k].st.Down?;
      }
      LogGrows(p, ticks, log);
    }
  }

  lemma LogGrows(p: Params, ticks: seq<Seen>, log: seq<Failure>)
    requires ticks != [] && Timely(ticks) && log == Run(p, ticks[..|ticks| - 1]).log
    requires LogTimely(ticks[..|ticks| - 1], log)
    requires forall i :: 0 <= i < |log| ==> FromTick(ticks, log[i])
    ensures LogTimely(ticks, Run(p, ticks).log)
  {
    var n := |ticks| - 1;
    var h, st, now := Run(p, ticks[..n]), ticks[n].st, ticks[n].now;
    if st.Down? && Run(p, ticks).log != [] && Run(p, ticks).log != log {
      var f := FailureAt(h.unit, p, st, now);
      assert FromTick(ticks, f);
      if log != [] {
        assert FromTick(ticks[..n], log[|log| - 1]);
      }
    }
  }

  // The restarts themselves are only apart what is left of the backoff after the lag of the first one
  // behind its tick, or nothing.
  lemma AttemptsApart(p: Params, ticks: seq<Seen>, i: nat)
    requires p.alertStreak > 0 && Timely(ticks) && i + 1 < |Run(p, ticks).log|
    ensures var f, g := Run(p, ticks).log[i], Run(p, ticks).log[i + 1];
            && g.begun - f.ended >= Max(0, f.delay - (f.ended - f.time))
            && g.begun - f.begun >= f.delay - (f.begun - f.time)
  {
    Separated(p, ticks, i);
    RunTimely(p, ticks);
    var log := Run(p, ticks).log;
    assert FromTick(ticks, log[i]) && FromTick(ticks, log[i + 1]);
  }

  // A unit down for long enough whose restart fails: at the given tick, with the given lag behind it.
  function FailedAt(p: Params, now: int, lag: nat, jitter: real): Seen {
    Seen(Down(Some(now - p.minDown), None, None, false, jitter, now + lag, now + lag), now)
  }

  lemma RunOfTwo(p: Params, a: Seen, b: Seen)
    ensures var u := Tick(FRESH, p, a.st, a.now);
            Run(p, [a, b]) == History(Tick(u, p, b.st, b.now),
                                      Outage(Outage([], FRESH, p, a.st, a.now), u, p, b.st, b.now))
  {
    assert [a, b][..1] == [a] && [a][..0] == [];
    assert Run(p, [a]) == History(Tick(FRESH, p, a.st, a.now), Outage([], FRESH, p, a.st, a.now));
  }

  lemma TwoFailures(p: Params, lag: nat, jitter: real, later: nat)
    requires later >= JitteredBackoff(p, 1, jitter) && later >= lag
    ensures var ticks := [FailedAt(p, 0, lag, jitter), FailedAt(p, later, 0, jitter)];
            var f := FailureAt(FRESH, p, ticks[0].st, 0);
            && Timely(ticks)
            && Run(p, ticks).log == [f, FailureAt(Tick(FRESH, p, ticks[0].st, 0), p, ticks[1].st, later)]
  {
    RunOfTwo(p, FailedAt(p, 0, lag, jitter), FailedAt(p, later, 0, jitter));
  }

  // For any lag that bound is reached; from a lag of the whole delay on, the second restart follows the
  // first at once.
  lemma AttemptsClose(p: Params, lag: nat, jitter: real)
    ensures exists ticks :: && Timely(ticks) && |Run(p, ticks).log| == 2
                            && var f, g := Run(p, ticks).log[0], Run(p, ticks).log[1];
                               && f.delay == JitteredBackoff(p, 1, jitter) && f.begun - f.time == lag
                               && g.begun - f.begun == Max(0, f.delay - lag)
  {
    var later := Max(lag, JitteredBackoff(p, 1, jitter));
    var ticks := [FailedAt(p, 0, lag, jitter), FailedAt(p, later, 0, jitter)];
    TwoFailures(p, lag, jitter, later);
    assert Timely(ticks) && |Run(p, ticks).log| == 2;
  }

  // ----- the delays -----

  // The program draws its jitter between 0.7 and 1.3.
  predicate JitterInRange(st: Status, lo: real, hi: real) {
    st.Down? ==> lo <= st.jitter < hi
  }

  // Between the given fractions of a delay, cut to whole nanoseconds.
  predicate WithinJitter(delay: int, b: int, lo: real, hi: real) {
    Fraction(b, lo) - 1.0 < delay as real < Fraction(b, hi)
  }

  lemma JitteredNear(b: int, jitter: real, lo: real, hi: real)
    requires b > 0 && 0.0 < lo <= jitter < hi
    ensures WithinJitter(Truncated(Fraction(b, jitter)), b, lo, hi)
  {
    FractionOrder(b, lo, jitter);
    FractionOrder(b, jitter, hi);
  }

  lemma FailureNear(u: Unit, p: Params, st: Status, now: int, lo: real, hi: real)
    requires 0 < p.backoffBase < 8 * 0x4000_0000 && 0 < p.backoffMax < TWO63
    requires st.Down? && JitterInRange(st, lo, hi) && 0.0 < lo
    ensures DelayOk(p, FailureAt(u, p, st, now), lo, hi)
  {
    BackoffFits(p.backoffBase, p.backoffMax, u.failStreak + 1);
    JitteredNear(Backoff(p.backoffBase, p.backoffMax, u.failStreak + 1), st.jitter, lo, hi);
  }

  predicate DelayOk(p: Params, f: Failure, lo: real, hi: real) {
    WithinJitter(f.delay, IdealBackoff(p.backoffBase, p.backoffMax, f.streak), lo, hi)
  }

  // For a base below 2^33 nanoseconds every failure in every run sets a delay within the jitter's range
  // of the ideal backoff of its streak.
  lemma {:induction false} DelaysNearIdeal(p: Params, ticks: seq<Seen>, lo: real, hi: real, i: nat)
    requires p.alertStreak > 0 && 0 < p.backoffBase < 8 * 0x4000_0000 && 0 < p.backoffMax < TWO63
    requires 0.0 < lo && forall k :: 0 <= k < |ticks| ==> JitterInRange(ticks[k].st, lo, hi)
    requires i < |Run(p, ticks).log|
    ensures DelayOk(p, Run(p, ticks).log[i], lo, hi)
  {
    if ticks != [] {
      var n := |ticks| - 1;
      var h, st := Run(p, ticks[..n]), ticks[n].st;
      if i < |h.log| {
        DelaysNearIdeal(p, ticks[..n], lo, hi, i);
      } else {
        assert JitterInRange(st, lo, hi);
        FailureNear(h.unit, p, st, ticks[n].now, lo, hi);
      }
    }
  }

  lemma {:induction false} NoAlertBelow(p: Params, log: seq<Failure>, k: nat)
    requires k <= |log| && k < p.alertStreak && forall i :: 0 <= i < |log| ==> FailureOk(p, log, i)
    ensures LastAlert(log, k) == None
  {
    if k > 0 {
      assert FailureOk(p, log, k - 1);
      NoAlertBelow(p, log, k - 1);
    }
  }

  // In every run the first alert of an outage comes with exactly the failure that reaches the alert streak.
  lemma FirstAlert(p: Params, ticks: seq<Seen>, i: nat)
    requires p.alertStreak > 0 && i < |Run(p, ticks).log| && i < p.alertStreak
    ensures Run(p, ticks).log[i].alert <==> i + 1 == p.alertStreak
  {
    RunConsistent(p, ticks);
    var log := Run(p, ticks).log;
    assert FailureOk(p, log, i);
    NoAlertBelow(p, log, i);
  }

  lemma {:induction false} LastAlertAfter(p: Params, log: seq<Failure>, i: nat, k: nat)
    requires i < k <= |log| && log[i].alert && p.alertEvery > 0 && forall j :: 0 <= j < |log| ==> FailureOk(p, log, j)
    ensures LastAlert(log, k).Some? && LastAlert(log, k).value >= log[i].time
    decreases k
  {
    if k - 1 > i {
      LastAlertAfter(p, log, i, k - 1);
      assert FailureOk(p, log, k - 1);
    }
  }

  // In every run the ticks of any two alerts of an outage start at least alertEvery apart.
  lemma AlertSpacing(p: Params, ticks: seq<Seen>, i: nat, j: nat)
    requires p.alertStreak > 0 && p.alertEvery > 0 && i < j < |Run(p, ticks).log|
    requires Run(p, ticks).log[i].alert && Run(p, ticks).log[j].alert
    ensures Run(p, ticks).log[j].time - Run(p, ticks).log[i].time >= p.alertEvery
  {
    RunConsistent(p, ticks);
    var log := Run(p, ticks).log;
    assert FailureOk(p, log, j);
    LastAlertAfter(p, log, i, j);
  }

  // An alert goes out when its restart has failed, so the alerts themselves may be closer by the lag of
  // the first one, and no more.
  lemma AlertsApart(p: Params, ticks: seq<Seen>, i: nat, j: nat)
    requires p.alertStreak > 0 && p.alertEvery > 0 && Timely(ticks) && i < j < |Run(p, ticks).log|
    requires Run(p, ticks).log[i].alert && Run(p, ticks).log[j].alert
    ensures var f, g := Run(p, ticks).log[i], Run(p, ticks).log[j];
            g.ended - f.ended >= p.alertEvery - (f.ended - f.time)
  {
    AlertSpacing(p, ticks, i, j);
    RunTimely(p, ticks);
    assert FromTick(ticks, Run(p, ticks).log[i]) && FromTick(ticks, Run(p, ticks).log[j]);
  }

  // That bound is reached, here by the first two failures of an outage.
  lemma AlertsClose(p: Params, lag: nat, jitter: real)
    requires p.alertStreak == 1 && p.alertEvery >= lag && p.alertEvery >= JitteredBackoff(p, 1, jitter)
    ensures exists ticks :: && Timely(ticks) && |Run(p, ticks).log| == 2
                            && var f, g := Run(p, ticks).log[0], Run(p, ticks).log[1];
                               && f.alert && g.alert && f.ended - f.time == lag
                               && g.ended - f.ended == p.alertEvery - lag
  {
    var ticks := [FailedAt(p, 0, lag, jitter), FailedAt(p, p.alertEvery, 0, jitter)];
    TwoFailures(p, lag, jitter, p.alertEvery);
    assert Timely(ticks) && |Run(p, ticks).log| == 2;
  }
}
