/**
The tick over all units, on the plugin's maps. Units may repeat in the list; each occurrence is one
visit, and together the visits of a unit are what AutoRecover.Run says about it.
*/
module AutoRecoverPlugin {
  import opened Wrappers
  import opened AutoRecover

  type Name = string

  // The visits of one unit among the first k of a tick.
  function Visits(h: History, u: Name, units: seq<Name>, sts: nat -> Status, p: Params, now: int, k: nat): History
    requires k <= |units|
  {
    if k == 0 then h
    else
      var b := Visits(h, u, units, sts, p, now, k - 1);
      if units[k - 1] != u then b
      else History(Tick(b.unit, p, sts(k - 1), now), Outage(b.log, b.unit, p, sts(k - 1), now))
  }

  // What the visits add to the unit's own run.
  function SeenAt(u: Name, units: seq<Name>, sts: nat -> Status, now: int, k: nat): seq<Seen>
    requires k <= |units|
  {
    if k == 0 then []
    else SeenAt(u, units, sts, now, k - 1) + (if units[k - 1] == u then [Seen(sts(k - 1), now)] else [])
  }

  // A tick continues the run of every unit.
  lemma {:induction false} VisitsAreRun(p: Params, before: seq<Seen>, u: Name, units: seq<Name>, sts: nat -> Status,
                                        now: int, k: nat)
    requires k <= |units|
    ensures Visits(Run(p, before), u, units, sts, p, now, k) == Run(p, before + SeenAt(u, units, sts, now, k))
  {
    if k == 0 {
      assert before + [] == before;
    } else {
      VisitsAreRun(p, before, u, units, sts, now, k - 1);
      var seen := SeenAt(u, units, sts, now, k - 1);
      if units[k - 1] == u {
        var all := before + SeenAt(u, units, sts, now, k);
        assert all[|all| - 1] == Seen(sts(k - 1), now) && all[..|all| - 1] == before + seen;
      } else {
        assert SeenAt(u, units, sts, now, k) == seen;
      }
    }
  }

  class Plugin {
    var recoverState: map<Name, Unit>
    var missingWarn: map<Name, bool>
    ghost var logs: map<Name, seq<Failure>>

    constructor ()
      ensures forall u :: View(u) == History(FRESH, [])
    {
      recoverState, missingWarn, logs := map[], map[], map[];
    }

    ghost function View(u: Name): History
      reads this
    {
      History(if u in recoverState then recoverState[u] else FRESH, if u in logs then logs[u] else [])
    }

    method ResetAutoState()
      modifies this
      ensures forall u :: View(u) == History(FRESH, [])
    {
      recoverState, missingWarn, logs := map[], map[], map[];
    }

    method EnsureUnitState(u: Name) returns (us: Unit)
      modifies this`recoverState
      ensures u in recoverState && us == recoverState[u] && us == View(u).unit
      ensures forall v :: View(v) == old(View(v))
    {
      if u !in recoverState {
        recoverState := recoverState[u := FRESH];
      }
      us := recoverState[u];
    }

    method ValidateAllowlistOnce(units: seq<Name>, sts: nat -> Status)
      modifies this
      ensures forall u :: View(u) == if exists i :: 0 <= i < |units| && units[i] == u && sts(i).NotFound?
                                     then old(View(u)).(unit := old(View(u)).unit.(missing := true)) else old(View(u))
    {
      for k := 0 to |units|
        invariant forall u :: View(u) == if exists i :: 0 <= i < k && units[i] == u && sts(i).NotFound?
                                         then old(View(u)).(unit := old(View(u)).unit.(missing := true))
                                             else old(View(u))
      {
        if sts(k).NotFound? {
          var us := EnsureUnitState(units[k]);
          recoverState := recoverState[units[k] := us.(missing := true)];
          missingWarn := missingWarn[units[k] := true];
        }
      }
    }

    // One unit of the loop.
    method Visit(u: Name, st: Status, p: Params, now: int) returns (alerted: bool)
      modifies this
      ensures View(u) == History(Tick(old(View(u)).unit, p, st, now),
                                 Outage(old(View(u)).log, old(View(u)).unit, p, st, now))
      ensures forall v :: v != u ==> View(v) == old(View(v))
      ensures alerted <==> && Attempts(old(View(u)).unit, p, st, now) && !st.restartOk
                           && FailureAt(old(View(u)).unit, p, st, now).alert
    {
      var us := EnsureUnitState(u);
      alerted := false;
      if us.missing || st.Unreadable? {
        return;
      }
      if st.NotFound? {
        recoverState := recoverState[u := us.(missing := true)];
        missingWarn := missingWarn[u := true];
        return;
      }
      if st.Active? {
        recoverState, logs := recoverState[u := FRESH], logs[u := []];
        return;
      }
      if !LongEnough(p, st, now) || !Due(us, now) {
        return;
      }
      if st.restartOk {
        recoverState, logs := recoverState[u := FRESH], logs[u := []];
        return;
      }
      var n := us.failStreak + 1;
      alerted := ShouldAlert(us, p, n, now);
      ghost var f := FailureAt(us, p, st, now);
      logs := logs[u := View(u).log + [f]];
      recoverState := recoverState[u := Unit(false, n, Some(now + JitteredBackoff(p, n, st.jitter)),
                                             if alerted then Some(now) else us.lastAlert)];
    }

    method AutoRecoverTick(units: seq<Name>, sts: nat -> Status, p: Params, now: int)
      modifies this
      ensures forall u :: View(u) == Visits(old(View(u)), u, units, sts, p, now, |units|)
    {
      for k := 0 to |units|
        invariant forall u :: View(u) == Visits(old(View(u)), u, units, sts, p, now, k)
      {
        var _ := Visit(units[k], sts(k), p, now);
      }
    }
  }
}
