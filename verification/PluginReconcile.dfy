/**
The plugin manager's reconciliation, plugin by plugin.

Plug gathers what the manager's maps say about one plugin, and, beside that, which contexts were
created and cancelled for it and which calls were made to it. A context is named by the reconcile
call that made it. What a plugin answers is arbitrary.
*/
module PluginReconcile {
  import opened Wrappers

  type Name = string

  datatype Quarantine = Quarantine(hash: nat, err: nat, since: nat, count: nat)

  datatype Call = InitCall | ValidateCall | ConfigCall | StartCall | StopCall

  datatype Trace = Trace(created: set<nat>, cancelled: set<nat>, calls: seq<Call>)

  datatype Plug = Plug(
    run: bool,
    ctx: Option<nat>,
    cancel: Option<nat>,
    hash: Option<nat>,
    quarantine: Option<Quarantine>,
    trace: Trace)

  // Which optional interfaces a plugin implements.
  datatype Kind = Kind(configurable: bool, validates: bool)

  // What the configuration says about a plugin: its hash and what is wrong with its timeouts, if anything.
  datatype Want = Want(enabled: bool, hash: nat, timeoutsErr: Option<nat>)

  // What the plugin's calls answer, and the time a quarantine would begin.
  datatype Outcome = Outcome(initOk: bool, validateErr: Option<nat>, configErr: Option<nat>, startOk: bool, now: nat)

  // The number of the reconcile call, and whether the global settings changed before it.
  datatype Moment = Moment(round: nat, globalChanged: bool)

  // ----- the steps -----

  function Called(p: Plug, c: Call): Plug {
    p.(trace := p.trace.(calls := p.trace.calls + [c]))
  }

  function Cancelled(p: Plug, c: nat): Plug {
    p.(trace := p.trace.(cancelled := p.trace.cancelled + {c}))
  }

  function Created(p: Plug, c: nat): Plug {
    p.(trace := p.trace.(created := p.trace.created + {c}))
  }

  predicate IsQuarantined(p: Plug, hash: nat) {
    p.quarantine.Some? && p.quarantine.value.hash == hash
  }

  function ClearQuarantine(p: Plug, hash: nat): Plug {
    if p.quarantine.Some? && p.quarantine.value.hash != hash then p.(quarantine := None) else p
  }

  function SetQuarantine(p: Plug, hash: nat, err: nat, now: nat): Plug {
    if p.quarantine.Some? && p.quarantine.value.hash == hash && p.quarantine.value.err == err
    then p.(quarantine := Some(p.quarantine.value.(count := p.quarantine.value.count + 1)))
    else p.(quarantine := Some(Quarantine(hash, err, now, if p.quarantine.Some?
        then p.quarantine.value.count + 1 else 1)))
  }

  datatype Reason = Reason(hash: nat, err: nat, now: nat)

  function SetAll(p: Plug, reasons: seq<Reason>): Plug {
    if reasons == [] then p
    else
      var r := reasons[|reasons| - 1];
      SetQuarantine(SetAll(p, reasons[..|reasons| - 1]), r.hash, r.err, r.now)
  }

  // The first of the reasons at the end that are all the same as the last one.
  function SinceFirst(reasons: seq<Reason>): (i: nat)
    requires reasons != []
    ensures i < |reasons|
    ensures forall j :: i <= j < |reasons| ==> SameReason(reasons[j], reasons[|reasons| - 1])
    ensures i > 0 ==> !SameReason(reasons[i - 1], reasons[|reasons| - 1])
  {
    var n := |reasons| - 1;
    if n > 0 && SameReason(reasons[n - 1], reasons[n]) then SinceFirst(reasons[..n]) else n
  }

  predicate SameReason(a: Reason, b: Reason) {
    a.hash == b.hash && a.err == b.err
  }

  // A quarantine shows the last reason given, the moment at which that reason was first given without
  // another in between, and how many reasons were given since there was no quarantine.
  lemma {:induction false} QuarantineTells(p: Plug, reasons: seq<Reason>)
    requires p.quarantine.None? && reasons != []
    ensures var last := reasons[|reasons| - 1];
            SetAll(p, reasons) ==
            p.(quarantine := Some(Quarantine(last.hash, last.err, reasons[SinceFirst(reasons)].now, |reasons|)))
  {
    var n := |reasons| - 1;
    if n > 0 {
      QuarantineTells(p, reasons[..n]);
    } else {
      assert SetAll(p, reasons[..n]) == p;
    }
  }

  // stopOne for a registered plugin
  function Stopped(p: Plug): Plug {
    if !p.run then p
    else
      var q := if p.cancel.Some? then Cancelled(p, p.cancel.value) else p;
      Called(q, StopCall).(run := false, ctx := None, cancel := None, hash := None)
  }

  // Start, after Init and the configuration went well.
  function Started(p: Plug, w: Want, o: Outcome, m: Moment): Plug {
    var q := Called(p, StartCall);
    if o.startOk
    then q.(run := true, ctx := Some(m.round), cancel := Some(m.round), hash := Some(w.hash), quarantine := None)
    else Cancelled(q, m.round)
  }

  function Configured(p: Plug, k: Kind, w: Want, o: Outcome, m: Moment): Plug {
    if !k.configurable then Started(p, w, o, m)
    else
      var q := Called(p, ConfigCall);
      if o.configErr.Some?
      then Cancelled(SetQuarantine(q, w.hash, o.configErr.value, o.now), m.round)
      else Started(q, w, o, m)
  }

  function Validated(p: Plug, k: Kind, w: Want, o: Outcome, m: Moment): Plug {
    if !k.validates then Configured(p, k, w, o, m)
    else
      var q := Called(p, ValidateCall);
      if o.validateErr.Some?
      then Cancelled(SetQuarantine(q, w.hash, o.validateErr.value, o.now), m.round)
      else Configured(q, k, w, o, m)
  }

  // enabled && !run
  function Enable(p: Plug, k: Kind, w: Want, o: Outcome, m: Moment): Plug {
    var q := ClearQuarantine(p, w.hash);
    if IsQuarantined(q, w.hash) then q
    else if w.timeoutsErr.Some? then SetQuarantine(q, w.hash, w.timeoutsErr.value, o.now)
    else
      var r := Called(Created(q, m.round), InitCall);
      if !o.initOk then Cancelled(r, m.round) else Validated(r, k, w, o, m)
  }

  // enabled && run
  function Reapply(p: Plug, k: Kind, w: Want, o: Outcome, m: Moment): Plug {
    if !k.configurable || (p.hash == Some(w.hash) && !m.globalChanged) then p
    else if p.hash != Some(w.hash) && w.timeoutsErr.Some?
    then Stopped(SetQuarantine(p, w.hash, w.timeoutsErr.value, o.now))
    else
      var q := Called(p, ConfigCall);
      if o.configErr.Some? then Stopped(SetQuarantine(q, w.hash, o.configErr.value, o.now))
      else q.(hash := Some(w.hash), quarantine := None)
  }

  // One operation of reconcile.
  function After(p: Plug, k: Kind, w: Want, o: Outcome, m: Moment): Plug {
    if w.enabled && !p.run then Enable(p, k, w, o, m)
    else if !w.enabled && p.run then Stopped(p)
    else if w.enabled && p.run then Reapply(p, k, w, o, m)
    else p
  }

  // ----- the invariant of one plugin -----

  // The maps agree on whether the plugin runs; every context made for it is the stored one or
  // cancelled, never both; a running plugin is not quarantined, and no quarantine was ever repeated.
  predicate Ok(p: Plug, round: nat) {
    && p.run == p.ctx.Some? == p.cancel.Some? == p.hash.Some?
    && p.ctx == p.cancel
    && (p.run ==> p.quarantine.None?)
    && (p.quarantine.Some? ==> p.quarantine.value.count == 1)
    && p.trace.created == p.trace.cancelled + (if p.run then {p.ctx.value} else {})
    && (p.run ==> p.ctx.value !in p.trace.cancelled)
    && (forall c :: c in p.trace.created ==> c < round)
  }

  lemma EnableOk(p: Plug, k: Kind, w: Want, o: Outcome, m: Moment)
    requires Ok(p, m.round) && !p.run
    ensures Ok(Enable(p, k, w, o, m), m.round + 1)
  {
  }

  lemma ReapplyOk(p: Plug, k: Kind, w: Want, o: Outcome, m: Moment)
    requires Ok(p, m.round) && p.run
    ensures Ok(Reapply(p, k, w, o, m), m.round + 1)
  {
  }

  lemma AfterOk(p: Plug, k: Kind, w: Want, o: Outcome, m: Moment)
    requires Ok(p, m.round)
    ensures Ok(After(p, k, w, o, m), m.round + 1)
  {
    if w.enabled && !p.run {
      EnableOk(p, k, w, o, m);
    } else if w.enabled {
      ReapplyOk(p, k, w, o, m);
    } else {
      StoppedOk(p, m.round);
    }
  }

  lemma StoppedOk(p: Plug, round: nat)
    requires Ok(p, round)
    ensures Ok(Stopped(p), round) && !Stopped(p).run
  {
  }

  // This call tried to start the plugin and Init or Start failed.
  predicate FailedNow(p: Plug, k: Kind, w: Want, o: Outcome) {
    && w.enabled && !p.run && !IsQuarantined(p, w.hash) && w.timeoutsErr.None?
    && (!o.initOk ||
        ((k.validates ==> o.validateErr.None?) && (k.configurable ==> o.configErr.None?) && !o.startOk))
  }

  // After reconcile a running plugin is enabled, and an enabled one that does not run is quarantined
  // at the current configuration or failed Init or Start just now - never both.
  lemma AfterSettles(p: Plug, k: Kind, w: Want, o: Outcome, m: Moment)
    requires Ok(p, m.round)
    ensures var q := After(p, k, w, o, m);
            && (q.run ==> w.enabled)
            && (w.enabled ==> (!q.run <==> IsQuarantined(q, w.hash) || FailedNow(p, k, w, o)))
            && !(IsQuarantined(q, w.hash) && FailedNow(p, k, w, o))
            && (q.run && k.configurable ==> q.hash == Some(w.hash))
            && (!w.enabled ==> q.quarantine == p.quarantine)
  {
  }

  // Reconciling the same configuration again, whatever the plugin would answer, leaves the plugin
  // exactly as it is and calls nothing, unless Init or Start had failed; then Init is called again.
  lemma AfterTwice(p: Plug, k: Kind, w: Want, o: Outcome, m: Moment, o2: Outcome, m2: Moment)
    requires Ok(p, m.round) && !m2.globalChanged
    ensures var q := After(p, k, w, o, m);
            && (After(q, k, w, o2, m2).trace.calls == q.trace.calls <==> !FailedNow(p, k, w, o))
            && (!FailedNow(p, k, w, o) ==> After(q, k, w, o2, m2) == q)
            && (FailedNow(p, k, w, o) ==> q.trace.calls + [InitCall] <= After(q, k, w, o2, m2).trace.calls)
  {
    var q := After(p, k, w, o, m);
    if FailedNow(p, k, w, o) {
      FailedRetries(p, k, w, o, m, o2, m2);
    }
  }

  lemma FailedRetries(p: Plug, k: Kind, w: Want, o: Outcome, m: Moment, o2: Outcome, m2: Moment)
    requires FailedNow(p, k, w, o)
    ensures var q := After(p, k, w, o, m);
            !q.run && !IsQuarantined(q, w.hash) && q.trace.calls + [InitCall] <= After(q, k, w, o2, m2).trace.calls
  {
    var q := After(p, k, w, o, m);
    StartCalls(Called(Created(ClearQuarantine(q, w.hash), m2.round), InitCall), k, w, o2, m2);
  }

  lemma StartCalls(p: Plug, k: Kind, w: Want, o: Outcome, m: Moment)
    ensures p.trace.calls <= Validated(p, k, w, o, m).trace.calls
  {
  }

  // ----- what a step does, told by its outcome -----

  // How one operation ends for a plugin.
  datatype Verdict =
    | LeftAlone                   // nothing to do, quarantined, or neither enabled nor running
    | Disabled                    // stopped because it is not enabled
    | BadTimeouts(err: nat)       // quarantined without a call, and stopped if it was running
    | InitFailed
    | Invalid(err: nat)           // quarantined after ValidateConfig
    | Refused(err: nat)           // quarantined after OnConfigChange, and stopped if it was running
    | StartFailed
    | CameUp
    | Reconfigured

  // The plugin has been running with exactly this configuration.
  predicate SameConfig(p: Plug, w: Want) {
    p.hash == Some(w.hash)
  }

  predicate HeldBack(p: Plug, w: Want) {
    p.quarantine.Some? && p.quarantine.value.hash == w.hash
  }

  ghost predicate Ends(p: Plug, k: Kind, w: Want, o: Outcome, m: Moment, v: Verdict) {
    match v
    case LeftAlone =>
      || (!w.enabled && !p.run)
      || (w.enabled && !p.run && HeldBack(p, w))
      || (w.enabled && p.run && (!k.configurable || (SameConfig(p, w) && !m.globalChanged)))
    case Disabled => !w.enabled && p.run
    case BadTimeouts(err) =>
      && w.enabled && w.timeoutsErr == Some(err)
      && (if p.run then k.configurable && !SameConfig(p, w) else !HeldBack(p, w))
    case InitFailed => Tries(p, w) && !o.initOk
    case Invalid(err) => Tries(p, w) && o.initOk && k.validates && o.validateErr == Some(err)
    case Refused(err) =>
      && k.configurable && o.configErr == Some(err)
      && (PassesOn(p, k, w, m) || (Tries(p, w) && o.initOk && (k.validates ==> o.validateErr == None)))
    case StartFailed => ReadyToStart(p, k, w, o) && !o.startOk
    case CameUp => ReadyToStart(p, k, w, o) && o.startOk
    case Reconfigured => PassesOn(p, k, w, m) && o.configErr == None
  }

  // An enabled plugin that is not running is tried unless it is held back or its timeouts are wrong.
  predicate Tries(p: Plug, w: Want) {
    w.enabled && !p.run && !HeldBack(p, w) && w.timeoutsErr == None
  }

  predicate ReadyToStart(p: Plug, k: Kind, w: Want, o: Outcome) {
    && Tries(p, w) && o.initOk
    && (k.validates ==> o.validateErr == None) && (k.configurable ==> o.configErr == None)
  }

  // A running plugin is handed the configuration if that is another one with good timeouts, or the same one
  // and the global settings changed.
  predicate PassesOn(p: Plug, k: Kind, w: Want, m: Moment) {
    && w.enabled && p.run && k.configurable
    && (if SameConfig(p, w) then m.globalChanged else w.timeoutsErr == None)
  }

  // The calls of each ending, in order.
  function CallsOf(p: Plug, k: Kind, v: Verdict): seq<Call> {
    match v
    case LeftAlone => []
    case Disabled => [StopCall]
    case BadTimeouts(_) => if p.run then [StopCall] else []
    case InitFailed => [InitCall]
    case Invalid(_) => [InitCall, ValidateCall]
    case Refused(_) => if p.run then [ConfigCall, StopCall] else [InitCall] + Checks(k)
    case StartFailed => [InitCall] + Checks(k) + [StartCall]
    case CameUp => [InitCall] + Checks(k) + [StartCall]
    case Reconfigured => [ConfigCall]
  }

  function Checks(k: Kind): seq<Call> {
    (if k.validates then [ValidateCall] else []) + (if k.configurable then [ConfigCall] else [])
  }

  // What each ending leaves: whether the plugin runs and with which configuration, and its quarantine.
  ghost predicate Leaves(p: Plug, w: Want, o: Outcome, v: Verdict, q: Plug) {
    match v
    case LeftAlone => q.run == p.run && q.hash == p.hash && q.quarantine == p.quarantine
    case Disabled => !q.run && q.quarantine == p.quarantine
    case BadTimeouts(err) => !q.run && HeldFor(p, w, o, err, q)
    case InitFailed => !q.run && q.quarantine == None
    case Invalid(err) => !q.run && HeldFor(p, w, o, err, q)
    case Refused(err) => !q.run && HeldFor(p, w, o, err, q)
    case StartFailed => !q.run && q.quarantine == None
    case CameUp => q.run && q.hash == Some(w.hash) && q.quarantine == None
    case Reconfigured => q.run && q.hash == Some(w.hash) && q.quarantine == None
  }

  // Quarantined at this configuration for this error, from this moment on.
  predicate HeldFor(p: Plug, w: Want, o: Outcome, err: nat, q: Plug) {
    q.quarantine == Some(Quarantine(w.hash, err, o.now, 1))
  }

  ghost predicate Fits(p: Plug, k: Kind, w: Want, o: Outcome, m: Moment, v: Verdict, q: Plug) {
    && q.trace.calls == p.trace.calls + CallsOf(p, k, v) && Leaves(p, w, o, v, q)
    && (v.LeftAlone? ==> q == p)
    && (v.Reconfigured? ==> q.ctx == p.ctx && q.trace.created == p.trace.created)
    && (v.CameUp? ==> q.ctx == Some(m.round) && m.round in q.trace.created)
  }

  lemma EnableFits(p: Plug, k: Kind, w: Want, o: Outcome, m: Moment, v: Verdict)
    requires Ok(p, m.round) && w.enabled && !p.run && Ends(p, k, w, o, m, v)
    ensures Fits(p, k, w, o, m, v, Enable(p, k, w, o, m))
  {
  }

  lemma ReapplyFits(p: Plug, k: Kind, w: Want, o: Outcome, m: Moment, v: Verdict)
    requires Ok(p, m.round) && w.enabled && p.run && Ends(p, k, w, o, m, v)
    ensures Fits(p, k, w, o, m, v, Reapply(p, k, w, o, m))
  {
  }

  // Every operation ends in exactly one of these ways, and this says which calls it made in which order and
  // what it left.
  lemma AfterFits(p: Plug, k: Kind, w: Want, o: Outcome, m: Moment, v: Verdict)
    requires Ok(p, m.round) && Ends(p, k, w, o, m, v)
    ensures Fits(p, k, w, o, m, v, After(p, k, w, o, m))
  {
    if w.enabled && !p.run {
      EnableFits(p, k, w, o, m, v);
    } else if w.enabled {
      ReapplyFits(p, k, w, o, m, v);
    }
  }

  lemma OneEnding(p: Plug, k: Kind, w: Want, o: Outcome, m: Moment) returns (v: Verdict)
    ensures Ends(p, k, w, o, m, v)
    ensures forall u :: Ends(p, k, w, o, m, u) ==> u == v
  {
    v :=
      if !w.enabled then (if p.run then Disabled else LeftAlone)
      else if p.run then
        if PassesOn(p, k, w, m) then (if o.configErr.Some? then Refused(o.configErr.value) else Reconfigured)
        else if k.configurable && !SameConfig(p, w) then BadTimeouts(w.timeoutsErr.value)
        else LeftAlone
      else if HeldBack(p, w) then LeftAlone
      else if w.timeoutsErr.Some? then BadTimeouts(w.timeoutsErr.value)
      else if !o.initOk then InitFailed
      else if k.validates && o.validateErr.Some? then Invalid(o.validateErr.value)
      else if k.configurable && o.configErr.Some? then Refused(o.configErr.value)
      else if !o.startOk then StartFailed
      else CameUp;
  }

  // A running plugin gets its configuration exactly if that changed and its timeouts are good, or if it did
  // not change and the global settings did; otherwise no OnConfigChange is called.
  lemma ConfigPassedOn(p: Plug, k: Kind, w: Want, o: Outcome, m: Moment)
    requires Ok(p, m.round) && p.run && w.enabled && k.configurable
    ensures var calls := After(p, k, w, o, m).trace.calls;
            && (p.trace.calls + [ConfigCall] <= calls <==>
                if p.hash == Some(w.hash) then m.globalChanged else w.timeoutsErr == None)
            && (p.trace.calls + [ConfigCall] <= calls || calls == p.trace.calls || calls == p.trace.calls + [StopCall])
  {
    var v := OneEnding(p, k, w, o, m);
    AfterFits(p, k, w, o, m, v);
    assert v.Reconfigured? || v.Refused? || v.LeftAlone? || v.BadTimeouts?;
    var made := p.trace.calls;
    assert (made + [ConfigCall])[|made|] == ConfigCall;
    if v.BadTimeouts? {
      assert (made + [StopCall])[|made|] == StopCall;
    } else if v.Refused? {
      assert made + [ConfigCall, StopCall] == made + [ConfigCall] + [StopCall];
    }
  }
}
