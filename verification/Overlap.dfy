/**
The overlap policy: a firing tests the definition's running flag, a worker sets the flag when it
starts to execute a task and clears it when that execution ends. Between the test and the flag a
task passes through the queue and a worker's hands, and nothing counts the copies on the way.
*/
module Overlap {

  // A worker between tasks, with a task taken from the queue, and executing one.
  datatype Worker = Idle | Holding(def: nat) | Running(def: nat)

  datatype State = State(
    flags: set<nat>,              // definitions whose running flag is set
    firing: map<nat, nat>,        // firings that passed the test and have not sent yet, with their definition
    queue: seq<nat>,
    workers: map<nat, Worker>)

  // Which definitions skip while running, and the capacity of the queue.
  datatype System = System(skip: nat -> bool, cap: nat)

  datatype Action =
    | Test(f: nat, d: nat)        // a cron entry fires
    | Send(f: nat)                // dropped if the queue is full
    | Drop(f: nat)                // enqueue found no queue
    | Take(w: nat)
    | Mark(w: nat)
    | End(w: nat)
    | Renew                       // a later run starts with an empty queue

  predicate Passes(sys: System, s: State, d: nat) {
    sys.skip(d) ==> d !in s.flags
  }

  // A step whose guard is false leaves the state as it is.
  function Next(sys: System, s: State, a: Action): State {
    match a
    case Test(f, d) =>
      if f !in s.firing && Passes(sys, s, d) then s.(firing := s.firing[f := d]) else s
    case Send(f) =>
      if f !in s.firing then s
      else s.(firing := s.firing - {f},
              queue := if |s.queue| < sys.cap then s.queue + [s.firing[f]] else s.queue)
    case Drop(f) => s.(firing := s.firing - {f})
    case Take(w) =>
      if w in s.workers && s.workers[w].Idle? && s.queue != []
      then s.(queue := s.queue[1..], workers := s.workers[w := Holding(s.queue[0])]) else s
    case Mark(w) =>
      if w in s.workers && s.workers[w].Holding?
      then s.(flags := s.flags + {s.workers[w].def}, workers := s.workers[w := Running(s.workers[w].def)]) else s
    case End(w) =>
      if w in s.workers && s.workers[w].Running?
      then s.(flags := s.flags - {s.workers[w].def}, workers := s.workers[w := Idle]) else s
    case Renew =>
      if forall w :: w in s.workers ==> s.workers[w].Idle? then s.(queue := []) else s
  }

  function Run(sys: System, s: State, acts: seq<Action>): State
    decreases |acts|
  {
    if acts == [] then s else Run(sys, Next(sys, s, acts[0]), acts[1..])
  }

  // ----- copies of a definition's task -----

  datatype Place = AtFiring(f: nat) | AtQueue(i: nat) | AtWorker(w: nat)

  predicate At(s: State, p: Place, d: nat) {
    match p
    case AtFiring(f) => f in s.firing && s.firing[f] == d
    case AtQueue(i) => i < |s.queue| && s.queue[i] == d
    case AtWorker(w) => w in s.workers && !s.workers[w].Idle? && s.workers[w].def == d
  }

  // On the way to execution: tested, queued, or in a worker's hands with the flag not set yet.
  ghost predicate Pending(s: State, d: nat) {
    exists p :: At(s, p, d) && !(p.AtWorker? && s.workers[p.w].Running?)
  }

  ghost predicate Single(s: State, d: nat) {
    forall p, q :: At(s, p, d) && At(s, q, d) ==> p == q
  }

  predicate Executes(s: State, w: nat, d: nat) {
    w in s.workers && s.workers[w] == Running(d)
  }

  ghost predicate FlagTells(s: State, d: nat) {
    d in s.flags <==> exists w :: Executes(s, w, d)
  }

  ghost predicate Overlapping(s: State, d: nat) {
    exists v, w :: v != w && Executes(s, v, d) && Executes(s, w, d)
  }

  // What doc.go promises for a definition that skips: at most one run at a time.
  ghost predicate Solo(s: State, d: nat) {
    Single(s, d) && FlagTells(s, d)
  }

  // A firing of d that passes the test finds no copy of d on its way.
  ghost predicate Quiet(sys: System, s: State, a: Action, d: nat) {
    a.Test? && a.d == d && a.f !in s.firing && Passes(sys, s, d) ==> !Pending(s, d)
  }

  // What a firing does: its task is on its way exactly if the definition does not skip or its flag is not
  // set, that is, where the flag tells, if nobody executes it; nothing else moves.
  lemma TestExactly(sys: System, s: State, f: nat, d: nat)
    requires f !in s.firing
    ensures var s' := Next(sys, s, Test(f, d));
            && (At(s', AtFiring(f), d) <==> !sys.skip(d) || d !in s.flags)
            && (FlagTells(s, d) ==> (At(s', AtFiring(f), d) <==> !sys.skip(d) || forall w :: !Executes(s, w, d)))
            && s' == s.(firing := if f in s'.firing then s.firing[f := d] else s.firing)
  {
  }

  // Where the task at p was before the step.
  function Before(sys: System, s: State, a: Action, p: Place): Place {
    match a
    case Take(w) =>
      if Next(sys, s, a) == s then p
      else if p == AtWorker(w) then AtQueue(0) else if p.AtQueue? then AtQueue(p.i + 1) else p
    case Send(f) =>
      if f in s.firing && |s.queue| < sys.cap && p == AtQueue(|s.queue|) then AtFiring(f) else p
    case _ => p
  }

  // Every step but a firing only moves or drops copies, and two never merge.
  lemma CopiesMove(sys: System, s: State, a: Action, p: Place, d: nat)
    requires At(Next(sys, s, a), p, d)
    ensures At(s, Before(sys, s, a, p), d) || (a.Test? && a.d == d && p == AtFiring(a.f) && Next(sys, s, a) != s)
  {
  }

  lemma CopiesApart(sys: System, s: State, a: Action, p: Place, q: Place, d: nat)
    requires At(Next(sys, s, a), p, d) && At(Next(sys, s, a), q, d)
    requires Before(sys, s, a, p) == Before(sys, s, a, q)
    ensures p == q
  {
  }

  lemma SingleKept(sys: System, s: State, a: Action, d: nat)
    requires Single(s, d) && !(a.Test? && a.d == d)
    ensures Single(Next(sys, s, a), d)
  {
    var s' := Next(sys, s, a);
    forall p, q | At(s', p, d) && At(s', q, d) ensures p == q {
      CopiesMove(sys, s, a, p, d);
      CopiesMove(sys, s, a, q, d);
      CopiesApart(sys, s, a, p, q, d);
    }
  }

  lemma FlagKept(sys: System, s: State, a: Action, d: nat)
    requires Solo(s, d)
    ensures FlagTells(Next(sys, s, a), d)
  {
    var s' := Next(sys, s, a);
    forall w | Executes(s, w, d) ensures At(s, AtWorker(w), d) {}
    if a.Mark? && s' != s {
      assert forall w :: w != a.w ==> (Executes(s', w, d) <==> Executes(s, w, d));
      assert s.workers[a.w].def == d ==> Executes(s', a.w, d);
    } else if a.End? && s' != s {
      assert forall w :: w != a.w ==> (Executes(s', w, d) <==> Executes(s, w, d));
      if s.workers[a.w].def == d {
        assert At(s, AtWorker(a.w), d);
      } else {
        assert !Executes(s, a.w, d);
      }
    } else {
      assert forall w :: Executes(s', w, d) <==> Executes(s, w, d);
    }
  }

  lemma PendingOrRunning(s: State, p: Place, d: nat)
    requires At(s, p, d)
    ensures Pending(s, d) || exists w :: Executes(s, w, d)
  {
    if p.AtWorker? && s.workers[p.w].Running? {
      assert Executes(s, p.w, d);
    }
  }

  lemma StepSolo(sys: System, s: State, a: Action, d: nat)
    requires sys.skip(d) && Solo(s, d) && Quiet(sys, s, a, d)
    ensures Solo(Next(sys, s, a), d)
  {
    FlagKept(sys, s, a, d);
    var s' := Next(sys, s, a);
    if a.Test? && a.d == d {
      if s' != s {
        forall p | At(s', p, d) ensures p == AtFiring(a.f) {
          if At(s, p, d) {
            PendingOrRunning(s, p, d);
          }
        }
      }
    } else {
      SingleKept(sys, s, a, d);
    }
  }

  ghost predicate QuietRun(sys: System, s: State, acts: seq<Action>, d: nat)
    decreases |acts|
  {
    acts == [] || (Quiet(sys, s, acts[0], d) && QuietRun(sys, Next(sys, s, acts[0]), acts[1..], d))
  }

  // If no firing that passes the test finds another copy on its way, at most one worker executes the
  // definition at any moment, and the flag is set exactly while one does.
  lemma {:induction false} QuietRunsAlone(sys: System, s: State, acts: seq<Action>, d: nat)
    requires sys.skip(d) && Solo(s, d) && QuietRun(sys, s, acts, d)
    ensures Solo(Run(sys, s, acts), d) && !Overlapping(Run(sys, s, acts), d)
    decreases |acts|
  {
    if acts != [] {
      StepSolo(sys, s, acts[0], d);
      QuietRunsAlone(sys, Next(sys, s, acts[0]), acts[1..], d);
    } else {
      forall v, w | Executes(s, v, d) && Executes(s, w, d) ensures v == w {
        assert At(s, AtWorker(v), d) && At(s, AtWorker(w), d);
      }
    }
  }

  // ----- two copies always can overlap -----

  ghost predicate TwoCopies(s: State, d: nat) {
    exists p, q :: p != q && At(s, p, d) && At(s, q, d)
  }

  predicate NoTest(acts: seq<Action>) {
    forall i :: 0 <= i < |acts| ==> !acts[i].Test?
  }

  ghost predicate CanOverlap(sys: System, s: State, d: nat) {
    exists acts :: NoTest(acts) && Overlapping(Run(sys, s, acts), d)
  }

  // Two workers and a queue that holds something, as by default (two workers, 256 places).
  ghost predicate TwoWorkers(sys: System, s: State) {
    sys.cap > 0 && exists v, w :: v != w && v in s.workers && w in s.workers
  }

  lemma StepCanOverlap(sys: System, s: State, a: Action, d: nat)
    requires !a.Test? && CanOverlap(sys, Next(sys, s, a), d)
    ensures CanOverlap(sys, s, d)
  {
    var acts :| NoTest(acts) && Overlapping(Run(sys, Next(sys, s, a), acts), d);
    var more := [a] + acts;
    assert more[1..] == acts;
    assert NoTest(more) && Overlapping(Run(sys, s, more), d);
  }

  predicate Has(s: State, w: nat, d: nat) {
    At(s, AtWorker(w), d)
  }

  // Both copies in workers' hands.
  lemma BothHeld(sys: System, s: State, v: nat, w: nat, d: nat)
    requires v != w && Has(s, v, d) && Has(s, w, d)
    ensures CanOverlap(sys, s, d)
  {
    var s1 := Next(sys, s, Mark(v));
    var s2 := Next(sys, s1, Mark(w));
    assert Executes(s1, v, d) && Executes(s2, v, d) && Executes(s2, w, d);
    assert NoTest([]) && Overlapping(Run(sys, s2, []), d);
    StepCanOverlap(sys, s1, Mark(w), d);
    StepCanOverlap(sys, s, Mark(v), d);
  }

  // One copy held, one queued: the other worker finishes what it has and works its way to the copy.
  lemma HeldAndQueued(sys: System, s: State, v: nat, w: nat, i: nat, d: nat)
    requires v != w && Has(s, v, d) && w in s.workers && At(s, AtQueue(i), d)
    ensures CanOverlap(sys, s, d)
    decreases i, if s.workers[w].Idle? then 0 else if s.workers[w].Running? then 1 else 2
  {
    if Has(s, w, d) {
      BothHeld(sys, s, v, w, d);
    } else if s.workers[w].Idle? {
      var s1 := Next(sys, s, Take(w));
      if i == 0 {
        BothHeld(sys, s1, v, w, d);
      } else {
        HeldAndQueued(sys, s1, v, w, i - 1, d);
      }
      StepCanOverlap(sys, s, Take(w), d);
    } else {
      var a := if s.workers[w].Running? then End(w) else Mark(w);
      HeldAndQueued(sys, Next(sys, s, a), v, w, i, d);
      StepCanOverlap(sys, s, a, d);
    }
  }

  lemma BothQueued(sys: System, s: State, v: nat, w: nat, i: nat, j: nat, d: nat)
    requires v != w && v in s.workers && w in s.workers && i < j && At(s, AtQueue(i), d) && At(s, AtQueue(j), d)
    ensures CanOverlap(sys, s, d)
    decreases i, if s.workers[w].Idle? then 0 else if s.workers[w].Running? then 1 else 2
  {
    if Has(s, w, d) {
      HeldAndQueued(sys, s, w, v, j, d);
    } else if s.workers[w].Idle? {
      var s1 := Next(sys, s, Take(w));
      if i == 0 {
        HeldAndQueued(sys, s1, w, v, j - 1, d);
      } else {
        BothQueued(sys, s1, v, w, i - 1, j - 1, d);
      }
      StepCanOverlap(sys, s, Take(w), d);
    } else {
      var a := if s.workers[w].Running? then End(w) else Mark(w);
      BothQueued(sys, Next(sys, s, a), v, w, i, j, d);
      StepCanOverlap(sys, s, a, d);
    }
  }

  // A firing's copy and one held: once there is room, the firing sends.
  lemma FiringAndHeld(sys: System, s: State, f: nat, v: nat, w: nat, d: nat)
    requires v != w && sys.cap > 0 && At(s, AtFiring(f), d) && Has(s, v, d) && w in s.workers
    ensures CanOverlap(sys, s, d)
    decreases |s.queue|, if s.workers[w].Idle? then 0 else if s.workers[w].Running? then 1 else 2
  {
    if Has(s, w, d) {
      BothHeld(sys, s, v, w, d);
    } else if |s.queue| < sys.cap {
      HeldAndQueued(sys, Next(sys, s, Send(f)), v, w, |s.queue|, d);
      StepCanOverlap(sys, s, Send(f), d);
    } else {
      var a := if s.workers[w].Idle? then Take(w) else if s.workers[w].Running? then End(w) else Mark(w);
      FiringAndHeld(sys, Next(sys, s, a), f, v, w, d);
      StepCanOverlap(sys, s, a, d);
    }
  }

  lemma FiringAndQueued(sys: System, s: State, f: nat, v: nat, w: nat, i: nat, d: nat)
    requires v != w && sys.cap > 0 && At(s, AtFiring(f), d) && At(s, AtQueue(i), d)
    requires v in s.workers && w in s.workers
    ensures CanOverlap(sys, s, d)
    decreases |s.queue|, if s.workers[w].Idle? then 0 else if s.workers[w].Running? then 1 else 2
  {
    if Has(s, w, d) {
      HeldAndQueued(sys, s, w, v, i, d);
    } else if |s.queue| < sys.cap {
      BothQueued(sys, Next(sys, s, Send(f)), v, w, i, |s.queue|, d);
      StepCanOverlap(sys, s, Send(f), d);
    } else {
      var a := if s.workers[w].Idle? then Take(w) else if s.workers[w].Running? then End(w) else Mark(w);
      var s1 := Next(sys, s, a);
      if a.Take? && i == 0 {
        FiringAndHeld(sys, s1, f, w, v, d);
      } else {
        FiringAndQueued(sys, s1, f, v, w, if a.Take? then i - 1 else i, d);
      }
      StepCanOverlap(sys, s, a, d);
    }
  }

  lemma BothFiring(sys: System, s: State, f: nat, g: nat, v: nat, w: nat, d: nat)
    requires v != w && sys.cap > 0 && f != g && At(s, AtFiring(f), d) && At(s, AtFiring(g), d)
    requires v in s.workers && w in s.workers
    ensures CanOverlap(sys, s, d)
    decreases |s.queue|, if s.workers[w].Idle? then 0 else if s.workers[w].Running? then 1 else 2
  {
    if Has(s, w, d) {
      FiringAndHeld(sys, s, f, w, v, d);
    } else if |s.queue| < sys.cap {
      FiringAndQueued(sys, Next(sys, s, Send(g)), f, v, w, |s.queue|, d);
      StepCanOverlap(sys, s, Send(g), d);
    } else {
      var a := if s.workers[w].Idle? then Take(w) else if s.workers[w].Running? then End(w) else Mark(w);
      BothFiring(sys, Next(sys, s, a), f, g, v, w, d);
      StepCanOverlap(sys, s, a, d);
    }
  }

  lemma Paired(sys: System, s: State, p: Place, q: Place, d: nat)
    requires TwoWorkers(sys, s) && p != q && At(s, p, d) && At(s, q, d)
    requires p.AtWorker? || (p.AtQueue? && !q.AtWorker?) || (p.AtFiring? && q.AtFiring?)
    requires p.AtQueue? && q.AtQueue? ==> p.i < q.i
    ensures CanOverlap(sys, s, d)
  {
    var v, w :| v != w && v in s.workers && w in s.workers;
    match p
    case AtWorker(x) =>
      var y := if x == v then w else v;
      match q {
        case AtWorker(z) => BothHeld(sys, s, x, z, d);
        case AtQueue(i) => HeldAndQueued(sys, s, x, y, i, d);
        case AtFiring(f) => FiringAndHeld(sys, s, f, x, y, d);
      }
    case AtQueue(i) =>
      if q.AtQueue? {
        BothQueued(sys, s, v, w, i, q.i, d);
      } else {
        FiringAndQueued(sys, s, q.f, v, w, i, d);
      }
    case AtFiring(f) => BothFiring(sys, s, f, q.f, v, w, d);
  }

  lemma {:induction false} SingleRun(sys: System, s: State, acts: seq<Action>, d: nat)
    requires Single(s, d) && NoTest(acts)
    ensures Single(Run(sys, s, acts), d)
    decreases |acts|
  {
    if acts != [] {
      SingleKept(sys, s, acts[0], d);
      SingleRun(sys, Next(sys, s, acts[0]), acts[1..], d);
    }
  }

  // Without any further firing two workers can come to execute the definition at once exactly if two
  // copies of its task exist; skipping or not makes no difference once both are past the test.
  lemma OverlapExactly(sys: System, s: State, d: nat)
    requires TwoWorkers(sys, s)
    ensures CanOverlap(sys, s, d) <==> TwoCopies(s, d)
  {
    if CanOverlap(sys, s, d) && Single(s, d) {
      var acts :| NoTest(acts) && Overlapping(Run(sys, s, acts), d);
      SingleRun(sys, s, acts, d);
      var s' := Run(sys, s, acts);
      var v, w :| v != w && Executes(s', v, d) && Executes(s', w, d);
      assert At(s', AtWorker(v), d) && At(s', AtWorker(w), d);
    }
    if TwoCopies(s, d) {
      var p, q :| p != q && At(s, p, d) && At(s, q, d);
      if p.AtWorker? || (p.AtFiring? && q.AtFiring?) || (p.AtQueue? && (q.AtFiring? || (q.AtQueue? && p.i < q.i))) {
        Paired(sys, s, p, q, d);
      } else {
        Paired(sys, s, q, p, d);
      }
    }
  }

  // From a state in which the promise holds, the promise is at risk after one firing of a skipping
  // definition exactly if that firing passes the test while another copy is on its way.
  lemma NoisyFiring(sys: System, s: State, f: nat, d: nat)
    requires TwoWorkers(sys, s) && sys.skip(d) && Solo(s, d)
    ensures CanOverlap(sys, Next(sys, s, Test(f, d)), d) <==> !Quiet(sys, s, Test(f, d), d)
  {
    var s' := Next(sys, s, Test(f, d));
    assert s'.workers == s.workers;
    OverlapExactly(sys, s', d);
    if Quiet(sys, s, Test(f, d), d) {
      StepSolo(sys, s, Test(f, d), d);
    } else {
      var p :| At(s, p, d) && !(p.AtWorker? && s.workers[p.w].Running?);
      assert At(s', p, d) && At(s', AtFiring(f), d);
    }
  }

  // The shortest such run: two firings one after the other, before any worker looks at the queue.
  lemma TwoFirings(sys: System, d: nat)
    requires sys.cap > 0
    ensures var s0 := State({}, map[], [], map[0 := Idle, 1 := Idle]);
            && Solo(s0, d)
            && CanOverlap(sys, Run(sys, s0, [Test(0, d), Test(1, d)]), d)
  {
    var s0 := State({}, map[], [], map[0 := Idle, 1 := Idle]);
    var s1 := Next(sys, s0, Test(0, d));
    var s2 := Next(sys, s1, Test(1, d));
    assert [Test(0, d), Test(1, d)][1..] == [Test(1, d)];
    assert Run(sys, s1, [Test(1, d)]) == s2;
    BothFiring(sys, s2, 0, 1, 0, 1, d);
  }
}
