/**
Delivery of configurations from the manager to its subscribers: one publisher, any number of
subscribers, every interleaving.

Configurations are numbered by the order of their commits. Publishing goes through the subscribers of
a snapshot and makes up to three attempts at each channel - send, drop the oldest, send again - with
anything happening in between. A subscriber waits for a configuration, then drains the channel and
applies the last one it took.
*/
module ConfigDelivery {
  import opened Lists
  import opened Wrappers

  datatype Reader = Starting | Waiting | Draining(newCfg: nat) | Gone

  // One subscription: its channel, its subscriber, and what happened to it so far.
  datatype Sub = Sub(
    cap: nat,
    buf: seq<nat>,
    reader: Reader,
    applied: Option<nat>,         // the last configuration applied that came through the channel
    received: seq<nat>,           // everything taken from the channel
    joined: nat,                  // how many configurations had been published when it subscribed
    base: nat,                    // the manager's configuration when the subscriber began
    sent: Option<nat>)            // the last configuration put into the channel

  datatype Publisher =
    | Idle
    | Committed                   // committed, the snapshot of subscribers not taken yet
    | Offer(rest: seq<nat>)
    | AtDrop(ch: nat, rest: seq<nat>)   // the channel was full
    | AtRetry(ch: nat, rest: seq<nat>)

  datatype State = State(
    committed: nat,               // the manager's configuration
    published: nat,               // the configuration being or last published
    pub: Publisher,
    subs: seq<nat>,
    chans: map<nat, Sub>,
    gaveUp: bool)                 // the last branch of publish was reached

  datatype Action =
    | Commit
    | Publish                     // one step of the publisher
    | Subscribe(ch: nat, cap: nat)    // a buffered channel
    | Unsubscribe(ch: nat)
    | Begin(ch: nat)              // the subscriber's goroutine starts
    | Receive(ch: nat)            // takes a configuration, while waiting or while draining
    | Apply(ch: nat)              // found the channel empty: applies the last one

  const INIT := State(0, 0, Idle, [], map[], false)

  function Index(subs: seq<nat>, ch: nat): (i: nat)
    ensures i <= |subs| && (i < |subs| ==> subs[i] == ch) && (i == |subs| ==> ch !in subs)
  {
    if subs == [] || subs[0] == ch then 0 else 1 + Index(subs[1..], ch)
  }

  // Swap-remove of the first occurrence.
  function SwapRemove(subs: seq<nat>, ch: nat): seq<nat> {
    var i := Index(subs, ch);
    if i == |subs| then subs
    else subs[i := subs[|subs| - 1]][..|subs| - 1]
  }

  function Push(u: Sub, c: nat): Sub {
    u.(buf := u.buf + [c], sent := Some(c))
  }

  function PublishStep(s: State): State {
    match s.pub
    case Idle => s
    case Committed => s.(published := s.committed, pub := Offer(s.subs))
    case Offer(rest) =>
      if rest == [] then s.(pub := Idle)
      else if rest[0] !in s.chans then s.(pub := Offer(rest[1..]))
      else
        var u := s.chans[rest[0]];
        if |u.buf| < u.cap
        then s.(chans := s.chans[rest[0] := Push(u, s.published)], pub := Offer(rest[1..]))
        else s.(pub := AtDrop(rest[0], rest[1..]))
    case AtDrop(ch, rest) =>
      if ch !in s.chans then s.(pub := Offer(rest))
      else
        var u := s.chans[ch];
        s.(chans := s.chans[ch := if u.buf == [] then u else u.(buf := u.buf[1..])], pub := AtRetry(ch, rest))
    case AtRetry(ch, rest) =>
      if ch !in s.chans then s.(pub := Offer(rest))
      else
        var u := s.chans[ch];
        if |u.buf| < u.cap
        then s.(chans := s.chans[ch := Push(u, s.published)], pub := Offer(rest))
        else s.(gaveUp := true, pub := Offer(rest))
  }

  function ReceiveStep(u: Sub): Sub {
    if (u.reader.Waiting? || u.reader.Draining?) && u.buf != []
    then u.(buf := u.buf[1..], reader := Draining(u.buf[0]), received := u.received + [u.buf[0]])
    else u
  }

  function ApplyStep(u: Sub): Sub {
    if u.reader.Draining? && u.buf == [] then u.(applied := Some(u.reader.newCfg), reader := Waiting) else u
  }

  // A step whose guard is false leaves the state as it is.
  function Next(s: State, a: Action): State {
    match a
    case Commit => if s.pub.Idle? then s.(committed := s.committed + 1, pub := Committed) else s
    case Publish => PublishStep(s)
    case Subscribe(ch, cap) =>
      if ch in s.chans || cap == 0 then s
      else s.(subs := s.subs + [ch],
              chans := s.chans[ch := Sub(cap, [], Starting, None, [], s.published, s.published, None)])
    case Unsubscribe(ch) =>
      if ch !in s.chans then s
      else s.(subs := SwapRemove(s.subs, ch), chans := s.chans[ch := s.chans[ch].(reader := Gone)])
    case Begin(ch) =>
      if ch in s.chans && s.chans[ch].reader.Starting?
      then s.(chans := s.chans[ch := s.chans[ch].(reader := Waiting, base := s.committed)]) else s
    case Receive(ch) => if ch in s.chans then s.(chans := s.chans[ch := ReceiveStep(s.chans[ch])]) else s
    case Apply(ch) => if ch in s.chans then s.(chans := s.chans[ch := ApplyStep(s.chans[ch])]) else s
  }

  function Run(s: State, acts: seq<Action>): State {
    if acts == [] then s else Next(Run(s, acts[..|acts| - 1]), acts[|acts| - 1])
  }

  // ----- what holds of one subscription -----

  predicate Increasing(s: seq<nat>) {
    forall i, j :: 0 <= i < j < |s| ==> s[i] < s[j]
  }

  function LastOf(s: seq<nat>): Option<nat> {
    if s == [] then None else Some(s[|s| - 1])
  }

  // Taken or still in the channel, in order; what was dropped is missing.
  function Seen(u: Sub): seq<nat> {
    u.received + u.buf
  }

  predicate SubOk(u: Sub, published: nat) {
    && u.cap > 0 && |u.buf| <= u.cap && u.joined <= published
    && Increasing(Seen(u)) && LastOf(Seen(u)) == u.sent
    && (u.sent.Some? ==> u.joined < u.sent.value <= published)
    && (u.reader.Starting? ==> u.received == [] && u.applied == None)
    && (u.reader.Waiting? ==> u.applied == LastOf(u.received))
    && (u.reader.Draining? ==> LastOf(u.received) == Some(u.reader.newCfg))
  }

  lemma PushOk(u: Sub, c: nat)
    requires SubOk(u, c) && |u.buf| < u.cap && u.joined < c && (u.sent.Some? ==> u.sent.value < c)
    ensures SubOk(Push(u, c), c)
  {
    var seen, seen' := Seen(u), Seen(Push(u, c));
    assert seen' == seen + [c];
    forall i, j | 0 <= i < j < |seen'| ensures seen'[i] < seen'[j] {
      if j == |seen| {
        assert seen[i] <= seen[|seen| - 1];
      }
    }
  }

  lemma ReceiveOk(u: Sub, p: nat)
    requires SubOk(u, p)
    ensures SubOk(ReceiveStep(u), p)
  {
    if u.buf != [] {
      assert u.buf == [u.buf[0]] + u.buf[1..];
      assert u.received + [u.buf[0]] + u.buf[1..] == Seen(u);
    }
  }

  // The publisher's drop: never the newest that was sent, because that is followed by the retry.
  predicate Dropped(u: Sub, published: nat) {
    && u.cap > 0 && |u.buf| < u.cap && u.joined < published
    && Increasing(Seen(u))
    && (forall i :: 0 <= i < |Seen(u)| ==> Seen(u)[i] < published)
    && (u.reader.Starting? ==> u.received == [] && u.applied == None)
    && (u.reader.Waiting? ==> u.applied == LastOf(u.received))
    && (u.reader.Draining? ==> LastOf(u.received) == Some(u.reader.newCfg))
  }

  lemma DropOk(u: Sub, p: nat)
    requires SubOk(u, p) && u.joined < p && (u.sent.Some? ==> u.sent.value < p)
    ensures Dropped(if u.buf == [] then u else u.(buf := u.buf[1..]), p)
  {
    var v, k, n := if u.buf == [] then u else u.(buf := u.buf[1..]), |u.received|, |Seen(u)|;
    forall i | 0 <= i < n ensures Seen(u)[i] < p {
      assert Seen(u)[i] <= Seen(u)[n - 1];
    }
    if u.buf != [] {
      assert forall i :: 0 <= i < n - 1 ==> Seen(v)[i] == Seen(u)[if i < k then i else i + 1];
    }
  }

  lemma RetryOk(u: Sub, p: nat)
    requires Dropped(u, p)
    ensures SubOk(Push(u, p), p)
  {
    assert Seen(Push(u, p)) == Seen(u) + [p];
  }

  lemma DroppedReceive(u: Sub, p: nat)
    requires Dropped(u, p)
    ensures Dropped(ReceiveStep(u), p) && Dropped(ApplyStep(u), p)
  {
    if u.buf != [] {
      assert u.buf == [u.buf[0]] + u.buf[1..];
      assert u.received + [u.buf[0]] + u.buf[1..] == Seen(u);
    }
  }

  // ----- what holds of every state -----

  function Pending(p: Publisher): seq<nat> {
    match p
    case Idle => []
    case Committed => []
    case Offer(rest) => rest
    case AtDrop(ch, rest) => [ch] + rest
    case AtRetry(ch, rest) => [ch] + rest
  }

  // The channel the publisher has made room in.
  predicate Emptied(s: State, ch: nat) {
    s.pub.AtRetry? && s.pub.ch == ch
  }

  predicate ChanOk(s: State, ch: nat)
    requires ch in s.chans
  {
    var u := s.chans[ch];
    && (if Emptied(s, ch) then Dropped(u, s.published) else SubOk(u, s.published))
    && (ch in Pending(s.pub) ==> u.joined < s.published && (u.sent.Some? ==> u.sent.value < s.published))
    && u.joined <= u.base <= s.committed
    && (ch in s.subs && ch !in Pending(s.pub) && u.joined < s.published ==> u.sent == Some(s.published))
  }

  predicate Frame(s: State) {
    && !s.gaveUp && Distinct(s.subs) && Distinct(Pending(s.pub))
    && (forall ch :: ch in s.subs ==> ch in s.chans)
    && (forall ch :: ch in Pending(s.pub) ==> ch in s.chans)
    && s.committed == s.published + (if s.pub.Committed? then 1 else 0)
  }

  ghost predicate Inv(s: State) {
    Frame(s) && forall ch :: ch in s.chans ==> ChanOk(s, ch)
  }

  // ----- every step keeps it -----

  lemma SwapRemoveSubset(subs: seq<nat>, ch: nat)
    requires Distinct(subs)
    ensures Distinct(SwapRemove(subs, ch))
    ensures forall c :: c in SwapRemove(subs, ch) <==> c in subs && c != ch
  {
    var i, n := Index(subs, ch), |subs|;
    var r := SwapRemove(subs, ch);
    if i < n {
      forall c ensures c in r <==> c in subs && c != ch {
        if c in r {
          var j :| 0 <= j < n - 1 && r[j] == c;
          assert c == if j == i then subs[n - 1] else subs[j];
        }
        if c in subs && c != ch {
          var j :| 0 <= j < n && subs[j] == c;
          assert r[if j == n - 1 then i else j] == c;
        }
      }
    }
  }

  // Steps that only touch one channel's subscription.
  lemma TouchOk(s: State, ch: nat, v: Sub)
    requires Inv(s) && ch in s.chans
    requires var u := s.chans[ch];
             v.sent == u.sent && v.joined == u.joined && (v.base == u.base || v.base == s.committed)
    requires if Emptied(s, ch) then Dropped(v, s.published) else SubOk(v, s.published)
    ensures Inv(s.(chans := s.chans[ch := v]))
  {
    var t := s.(chans := s.chans[ch := v]);
    forall c | c in t.chans ensures ChanOk(t, c) {
      assert ChanOk(s, c);
    }
  }

  lemma BeginOk(s: State, ch: nat)
    requires Inv(s)
    ensures Inv(Next(s, Begin(ch)))
  {
    if ch in s.chans && s.chans[ch].reader.Starting? {
      assert ChanOk(s, ch);
      TouchOk(s, ch, s.chans[ch].(reader := Waiting, base := s.committed));
    }
  }

  lemma ReceiveStepOk(s: State, ch: nat)
    requires Inv(s)
    ensures Inv(Next(s, Receive(ch)))
  {
    if ch in s.chans {
      var u := s.chans[ch];
      assert ChanOk(s, ch);
      if Emptied(s, ch) {
        DroppedReceive(u, s.published);
      } else {
        ReceiveOk(u, s.published);
      }
      TouchOk(s, ch, ReceiveStep(u));
    }
  }

  lemma ApplyStepOk(s: State, ch: nat)
    requires Inv(s)
    ensures Inv(Next(s, Apply(ch)))
  {
    if ch in s.chans {
      var u := s.chans[ch];
      assert ChanOk(s, ch);
      if Emptied(s, ch) {
        DroppedReceive(u, s.published);
      }
      TouchOk(s, ch, ApplyStep(u));
    }
  }

  lemma SubscribeOk(s: State, ch: nat, cap: nat)
    requires Inv(s)
    ensures Inv(Next(s, Subscribe(ch, cap)))
  {
    var t := Next(s, Subscribe(ch, cap));
    if t != s {
      forall c | c in t.chans ensures ChanOk(t, c) {
        assert c in s.chans ==> ChanOk(s, c);
      }
    }
  }

  lemma UnsubscribeOk(s: State, ch: nat)
    requires Inv(s)
    ensures Inv(Next(s, Unsubscribe(ch)))
  {
    var t := Next(s, Unsubscribe(ch));
    SwapRemoveSubset(s.subs, ch);
    if ch in s.chans {
      forall c | c in t.chans ensures ChanOk(t, c) {
        assert ChanOk(s, c);
      }
    }
  }

  // The publisher finishes with one channel.
  lemma ServedOk(s: State, ch: nat, rest: seq<nat>, t: State)
    requires Inv(s) && Pending(s.pub) == [ch] + rest && ch in s.chans
    requires |s.chans[ch].buf| < s.chans[ch].cap
    requires t == s.(chans := s.chans[ch := Push(s.chans[ch], s.published)], pub := Offer(rest))
    ensures Inv(t)
  {
    assert ChanOk(s, ch);
    if Emptied(s, ch) {
      RetryOk(s.chans[ch], s.published);
    } else {
      PushOk(s.chans[ch], s.published);
    }
    HeadOnce(Pending(s.pub), ch, rest);
    forall c | c in t.chans ensures ChanOk(t, c) {
      assert ChanOk(s, c);
    }
  }

  lemma HeadOnce(s: seq<nat>, ch: nat, rest: seq<nat>)
    requires Distinct(s) && s == [ch] + rest
    ensures ch !in rest && Distinct(rest) && s[1..] == rest
  {
    assert s[0] == ch;
    assert forall i :: 0 <= i < |rest| ==> s[i + 1] == rest[i];
  }

  lemma DropStepOk(s: State)
    requires Inv(s) && s.pub.AtDrop?
    ensures Inv(PublishStep(s))
  {
    var t, ch := PublishStep(s), s.pub.ch;
    assert Pending(s.pub)[0] == ch;
    assert Pending(t.pub) == Pending(s.pub);
    assert ChanOk(s, ch);
    DropOk(s.chans[ch], s.published);
    forall c | c in t.chans ensures ChanOk(t, c) {
      assert ChanOk(s, c);
      assert c != ch ==> t.chans[c] == s.chans[c];
    }
  }

  lemma SnapshotOk(s: State)
    requires Inv(s) && (s.pub.Committed? || (s.pub.Offer? && s.pub.rest == []))
    ensures Inv(PublishStep(s))
  {
    var t := PublishStep(s);
    forall c | c in t.chans ensures ChanOk(t, c) {
      assert ChanOk(s, c);
    }
  }

  lemma FullOk(s: State)
    requires Inv(s) && s.pub.Offer? && s.pub.rest != []
    ensures Inv(PublishStep(s))
  {
    var ch := s.pub.rest[0];
    assert s.pub.rest == [ch] + s.pub.rest[1..];
    assert ch in Pending(s.pub);
    assert ChanOk(s, ch);
    if |s.chans[ch].buf| < s.chans[ch].cap {
      ServedOk(s, ch, s.pub.rest[1..], PublishStep(s));
    } else {
      var t := PublishStep(s);
      forall c | c in t.chans ensures ChanOk(t, c) {
        assert ChanOk(s, c);
      }
    }
  }

  lemma PublishOk(s: State)
    requires Inv(s)
    ensures Inv(PublishStep(s))
  {
    match s.pub
    case Idle =>
    case Committed => SnapshotOk(s);
    case Offer(rest) =>
      if rest == [] {
        SnapshotOk(s);
      } else {
        FullOk(s);
      }
    case AtDrop(_, _) => DropStepOk(s);
    case AtRetry(ch, rest) =>
      assert ch in Pending(s.pub);
      assert ChanOk(s, ch);
      ServedOk(s, ch, rest, PublishStep(s));
  }

  lemma CommitOk(s: State)
    requires Inv(s)
    ensures Inv(Next(s, Commit))
  {
    var t := Next(s, Commit);
    forall c | c in t.chans ensures ChanOk(t, c) {
      assert ChanOk(s, c);
    }
  }

  lemma {:induction false} RunInv(acts: seq<Action>)
    ensures Inv(Run(INIT, acts))
  {
    if acts != [] {
      var s, a := Run(INIT, acts[..|acts| - 1]), acts[|acts| - 1];
      RunInv(acts[..|acts| - 1]);
      match a
      case Commit => CommitOk(s);
      case Publish => PublishOk(s);
      case Subscribe(ch, cap) => SubscribeOk(s, ch, cap);
      case Unsubscribe(ch) => UnsubscribeOk(s, ch);
      case Begin(ch) => BeginOk(s, ch);
      case Receive(ch) => ReceiveStepOk(s, ch);
      case Apply(ch) => ApplyStepOk(s, ch);
    }
  }

  // ----- what is promised -----

  // publish never gives up on a buffered channel.
  lemma NeverGivesUp(acts: seq<Action>)
    ensures !Run(INIT, acts).gaveUp
  {
    RunInv(acts);
  }

  // Every subscriber receives configurations in the order they were published, each at most once.
  lemma OrderKept(acts: seq<Action>, ch: nat)
    requires ch in Run(INIT, acts).chans
    ensures Increasing(Run(INIT, acts).chans[ch].received)
  {
    RunInv(acts);
    var s := Run(INIT, acts);
    var u := s.chans[ch];
    assert ChanOk(s, ch);
    assert forall i :: 0 <= i < |u.received| ==> Seen(u)[i] == u.received[i];
  }

  // The subscriber's record of what is in force: the last configuration it applied, or the one it
  // found when it began.
  function LastApplied(u: Sub): nat {
    if u.applied.Some? then u.applied.value else u.base
  }

  // Whenever nothing is on its way to a subscriber, its last applied configuration is the manager's
  // own, however slow it was, however many configurations were dropped and whenever it joined.
  lemma NewestWins(acts: seq<Action>, ch: nat)
    requires var s := Run(INIT, acts);
             s.pub.Idle? && ch in s.subs && ch in s.chans && s.chans[ch].buf == [] && s.chans[ch].reader.Waiting?
    ensures var s := Run(INIT, acts); LastApplied(s.chans[ch]) == s.committed
  {
    RunInv(acts);
    var s := Run(INIT, acts);
    assert ChanOk(s, ch);
    assert Seen(s.chans[ch]) == s.chans[ch].received;
  }

  // The publisher never waits for a subscriber: three steps per subscriber and two more finish any publication.
  function Remaining(p: Publisher, subs: nat): nat {
    match p
    case Idle => 0
    case Committed => 3 * subs + 2
    case Offer(rest) => 3 * |rest| + 1
    case AtDrop(_, rest) => 3 * |rest| + 3
    case AtRetry(_, rest) => 3 * |rest| + 2
  }

  lemma PublisherAdvances(s: State)
    requires !s.pub.Idle?
    ensures Remaining(PublishStep(s).pub, |s.subs|) < Remaining(s.pub, |s.subs|)
  {
  }
}
