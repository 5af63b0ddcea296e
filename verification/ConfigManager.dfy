/**
The configuration manager itself: what it holds, its list of subscribers, and the debounced reload
that parses, compares, validates, commits and publishes. Here no subscriber runs in between; what
happens when one does is in ConfigDelivery.
*/
module ConfigManager {
  import opened Lists
  import opened Wrappers

  // A configuration, by its content; its hash is the content again, and 0 where there is none.
  type Config = c: nat | c != 0 witness 1

  class Channel {
    var buf: seq<Config>
    const cap: nat

    constructor (cap: nat)
      ensures buf == [] && this.cap == cap
    {
      buf := [];
      this.cap := cap;
    }
  }

  // What publishing puts into a channel nobody is reading.
  function Offered(buf: seq<Config>, cap: nat, c: Config): (r: seq<Config>)
    requires 0 < cap && |buf| <= cap
    ensures 0 < |r| <= cap && r[|r| - 1] == c
  {
    if |buf| < cap then buf + [c] else buf[1..] + [c]
  }

  predicate NoRepeats(log: seq<Config>) {
    forall i :: 0 <= i < |log| - 1 ==> log[i] != log[i + 1]
  }

  // The newest contents of a channel after any number of publications: as many as it holds.
  function OfferedAll(buf: seq<Config>, cap: nat, cs: seq<Config>): (r: seq<Config>)
    requires 0 < cap && |buf| <= cap
    ensures |r| <= cap
  {
    if cs == [] then buf else Offered(OfferedAll(buf, cap, cs[..|cs| - 1]), cap, cs[|cs| - 1])
  }

  lemma OfferedNewest(all: seq<Config>, cap: nat, c: Config)
    requires 0 < cap
    ensures Offered(Last(all, cap), cap, c) == Last(all + [c], cap)
  {
  }

  lemma {:induction false} KeepsNewest(buf: seq<Config>, cap: nat, cs: seq<Config>)
    requires 0 < cap && |buf| <= cap
    ensures OfferedAll(buf, cap, cs) == Last(buf + cs, cap)
  {
    if cs == [] {
      assert buf + cs == buf;
    } else {
      var n := |cs| - 1;
      KeepsNewest(buf, cap, cs[..n]);
      assert buf + cs == (buf + cs[..n]) + [cs[n]];
      OfferedNewest(buf + cs[..n], cap, cs[n]);
    }
  }

  class Manager {
    var cfg: Option<Config>
    var lastHash: nat
    var subs: seq<Channel>
    ghost var log: seq<Config>    // everything published

    ghost predicate Valid()
      reads this, subs
    {
      && (forall i, j :: 0 <= i < j < |subs| ==> subs[i] != subs[j])
      && (forall i :: 0 <= i < |subs| ==> 0 < subs[i].cap && |subs[i].buf| <= subs[i].cap)
      && lastHash == (if cfg.Some? then cfg.value else 0)
    }

    // The manager holds what it published last, and never published the same twice in a row.
    ghost predicate Tracks()
      reads this
    {
      NoRepeats(log) && (log != [] ==> cfg == Some(log[|log| - 1]))
    }

    constructor ()
      ensures Valid() && Tracks() && cfg == None && subs == [] && log == []
    {
      cfg, lastHash, subs, log := None, 0, [], [];
    }

    method Commit(c: Config)
      modifies this`cfg, this`lastHash
      ensures cfg == Some(c) && lastHash == c
    {
      cfg, lastHash := Some(c), c;
    }

    // Reading the file at startup commits without publishing.
    method Load(parsed: Option<Config>)
      requires Valid()
      modifies this`cfg, this`lastHash
      ensures Valid() && cfg == (if parsed.Some? then parsed else old(cfg))
      ensures log == [] ==> Tracks()
    {
      if parsed.Some? {
        Commit(parsed.value);
      }
    }

    method Subscribe(cap: nat) returns (ch: Channel)
      requires Valid() && 0 < cap
      modifies this`subs
      ensures Valid() && fresh(ch) && ch.buf == [] && ch.cap == cap && subs == old(subs) + [ch]
    {
      ch := new Channel(cap);
      subs := subs + [ch];
    }

    // The last subscriber takes the place of the one that leaves.
    method Unsubscribe(ch: Channel)
      requires Valid()
      modifies this`subs
      ensures Valid() && forall c :: c in subs <==> c in old(subs) && c != ch
    {
      var i, last := 0, |subs| - 1;
      while i < |subs|
        invariant 0 <= i <= |subs| && subs == old(subs) && ch !in subs[..i]
      {
        if subs[i] == ch {
          SwapRemoved(subs, i);
          subs := subs[i := subs[last]][..last];
          return;
        }
        i := i + 1;
      }
      assert subs[..i] == subs;
    }

    // One publication with no subscriber moving meanwhile: each channel gets the configuration, at
    // the price of its oldest one if it was full.
    method Publish(c: Config)
      requires Valid()
      modifies set s | s in subs
      ensures forall i :: 0 <= i < |subs| ==> subs[i].buf == Offered(old(subs[i].buf), subs[i].cap, c)
      ensures subs == old(subs) && cfg == old(cfg) && lastHash == old(lastHash) && log == old(log)
    {
      for k := 0 to |subs|
        invariant forall i :: 0 <= i < k ==> subs[i].buf == Offered(old(subs[i].buf), subs[i].cap, c)
        invariant forall i :: k <= i < |subs| ==> subs[i].buf == old(subs[i].buf)
      {
        var ch := subs[k];
        if |ch.buf| < ch.cap {
          ch.buf := ch.buf + [c];
        } else {
          if ch.buf != [] {
            ch.buf := ch.buf[1..];
          }
          if |ch.buf| < ch.cap {
            ch.buf := ch.buf + [c];
          }
        }
      }
    }

    // The debounced callback: a configuration is committed and published exactly if it parses, differs
    // from the one held and is accepted; otherwise nothing changes.
    method Reload(parsed: Option<Config>, accepted: bool) returns (published: bool)
      requires Valid()
      modifies this`cfg, this`lastHash, this`log, set s | s in subs
      ensures Valid() && (old(Tracks()) ==> Tracks())
      ensures published <==> parsed.Some? && parsed != old(cfg) && accepted
      ensures cfg == (if published then parsed else old(cfg))
      ensures log == (if published then old(log) + [parsed.value] else old(log))
      ensures forall i :: 0 <= i < |subs| ==>
                (subs[i].buf == if published then Offered(old(subs[i].buf), subs[i].cap, parsed.value)
                                else old(subs[i].buf))
    {
      if parsed.None? || parsed.value == lastHash || !accepted {
        return false;
      }
      Commit(parsed.value);
      log := log + [parsed.value];
      Publish(parsed.value);
      published := true;
    }
  }

  lemma SwapRemoved(s: seq<Channel>, i: nat)
    requires i < |s| && forall j, k :: 0 <= j < k < |s| ==> s[j] != s[k]
    ensures var r := s[i := s[|s| - 1]][..|s| - 1];
            && (forall j, k :: 0 <= j < k < |r| ==> r[j] != r[k])
            && (forall c :: c in r <==> c in s && c != s[i])
  {
    var n := |s| - 1;
    var r := s[i := s[n]][..n];
    forall c | c in s && c != s[i] ensures c in r {
      var j :| 0 <= j < |s| && s[j] == c;
      assert r[if j == n then i else j] == c;
    }
  }
}
