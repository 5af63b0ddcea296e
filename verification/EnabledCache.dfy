/**
The cache in front of the question whether a unit is enabled. The backend is arbitrary: it answers
anything, or fails. Times are nanoseconds on an unbounded line.
*/
module EnabledCache {
  import opened Lists
  import opened Wrappers

  type Name = string

  datatype Entry = Entry(enabled: bool, expires: int)

  // An answer of the backend and the time it was asked.
  datatype Answer = Answer(enabled: bool, at: int)

  const DEFAULT_TTL: int := 300_000_000_000
  const DEFAULT_MAX := 512
  const DEFAULT_SWEEP := 64

  function EffectiveTTL(ttl: int): (r: int)
    ensures if ttl == 0 then r == 300_000_000_000 else r == ttl
  {
    if ttl == 0 then DEFAULT_TTL else ttl
  }

  function EffectiveMax(max: int): (r: nat)
    ensures if max > 0 then r == max else r == 512
  {
    if max <= 0 then DEFAULT_MAX else max
  }

  // ----- what pruning keeps -----

  // An entry expires after its last moment, not at it.
  function Live(m: map<Name, Entry>, now: int): (r: map<Name, Entry>)
    ensures forall k :: k in m ==> (k in r <==> !(now > m[k].expires))
  {
    map k | k in m && now <= m[k].expires :: m[k]
  }

  // All live entries if they fit, otherwise as many as fit, and those that expire last.
  predicate Pruned(m: map<Name, Entry>, r: map<Name, Entry>, now: int, max: int) {
    var live := Live(m, now);
    && (forall k :: k in r ==> k in live && r[k] == live[k])
    && (|live| <= max ==> r == live)
    && (|live| > max ==> |r| == max)
    && (forall k, d :: k in r && d in live && d !in r ==> live[d].expires <= live[k].expires)
  }

  predicate Ordered(s: seq<Name>, m: map<Name, Entry>) {
    && (forall i :: 0 <= i < |s| ==> s[i] in m)
    && (forall i, j :: 0 <= i < j < |s| ==> m[s[i]].expires <= m[s[j]].expires)
  }

  // Inserts a key behind the keys that expire before it.
  method Insert(s: seq<Name>, k: Name, m: map<Name, Entry>) returns (r: seq<Name>)
    requires Ordered(s, m) && Distinct(s) && k in m && k !in s
    ensures Ordered(r, m) && Distinct(r) && |r| == |s| + 1
    ensures forall x :: x in r <==> x in s || x == k
  {
    var i := |s|;
    while i > 0 && m[k].expires < m[s[i - 1]].expires
      invariant 0 <= i <= |s|
      invariant forall j :: i <= j < |s| ==> m[k].expires < m[s[j]].expires
    {
      i := i - 1;
    }
    r := s[..i] + [k] + s[i..];
    Inserted(s, k, i, r);
    InsertedOrdered(s, k, i, r, m);
  }

  lemma InsertedOrdered(s: seq<Name>, k: Name, i: nat, r: seq<Name>, m: map<Name, Entry>)
    requires Ordered(s, m) && k in m && i <= |s| && r == s[..i] + [k] + s[i..]
    requires forall j :: i <= j < |s| ==> m[k].expires < m[s[j]].expires
    requires i > 0 ==> m[s[i - 1]].expires <= m[k].expires
    ensures Ordered(r, m)
  {
    assert forall j :: 0 <= j < |r| ==> r[j] == if j < i then s[j] else if j == i then k else s[j - 1];
    assert forall j :: 0 <= j < i ==> m[s[j]].expires <= m[k].expires;
  }

  lemma Inserted(s: seq<Name>, k: Name, i: nat, r: seq<Name>)
    requires Distinct(s) && k !in s && i <= |s| && r == s[..i] + [k] + s[i..]
    ensures Distinct(r) && forall x :: x in r <==> x in s || x == k
  {
    assert forall j :: 0 <= j < |r| ==> r[j] == if j < i then s[j] else if j == i then k else s[j - 1];
    forall x | x in s || x == k ensures x in r {
      if x == k {
        assert r[i] == k;
      } else {
        var j :| 0 <= j < |s| && s[j] == x;
        assert r[if j < i then j else j + 1] == x;
      }
    }
  }

  // The keys by expiry, earliest first. Which of two equal ones comes first is open.
  method KeysByExpiry(m: map<Name, Entry>) returns (items: seq<Name>)
    ensures Ordered(items, m) && Distinct(items) && |items| == |m|
    ensures forall k :: k in items <==> k in m
  {
    items := [];
    var todo := m.Keys;
    while todo != {}
      invariant todo <= m.Keys && Ordered(items, m) && Distinct(items)
      invariant forall k :: k in items <==> k in m && k !in todo
      invariant |items| + |todo| == |m|
      decreases |todo|
    {
      var k :| k in todo;
      items := Insert(items, k, m);
      todo := todo - {k};
    }
  }

  // Deleting the first keys in the order of expiry.
  method DropFirst(m: map<Name, Entry>, items: seq<Name>, excess: nat) returns (r: map<Name, Entry>)
    requires Distinct(items) && excess <= |items| && forall i :: 0 <= i < |items| ==> items[i] in m
    ensures forall k :: k in r <==> k in m && k !in items[..excess]
    ensures forall k :: k in r ==> r[k] == m[k]
    ensures |r| == |m| - excess
  {
    r := m;
    for i := 0 to excess
      invariant forall k :: k in r <==> k in m && k !in items[..i]
      invariant forall k :: k in r ==> r[k] == m[k]
      invariant |r| == |m| - i
    {
      assert items[i] in r;
      assert items[..i + 1] == items[..i] + [items[i]];
      assert (r - {items[i]}).Keys == r.Keys - {items[i]};
      r := r - {items[i]};
    }
  }

  lemma DroppedPruned(m: map<Name, Entry>, items: seq<Name>, r: map<Name, Entry>, now: int, max: int)
    requires max >= 0 && |Live(m, now)| > max
    requires Ordered(items, Live(m, now)) && |items| == |Live(m, now)| && forall k :: k in items <==> k in Live(m, now)
    requires forall k :: k in r <==> k in Live(m, now) && k !in items[..|items| - max]
    requires forall k :: k in r ==> r[k] == Live(m, now)[k]
    requires |r| == max
    ensures Pruned(m, r, now, max)
  {
    var live, n := Live(m, now), |items| - max;
    forall k, d | k in r && d in live && d !in r ensures live[d].expires <= live[k].expires {
      var i :| 0 <= i < |items| && items[i] == k;
      var j :| 0 <= j < n && items[j] == d;
      assert i >= n;
    }
  }

  // Every entry is the last answer for its name, and expires one TTL after it was given.
  predicate Tracks(cache: map<Name, Entry>, asked: map<Name, Answer>, ttl: int) {
    forall k :: k in cache ==> k in asked && cache[k] == Entry(asked[k].enabled, asked[k].at + ttl)
  }

  // Whether insertion number n sweeps: every 64th does, or every sweep-th where that is set.
  predicate Sweeps(n: nat, sweep: nat) {
    n % (if sweep == 0 then 64 else sweep) == 0
  }

  // A new entry was put in, and the cache pruned exactly if that made it too large or the sweep was due.
  predicate PutIn(before: map<Name, Entry>, name: Name, e: Entry, after: map<Name, Entry>, now: int, max: int,
                  due: bool)
  {
    var c := before[name := e];
    if |c| > max || due then Pruned(c, after, now, max) else after == c
  }

  lemma PutTracks(before: map<Name, Entry>, name: Name, a: Answer, after: map<Name, Entry>, now: int, max: int,
                  due: bool, asked: map<Name, Answer>, ttl: int, e: Entry)
    requires e == Entry(a.enabled, a.at + ttl)
    requires Tracks(before, asked, ttl) && PutIn(before, name, e, after, now, max, due)
    ensures Tracks(after, asked[name := a], ttl)
  {
    var c := before[name := e];
    assert Tracks(c, asked[name := a], ttl);
    forall k | k in after ensures k in c && after[k] == c[k] {
    }
  }

  // An answer is remembered, unless there was none or answers are not kept; otherwise nothing changes.
  predicate Learns(before: map<Name, Entry>, known: map<Name, Answer>, name: Name, answer: Option<bool>, now: int,
                   after: map<Name, Entry>, asked: map<Name, Answer>, max: int, ttl: int, due: bool)
  {
    if answer.Some? && ttl > 0
    then && asked == known[name := Answer(answer.value, now)]
         && PutIn(before, name, Entry(answer.value, now + ttl), after, now, max, due)
    else asked == known && after == before
  }

  lemma ShowsLearnt(before: map<Name, Entry>, known: map<Name, Answer>, name: Name, e: Entry, now: int,
                    after: map<Name, Entry>, asked: map<Name, Answer>, max: int, ttl: int, due: bool)
    requires ttl > 0 && e.expires == now + ttl && asked == known[name := Answer(e.enabled, now)]
    requires PutIn(before, name, e, after, now, max, due)
    ensures Learns(before, known, name, Some(e.enabled), now, after, asked, max, ttl, due)
  {
    assert Entry(e.enabled, now + ttl) == e;
  }

  // There is an answer the backend gave less than one TTL ago, and it was not pruned away.
  predicate Remembered(cache: map<Name, Entry>, asked: map<Name, Answer>, name: Name, now: int, ttl: int) {
    0 < ttl && name in cache && name in asked && now - asked[name].at < ttl
  }

  // What was learnt from the backend and not pruned away is remembered for one TTL.
  lemma LearntRemembered(before: map<Name, Entry>, known: map<Name, Answer>, name: Name, answer: bool, at: int,
                         after: map<Name, Entry>, asked: map<Name, Answer>, max: int, ttl: int, due: bool, later: int)
    requires 0 < ttl && Learns(before, known, name, Some(answer), at, after, asked, max, ttl, due) && name in after
    ensures Remembered(after, asked, name, later, ttl) <==> later < at + ttl
    ensures asked[name].enabled == answer
  {
  }

  // A new entry is not pruned away if every other one expires before it, as with a clock that moves between
  // any two answers: only equal expiries leave a choice.
  lemma NewestStays(before: map<Name, Entry>, name: Name, e: Entry, after: map<Name, Entry>, now: int, max: int,
                    due: bool)
    requires PutIn(before, name, e, after, now, max, due) && max > 0 && now <= e.expires
    requires forall k :: k in before && k != name ==> before[k].expires < e.expires
    ensures name in after && after[name] == e
  {
    var c := before[name := e];
    assert name in Live(c, now);
    if |Live(c, now)| > max && (|c| > max || due) {
      assert |after| == max > 0;
      var k :| k in after;
      assert k != name ==> c[k] == before[k];
    }
  }

  class Manager {
    var cache: map<Name, Entry>
    var ttl: int
    var max: int
    var sweep: nat
    var ops: nat
    ghost var asked: map<Name, Answer>    // the last answer worth caching, for each name ever asked

    ghost predicate Valid()
      reads this
    {
      |cache| <= EffectiveMax(max) && Tracks(cache, asked, EffectiveTTL(ttl))
    }

    constructor ()
      ensures Valid() && cache == map[] && asked == map[]
      ensures ttl == 300_000_000_000 && max == 512 && sweep == 64 && ops == 0
    {
      cache, asked, ttl, max, sweep, ops := map[], map[], DEFAULT_TTL, DEFAULT_MAX, DEFAULT_SWEEP, 0;
    }

    method SetEnabledCacheTTL(t: int)
      modifies this`cache, this`ttl, this`ops
      ensures Valid() && cache == map[] && ops == 0 && ttl == if t == 0 then 300_000_000_000 else t
    {
      ttl := EffectiveTTL(t);
      ops := 0;
      cache := map[];
    }

    method ClearEnabledCache()
      modifies this`cache, this`ops
      ensures Valid() && cache == map[] && ops == 0
    {
      ops := 0;
      cache := map[];
    }

    method PruneEnabledCache(now: int)
      modifies this`cache
      ensures Pruned(old(cache), cache, now, EffectiveMax(max)) && |cache| <= EffectiveMax(max)
    {
      ghost var before := cache;
      cache := Live(cache, now);
      if |cache| <= EffectiveMax(max) {
        return;
      }
      var items := KeysByExpiry(cache);
      cache := DropFirst(cache, items, |cache| - EffectiveMax(max));
      DroppedPruned(before, items, cache, now, EffectiveMax(max));
    }

    method SetEnabledCacheMax(m: int, now: int)
      requires Valid()
      modifies this`cache, this`max
      ensures Valid() && max == (if m <= 0 then 512 else m) && Pruned(old(cache), cache, now, max)
    {
      max := EffectiveMax(m);
      PruneEnabledCache(now);
    }

    // A hit: an answer that the backend gave less than one TTL ago.
    function Lookup(name: Name, now: int): (r: Option<bool>)
      reads this
      requires Valid()
      ensures r.Some? <==> Remembered(cache, asked, name, now, EffectiveTTL(ttl))
      ensures r.Some? ==> r.value == asked[name].enabled
    {
      if EffectiveTTL(ttl) >= 0 && name in cache && now < cache[name].expires
      then Some(cache[name].enabled) else None
    }

    // A question is answered from the cache exactly if an answer younger than one TTL is remembered.
    // The backend's answer, None if it fails, is only looked at when there is no hit, and only cached
    // when there is one to cache.
    method IsEnabled(name: Name, now: int, connected: bool, backend: Option<bool>) returns (r: bool, hit: bool)
      requires Valid()
      modifies this`cache, this`max, this`sweep, this`ops, this`asked
      ensures Valid()
      ensures hit <==> connected && Remembered(old(cache), old(asked), name, now, EffectiveTTL(ttl))
      ensures hit ==> r == old(asked)[name].enabled
      ensures !hit ==> r == (connected && backend == Some(true))
      ensures Learns(old(cache), old(asked), name, if connected && !hit then backend else None, now,
                     cache, asked, max, EffectiveTTL(ttl), Sweeps(old(ops) + 1, old(sweep)))
      ensures ops == old(ops) + if connected && !hit && backend.Some? && EffectiveTTL(ttl) > 0 then 1 else 0
    {
      if !connected {
        return false, false;
      }
      var cached := Lookup(name, now);
      if cached.Some? {
        return cached.value, true;
      }
      hit := false;
      r := Ask(name, now, backend);
    }

    // After a miss.
    method Ask(name: Name, now: int, backend: Option<bool>) returns (r: bool)
      requires Valid()
      modifies this`cache, this`max, this`sweep, this`ops, this`asked
      ensures Valid() && r == (backend == Some(true))
      ensures Learns(old(cache), old(asked), name, backend, now, cache, asked, max, EffectiveTTL(ttl),
                     Sweeps(old(ops) + 1, old(sweep)))
      ensures ops == old(ops) + if backend.Some? && EffectiveTTL(ttl) > 0 then 1 else 0
    {
      if backend.None? {
        return false;
      }
      r := backend.value;
      if EffectiveTTL(ttl) >= 0 {
        var e := Entry(r, now + EffectiveTTL(ttl));
        Remember(name, e, now);
        ShowsLearnt(old(cache), old(asked), name, e, now, cache, asked, max, EffectiveTTL(ttl),
                    Sweeps(old(ops) + 1, old(sweep)));
      }
    }

    // Caches the answer e that the backend gave just now.
    method Remember(name: Name, e: Entry, now: int)
      requires Valid() && e.expires == now + EffectiveTTL(ttl)
      modifies this`cache, this`max, this`sweep, this`ops, this`asked
      ensures Valid() && max == EffectiveMax(old(max)) && asked == old(asked)[name := Answer(e.enabled, now)]
      ensures PutIn(old(cache), name, e, cache, now, max, Sweeps(old(ops) + 1, old(sweep))) && ops == old(ops) + 1
    {
      FillDefaults();
      Put(name, e, now);
      PutTracks(old(cache), name, Answer(e.enabled, now), cache, now, max, Sweeps(old(ops) + 1, old(sweep)),
                old(asked), EffectiveTTL(ttl), e);
      asked := asked[name := Answer(e.enabled, now)];
    }

    method FillDefaults()
      modifies this`max, this`sweep
      ensures max == EffectiveMax(old(max)) == EffectiveMax(max)
      ensures sweep == if old(sweep) == 0 then 64 else old(sweep)
      ensures cache == old(cache) && asked == old(asked)
    {
      max := EffectiveMax(max);
      if sweep == 0 {
        sweep := DEFAULT_SWEEP;
      }
    }

    method Put(name: Name, e: Entry, now: int)
      requires max == EffectiveMax(max) && sweep > 0
      modifies this`cache, this`ops
      ensures |cache| <= max && PutIn(old(cache), name, e, cache, now, max, Sweeps(old(ops) + 1, sweep))
      ensures asked == old(asked) && ops == old(ops) + 1
    {
      cache := cache[name := e];
      ops := ops + 1;
      if |cache| > max || ops % sweep == 0 {
        PruneEnabledCache(now);
      }
    }
  }
}
