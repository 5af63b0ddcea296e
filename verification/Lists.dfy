/** Sequences: the end of one, which a bounded store keeps, and sequences without repetition. */
module Lists {

  // The last n elements, or all of them.
  function Last<T>(s: seq<T>, n: nat): (r: seq<T>)
    ensures |r| == if |s| < n then |s| else n
  {
    if |s| > n then s[|s| - n..] else s
  }

  // Keeping the last ones at every step keeps the last ones of the whole.
  lemma LastAppend<T>(s: seq<T>, x: T, n: nat)
    requires n > 0
    ensures Last(Last(s, n) + [x], n) == Last(s + [x], n)
  {
  }

  lemma LastShorter<T>(s: seq<T>, x: T, m: nat, n: nat)
    requires m <= |s|
    ensures Last(Last(s, m) + [x], n) == Last(s + [x], if m + 1 < n then m + 1 else n)
  {
    assert Last(s, m) == s[|s| - m..];
    assert Last(s, m) + [x] == (s + [x])[|s| - m..];
  }

  predicate Distinct<T(==)>(s: seq<T>) {
    forall i, j :: 0 <= i < j < |s| ==> s[i] != s[j]
  }
}
