/** Byte strings as the command and scheduler code sees them. Only ASCII white space is white space. */
module Text {

  predicate IsSpace(c: char) {
    c == ' ' || c == '\t' || c == '\n' || c == '\r' || c == '\U{0B}' || c == '\U{0C}'
  }

  function TrimLeft(drop: char -> bool, s: string): (r: string)
    ensures |r| <= |s|
    ensures r == "" || !drop(r[0])
  {
    if s != "" && drop(s[0]) then TrimLeft(drop, s[1..]) else s
  }

  lemma {:induction false} TrimLeftEnd(drop: char -> bool, s: string)
    ensures TrimLeft(drop, s) == s[|s| - |TrimLeft(drop, s)|..]
  {
    if s != "" && drop(s[0]) {
      TrimLeftEnd(drop, s[1..]);
    }
  }

  function TrimRight(drop: char -> bool, s: string): (r: string)
    ensures r <= s
    ensures r == "" || !drop(r[|r| - 1])
  {
    if s != "" && drop(s[|s| - 1]) then TrimRight(drop, s[..|s| - 1]) else s
  }

  // The string without the characters at both ends that are to be dropped.
  function TrimBoth(drop: char -> bool, s: string): (r: string)
    ensures r == "" || (!drop(r[0]) && !drop(r[|r| - 1]))
  {
    TrimRight(drop, TrimLeft(drop, s))
  }

  // strings.TrimSpace
  function Trim(s: string): (r: string)
    ensures r == "" || (!IsSpace(r[0]) && !IsSpace(r[|r| - 1]))
  {
    TrimBoth(IsSpace, s)
  }

  predicate Trimmed(s: string) {
    s == [] || (!IsSpace(s[0]) && !IsSpace(s[|s| - 1]))
  }

  // A name that trimming leaves alone and that is not empty.
  predicate Clean(s: string) {
    s != "" && Trimmed(s)
  }

  lemma TrimNothing(drop: char -> bool, s: string)
    requires s != "" ==> !drop(s[0]) && !drop(s[|s| - 1])
    ensures TrimBoth(drop, s) == s
  {
  }

  lemma TrimmedSame(s: string)
    requires Trimmed(s)
    ensures Trim(s) == s
  {
    TrimNothing(IsSpace, s);
  }

  // Trimming changes a string exactly when it begins or ends with white space.
  lemma TrimFixed(s: string)
    ensures Trim(s) == s <==> Trimmed(s)
    ensures Trim(Trim(s)) == Trim(s)
  {
    assert Trimmed(Trim(s));
    TrimmedSame(Trim(s));
    if Trimmed(s) {
      TrimmedSame(s);
    }
  }

  // strings.Fields: the stretches without white space. The second part is the field being read.
  function FieldScan(s: string): (seq<string>, string) {
    if s == "" then ([], "")
    else
      var (out, buf) := FieldScan(s[..|s| - 1]);
      if !IsSpace(s[|s| - 1]) then (out, buf + [s[|s| - 1]])
      else if buf == "" then (out, "")
      else (out + [buf], "")
  }

  function Fields(s: string): seq<string> {
    var (out, buf) := FieldScan(s);
    if buf == "" then out else out + [buf]
  }

  const SPACES := {' ', '\t', '\n', '\r', '\U{0B}', '\U{0C}'}

  // Words with the same white space before each of them.
  function Spread(words: seq<string>, gap: string): string {
    if words == [] then "" else Spread(words[..|words| - 1], gap) + gap + words[|words| - 1]
  }

  predicate Words(words: seq<string>) {
    forall i :: 0 <= i < |words| ==> words[i] != "" && forall c :: c in words[i] ==> c !in SPACES
  }

  // The words are what comes back, wherever the white space is and whatever it is made of.
  lemma FieldsSpread(words: seq<string>, gap: string)
    requires Words(words) && gap != "" && forall c :: c in gap ==> c in SPACES
    ensures Fields(Spread(words, gap)) == words == Fields(Spread(words, gap) + gap)
  {
    SpreadScan(words, gap);
    GapScan(Spread(words, gap), gap);
    LastField(Spread(words, gap), words);
    LastField(Spread(words, gap) + gap, words);
  }

  lemma LastField(s: string, words: seq<string>)
    requires words != [] ==> words[|words| - 1] != ""
    ensures FieldScan(s) == (words, "") ==> Fields(s) == words
    ensures words != [] && FieldScan(s) == (words[..|words| - 1], words[|words| - 1]) ==> Fields(s) == words
    ensures words != [] ==> words[..|words| - 1] + [words[|words| - 1]] == words
  {
  }

  lemma {:induction false} SpreadScan(words: seq<string>, gap: string)
    requires Words(words) && gap != "" && forall c :: c in gap ==> c in SPACES
    ensures FieldScan(Spread(words, gap)) ==
            if words == [] then ([], "") else (words[..|words| - 1], words[|words| - 1])
  {
    if words != [] {
      var n := |words| - 1;
      SpreadScan(words[..n], gap);
      NextField(Spread(words[..n], gap), gap, words[n]);
      assert n > 0 ==> words[..n][..n - 1] + [words[n - 1]] == words[..n];
    }
  }

  lemma NextField(s: string, gap: string, w: string)
    requires gap != "" && forall c :: c in gap ==> c in SPACES
    requires forall c :: c in w ==> c !in SPACES
    ensures var (out, buf) := FieldScan(s); FieldScan(s + gap + w) == (if buf == "" then out else out + [buf], w)
  {
    GapScan(s, gap);
    WordScan(s + gap, w);
    assert "" + w == w;
  }

  lemma {:induction false} GapScan(s: string, gap: string)
    requires gap != "" && forall c :: c in gap ==> c in SPACES
    ensures var (out, buf) := FieldScan(s); FieldScan(s + gap) == (if buf == "" then out else out + [buf], "")
  {
    var n := |gap| - 1;
    assert gap[n] in SPACES && (s + gap)[..|s| + n] == s + gap[..n];
    if n > 0 {
      GapScan(s, gap[..n]);
    } else {
      assert s + gap[..0] == s;
    }
  }

  lemma {:induction false} WordScan(s: string, w: string)
    requires forall c :: c in w ==> c !in SPACES
    ensures var (out, buf) := FieldScan(s); FieldScan(s + w) == (out, buf + w)
  {
    if w == "" {
      assert s + w == s && FieldScan(s).1 + w == FieldScan(s).1;
    } else {
      var n := |w| - 1;
      WordScan(s, w[..n]);
      assert w[n] !in SPACES && (s + w)[..|s| + n] == s + w[..n];
      assert FieldScan(s).1 + w == FieldScan(s).1 + w[..n] + [w[n]];
    }
  }

  predicate Contains(s: string, c: char) {
    c in s
  }

  // The first position of c, or the length where there is none.
  function IndexOf(s: string, c: char): (i: nat)
    ensures i <= |s| && (i < |s| ==> s[i] == c)
    ensures forall j :: 0 <= j < i ==> s[j] != c
  {
    if s == "" || s[0] == c then 0 else 1 + IndexOf(s[1..], c)
  }

  predicate Dashed(a: string) {
    a != "" && a[0] == '-'
  }
}
