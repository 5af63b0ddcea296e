/**
Names for the Telegram command menu, made from routes and aliases. A string is a sequence of Unicode
characters; lower-casing and white space are tables that are only fixed on ASCII.
*/
module Sanitize {
  import opened Wrappers
  import Text

  datatype Tables = Tables(lower: char -> char, space: char -> bool)

  predicate IsLetter(c: char) {
    'a' <= c <= 'z'
  }

  predicate IsDigit(c: char) {
    '0' <= c <= '9'
  }

  predicate IsNameChar(c: char) {
    'a' <= c <= 'z' || '0' <= c <= '9' || c == '_'
  }

  // The tables leave the characters of command names alone.
  ghost predicate Sensible(t: Tables) {
    forall c :: IsNameChar(c) ==> t.lower(c) == c && !t.space(c)
  }

  const MAX_NAME := 32

  function Lower(t: Tables, s: string): (r: string)
    ensures |r| == |s| && forall i :: 0 <= i < |s| ==> r[i] == t.lower(s[i])
  {
    seq(|s|, i requires 0 <= i < |s| => t.lower(s[i]))
  }

  function IsUnderscore(): char -> bool {
    c => c == '_'
  }

  datatype Scan = Scan(buf: string, last: bool)

  function Step(t: Tables, s: Scan, c: char): Scan {
    if IsLetter(c) || IsDigit(c) then Scan(s.buf + [c], false)
    else if c == '_' then (if s.last then s else Scan(s.buf + "_", true))
    else if c == '-' || t.space(c) || c == '/' then (if s.buf != "" && !s.last then Scan(s.buf + "_", true) else s)
    else s
  }

  function Steps(t: Tables, text: string): Scan {
    if text == "" then Scan("", false) else Step(t, Steps(t, text[..|text| - 1]), text[|text| - 1])
  }

  function Cut(s: string): string {
    if |s| > MAX_NAME then Text.TrimRight(IsUnderscore(), s[..MAX_NAME]) else s
  }

  // A name must not begin with a digit.
  function Lettered(s: string): string {
    if s != "" && IsDigit(s[0]) then Cut("cmd_" + s) else s
  }

  function Sanitized(t: Tables, s: string): string {
    Lettered(Cut(Text.TrimBoth(IsUnderscore(), Steps(t, Text.TrimBoth(t.space, Lower(t, s))).buf)))
  }

  method ScanAll(t: Tables, s: string) returns (b: string)
    ensures b == Steps(t, s).buf
  {
    var lastUnderscore := false;
    b := "";
    for i := 0 to |s|
      invariant Scan(b, lastUnderscore) == Steps(t, s[..i])
    {
      var r := s[i];
      assert s[..i + 1][..i] == s[..i];
      if IsLetter(r) || IsDigit(r) {
        b, lastUnderscore := b + [r], false;
        continue;
      }
      if r == '_' {
        if !lastUnderscore {
          b, lastUnderscore := b + "_", true;
        }
        continue;
      }
      if r == '-' || t.space(r) || r == '/' {
        if b != "" && !lastUnderscore {
          b, lastUnderscore := b + "_", true;
        }
        continue;
      }
    }
    assert s[..|s|] == s;
  }

  // sanitizeTelegramCommand
  method SanitizeTelegramCommand(t: Tables, raw: string) returns (out: string)
    ensures out == Sanitized(t, raw)
  {
    var s := Text.TrimBoth(t.space, Lower(t, raw));
    if s == "" {
      return "";
    }
    var b := ScanAll(t, s);
    out := Text.TrimBoth(IsUnderscore(), b);
    if out == "" {
      return "";
    }
    out := Cut(out);
    if out == "" {
      return "";
    }
    if IsDigit(out[0]) {
      out := Cut("cmd_" + out);
    }
  }

  // ----- the names that come out -----

  predicate DoubleAt(s: string, i: nat) {
    i + 1 < |s| && s[i] == '_' && s[i + 1] == '_'
  }

  predicate Spaced(s: string) {
    && (forall i :: 0 <= i < |s| ==> IsNameChar(s[i]))
    && (forall i :: 0 <= i < |s| ==> !DoubleAt(s, i))
  }

  // Empty, or up to 32 name characters that start with a letter, do not end in an underscore, and
  // have no two underscores in a row.
  predicate Legal(s: string) {
    Spaced(s) && |s| <= 32 && (s != "" ==> 'a' <= s[0] <= 'z' && s[|s| - 1] != '_')
  }

  lemma SpacedAppend(s: string, c: char)
    requires Spaced(s)
    ensures IsNameChar(c) && (c == '_' && s != "" ==> s[|s| - 1] != '_') ==> Spaced(s + [c])
  {
    var r := s + [c];
    assert forall i :: 0 <= i < |s| ==> r[i] == s[i];
    forall i | 0 <= i < |r| && DoubleAt(r, i) ensures i == |s| - 1 {
      assert i < |s| ==> !DoubleAt(s, i);
    }
  }

  lemma {:induction false} StepsSpaced(t: Tables, text: string)
    ensures var s := Steps(t, text);
            Spaced(s.buf) && (s.last <==> s.buf != "" && s.buf[|s.buf| - 1] == '_')
  {
    if text != "" {
      StepsSpaced(t, text[..|text| - 1]);
      var b := Steps(t, text[..|text| - 1]).buf;
      SpacedAppend(b, text[|text| - 1]);
      SpacedAppend(b, '_');
    }
  }

  // A stretch of a well spaced string is well spaced.
  lemma SubSpaced(s: string, lo: nat, hi: nat)
    requires Spaced(s) && lo <= hi <= |s|
    ensures Spaced(s[lo..hi])
  {
    var r := s[lo..hi];
    assert forall i :: 0 <= i < |r| ==> r[i] == s[lo + i];
    forall i | 0 <= i < |r| ensures !DoubleAt(r, i) {
      assert !DoubleAt(s, lo + i);
    }
  }

  lemma PrefixSpaced(s: string, r: string)
    requires Spaced(s) && r <= s
    ensures Spaced(r)
  {
    SubSpaced(s, 0, |r|);
    assert r == s[0..|r|];
  }

  lemma TrimmedSpaced(s: string)
    requires Spaced(s)
    ensures var r := Text.TrimBoth(IsUnderscore(), s);
            Spaced(r) && (r != "" ==> r[0] != '_' && r[|r| - 1] != '_')
  {
    var l := Text.TrimLeft(IsUnderscore(), s);
    Text.TrimLeftEnd(IsUnderscore(), s);
    assert l == s[|s| - |l|..|s|];
    SubSpaced(s, |s| - |l|, |s|);
    PrefixSpaced(l, Text.TrimRight(IsUnderscore(), l));
  }

  lemma CutSpaced(s: string)
    requires Spaced(s) && (s != "" ==> s[0] != '_' && s[|s| - 1] != '_')
    ensures var r := Cut(s);
            Spaced(r) && |r| <= MAX_NAME && (r != "" ==> r[0] == s[0] && r[0] != '_' && r[|r| - 1] != '_')
  {
    if |s| > MAX_NAME {
      PrefixSpaced(s, Text.TrimRight(IsUnderscore(), s[..MAX_NAME]));
    }
  }

  lemma CutKeepsFirst(s: string)
    requires s != "" && s[0] != '_'
    ensures Cut(s) != ""
  {
    if |s| > MAX_NAME {
      FirstStays(s[..MAX_NAME]);
    }
  }

  lemma {:induction false} FirstStays(s: string)
    requires s != "" && s[0] != '_'
    ensures Text.TrimRight(IsUnderscore(), s) != ""
  {
    if |s| > 1 && s[|s| - 1] == '_' {
      FirstStays(s[..|s| - 1]);
    }
  }

  lemma LetteredLegal(s: string)
    requires Spaced(s) && |s| <= MAX_NAME && (s != "" ==> s[0] != '_' && s[|s| - 1] != '_')
    ensures Legal(Lettered(s))
  {
    if s != "" && IsDigit(s[0]) {
      var c := "cmd_" + s;
      assert forall i :: 0 <= i < |c| ==> c[i] == if i < 4 then "cmd_"[i] else s[i - 4];
      forall i | 0 <= i < |c| ensures !DoubleAt(c, i) {
        assert i >= 4 ==> !DoubleAt(s, i - 4);
      }
      CutSpaced(c);
    }
  }

  // Every string is turned into a legal name or the empty string.
  lemma SanitizedLegal(t: Tables, s: string)
    ensures Legal(Sanitized(t, s))
  {
    StepsSpaced(t, Text.TrimBoth(t.space, Lower(t, s)));
    ScannedLegal(Steps(t, Text.TrimBoth(t.space, Lower(t, s))).buf);
  }

  lemma ScannedLegal(b: string)
    requires Spaced(b)
    ensures Legal(Lettered(Cut(Text.TrimBoth(IsUnderscore(), b))))
  {
    TrimmedSpaced(b);
    CutSpaced(Text.TrimBoth(IsUnderscore(), b));
    LetteredLegal(Cut(Text.TrimBoth(IsUnderscore(), b)));
  }

  lemma {:induction false} StepsFixed(t: Tables, s: string)
    requires Spaced(s) && (s != "" ==> s[0] != '_')
    ensures Steps(t, s).buf == s
  {
    if s != "" {
      var n := |s| - 1;
      PrefixSpaced(s, s[..n]);
      StepsFixed(t, s[..n]);
      StepsSpaced(t, s[..n]);
      assert s == s[..n] + [s[n]];
      if s[n] == '_' {
        assert !DoubleAt(s, n - 1);
      }
    }
  }

  // Sanitizing leaves a string alone exactly if it is a legal name: the names are the fixed points,
  // so sanitizing twice is sanitizing once.
  lemma FixedPoints(t: Tables, s: string)
    requires Sensible(t)
    ensures Sanitized(t, s) == s <==> Legal(s)
    ensures Sanitized(t, Sanitized(t, s)) == Sanitized(t, s)
  {
    SanitizedLegal(t, s);
    LegalFixed(t, Sanitized(t, s));
    if Legal(s) {
      LegalFixed(t, s);
    }
  }

  lemma LegalText(t: Tables, s: string)
    requires Sensible(t) && Legal(s)
    ensures Steps(t, Text.TrimBoth(t.space, Lower(t, s))).buf == s
  {
    assert Lower(t, s) == s;
    assert s != "" ==> IsNameChar(s[0]) && IsNameChar(s[|s| - 1]);
    Text.TrimNothing(t.space, s);
    StepsFixed(t, s);
  }

  lemma LegalFixed(t: Tables, s: string)
    requires Sensible(t) && Legal(s)
    ensures Sanitized(t, s) == s
  {
    LegalText(t, s);
    Text.TrimNothing(IsUnderscore(), s);
  }

  // ----- what the other characters come to -----

  // A name or what can be part of one after a separator: it may also begin with a digit, and be longer.
  predicate Word(s: string) {
    s != "" && Spaced(s) && s[0] != '_' && s[|s| - 1] != '_'
  }

  predicate Separates(t: Tables, c: char) {
    t.lower(c) == c && (c in {'-', '/', '_'} || t.space(c))
  }

  predicate Vanishes(t: Tables, c: char) {
    t.lower(c) == c && !IsNameChar(c) && c !in {'-', '/'} && !t.space(c)
  }

  lemma OneStep(t: Tables, text: string, c: char)
    ensures Steps(t, text + [c]) == Step(t, Steps(t, text), c)
  {
    assert (text + [c])[..|text|] == text;
  }

  lemma {:induction false} WordSteps(t: Tables, before: string, w: string)
    requires Spaced(w) && (w != "" && Steps(t, before).last ==> w[0] != '_')
    ensures var s := Steps(t, before);
            Steps(t, before + w) == Scan(s.buf + w, if w == "" then s.last else w[|w| - 1] == '_')
  {
    var s := Steps(t, before);
    if w == "" {
      assert before + w == before && s.buf + w == s.buf;
    } else {
      var n := |w| - 1;
      LastOfSpaced(w);
      WordSteps(t, before, w[..n]);
      OneStep(t, before + w[..n], w[n]);
      NameStep(t, Steps(t, before + w[..n]), w[n]);
      Halves(before, w, n);
      Halves(s.buf, w, n);
    }
  }

  lemma LastOfSpaced(w: string)
    requires Spaced(w) && w != ""
    ensures var n := |w| - 1;
            Spaced(w[..n]) && IsNameChar(w[n]) && (n > 0 && w[n] == '_' ==> w[n - 1] != '_')
  {
    var n := |w| - 1;
    PrefixSpaced(w, w[..n]);
    assert n > 0 ==> !DoubleAt(w, n - 1);
  }

  lemma NameStep(t: Tables, s: Scan, c: char)
    requires IsNameChar(c) && (c == '_' ==> !s.last)
    ensures Step(t, s, c) == Scan(s.buf + [c], c == '_')
  {
  }

  lemma Halves(a: string, w: string, n: nat)
    requires n < |w|
    ensures a + w[..n] + [w[n]] == a + w[..n + 1]
    ensures w[..|w|] == w
  {
  }

  lemma SeparatorOnly(t: Tables, c: char)
    requires Sensible(t) && Separates(t, c)
    ensures !IsLetter(c) && !IsDigit(c)
  {
    assert IsNameChar(c) ==> !t.space(c);
  }

  lemma {:induction false} GapSteps(t: Tables, before: string, gap: string)
    requires Sensible(t) && gap != "" && forall c :: c in gap ==> Separates(t, c)
    requires Steps(t, before).buf != "" && !Steps(t, before).last
    ensures Steps(t, before + gap) == Scan(Steps(t, before).buf + "_", true)
  {
    var n := |gap| - 1;
    assert (before + gap)[..|before| + n] == before + gap[..n];
    SeparatorOnly(t, gap[n]);
    if n == 0 {
      assert before + gap[..0] == before;
    } else {
      GapSteps(t, before, gap[..n]);
    }
  }

  lemma {:induction false} JunkSteps(t: Tables, before: string, junk: string)
    requires forall c :: c in junk ==> Vanishes(t, c)
    ensures Steps(t, before + junk) == Steps(t, before)
  {
    if junk == "" {
      assert before + junk == before;
    } else {
      var n := |junk| - 1;
      assert (before + junk)[..|before| + n] == before + junk[..n];
      assert Vanishes(t, junk[n]);
      JunkSteps(t, before, junk[..n]);
    }
  }

  lemma Unchanged(t: Tables, a: string, mid: string, b: string)
    requires Sensible(t) && Word(a) && Word(b) && forall c :: c in mid ==> t.lower(c) == c
    ensures Text.TrimBoth(t.space, Lower(t, a + mid + b)) == a + mid + b
  {
    var s := a + mid + b;
    assert forall i :: 0 <= i < |s| ==> s[i] in a || s[i] in mid || s[i] in b;
    assert Lower(t, s) == s;
    assert s[0] == a[0] && s[|s| - 1] == b[|b| - 1];
    Text.TrimNothing(t.space, s);
  }

  lemma FromScan(t: Tables, s: string, name: string)
    requires Text.TrimBoth(t.space, Lower(t, s)) == s && Steps(t, s).buf == name && Legal(name)
    ensures Sanitized(t, s) == name
  {
    Text.TrimNothing(IsUnderscore(), name);
  }

  lemma FromMiddle(t: Tables, a: string, mid: string, b: string, name: string)
    requires Sensible(t) && Word(a) && Word(b) && forall c :: c in mid ==> t.lower(c) == c
    requires Steps(t, a + mid + b).buf == name && Legal(name)
    ensures Sanitized(t, a + mid + b) == name
  {
    Unchanged(t, a, mid, b);
    FromScan(t, a + mid + b, name);
  }

  lemma GapScanned(t: Tables, a: string, gap: string, b: string)
    requires Sensible(t) && Word(a) && Word(b) && gap != "" && forall c :: c in gap ==> Separates(t, c)
    ensures Steps(t, a + gap + b).buf == a + "_" + b
  {
    assert "" + a == a;
    WordSteps(t, "", a);
    GapSteps(t, a, gap);
    WordSteps(t, a + gap, b);
  }

  lemma JunkScanned(t: Tables, a: string, junk: string, b: string)
    requires Word(a) && Word(b) && forall c :: c in junk ==> Vanishes(t, c)
    ensures Steps(t, a + junk + b).buf == a + b
  {
    assert "" + a == a;
    WordSteps(t, "", a);
    JunkSteps(t, a, junk);
    WordSteps(t, a + junk, b);
  }

  // Dashes, slashes, underscores and white space between two parts of a name become one underscore,
  // however many there are.
  lemma SeparatorsJoin(t: Tables, a: string, gap: string, b: string)
    requires Sensible(t) && Word(a) && Word(b) && IsLetter(a[0]) && |a| + 1 + |b| <= 32
    requires gap != "" && forall c :: c in gap ==> Separates(t, c)
    ensures Sanitized(t, a + gap + b) == a + "_" + b
  {
    GapScanned(t, a, gap, b);
    JoinedLegal(a, b);
    FromMiddle(t, a, gap, b, a + "_" + b);
  }

  lemma JoinedLegal(a: string, b: string)
    requires Word(a) && Word(b)
    ensures Word(a + "_" + b)
    ensures IsLetter(a[0]) && |a| + 1 + |b| <= 32 ==> Legal(a + "_" + b)
  {
    var r := a + "_" + b;
    assert forall i :: 0 <= i < |r| ==> r[i] == if i < |a| then a[i] else if i == |a| then '_' else b[i - |a| - 1];
    forall i | 0 <= i < |r| ensures !DoubleAt(r, i) {
      assert i < |a| ==> !DoubleAt(a, i);
      assert i > |a| ==> !DoubleAt(b, i - |a| - 1);
    }
  }

  // Any other character vanishes.
  lemma OthersVanish(t: Tables, a: string, junk: string, b: string)
    requires Sensible(t) && Word(a) && Word(b) && IsLetter(a[0]) && |a| + |b| <= 32
    requires forall c :: c in junk ==> Vanishes(t, c)
    ensures Sanitized(t, a + junk + b) == a + b
  {
    JunkScanned(t, a, junk, b);
    TouchingLegal(a, b);
    FromMiddle(t, a, junk, b, a + b);
  }

  lemma TouchingLegal(a: string, b: string)
    requires Word(a) && Word(b) && IsLetter(a[0]) && |a| + |b| <= 32
    ensures Legal(a + b)
  {
    var r := a + b;
    assert forall i :: 0 <= i < |r| ==> r[i] == if i < |a| then a[i] else b[i - |a|];
    forall i | 0 <= i < |r| ensures !DoubleAt(r, i) {
      assert i < |a| ==> !DoubleAt(a, i);
      assert i >= |a| ==> !DoubleAt(b, i - |a|);
    }
  }

  lemma WordText(t: Tables, s: string)
    requires Sensible(t) && Word(s)
    ensures Steps(t, Text.TrimBoth(t.space, Lower(t, s))).buf == s
    ensures Text.TrimBoth(IsUnderscore(), s) == s
  {
    assert Lower(t, s) == s;
    assert IsNameChar(s[0]) && IsNameChar(s[|s| - 1]);
    Text.TrimNothing(t.space, s);
    Text.TrimNothing(IsUnderscore(), s);
    StepsFixed(t, s);
  }

  // What begins with a digit gets a prefix.
  lemma DigitFirst(t: Tables, s: string)
    requires Sensible(t) && Word(s) && IsDigit(s[0]) && |s| <= 28
    ensures Sanitized(t, s) == "cmd_" + s
  {
    WordText(t, s);
  }

  lemma TrimmedOnce(c: string)
    requires |c| > 1 && (c[|c| - 1] == '_' ==> c[|c| - 2] != '_')
    ensures Text.TrimRight(IsUnderscore(), c) == if c[|c| - 1] == '_' then c[..|c| - 1] else c
  {
  }

  // What is too long is cut to 32 characters, or 31 where the last of them would be an underscore.
  lemma CutTo32(t: Tables, s: string)
    requires Sensible(t) && Word(s) && IsLetter(s[0]) && |s| > 32
    ensures Sanitized(t, s) == if s[31] == '_' then s[..31] else s[..32]
  {
    WordText(t, s);
    assert !DoubleAt(s, 30);
    CutSpaced(s);
    TrimmedOnce(s[..32]);
    assert s[..32][..31] == s[..31];
  }

  predicate Bare(s: string) {
    forall i :: 0 <= i < |s| ==> s[i] == '_'
  }

  predicate Wordless(s: string) {
    forall i :: 0 <= i < |s| ==> !IsLetter(s[i]) && !IsDigit(s[i])
  }

  lemma {:induction false} StepsBare(t: Tables, text: string)
    ensures Bare(Steps(t, text).buf) <==> Wordless(text)
  {
    if text != "" {
      var n := |text| - 1;
      StepsBare(t, text[..n]);
      BareAppend(Steps(t, text[..n]).buf, Steps(t, text).buf);
      assert Wordless(text) <==> Wordless(text[..n]) && !IsLetter(text[n]) && !IsDigit(text[n]);
    }
  }

  lemma BareAppend(b: string, c: string)
    requires b <= c && |c| <= |b| + 1
    ensures Bare(c) <==> Bare(b) && (|c| > |b| ==> c[|b|] == '_')
  {
  }

  lemma OnlyUnderscores(s: string)
    ensures Text.TrimBoth(IsUnderscore(), s) == "" <==> Bare(s)
  {
    var l := Text.TrimLeft(IsUnderscore(), s);
    LeftDropsUnderscores(s);
    if l != "" {
      FirstStays(l);
      Text.TrimLeftEnd(IsUnderscore(), s);
      assert l[0] == s[|s| - |l|];
    }
  }

  lemma {:induction false} LeftDropsUnderscores(s: string)
    ensures var l := Text.TrimLeft(IsUnderscore(), s); forall i :: 0 <= i < |s| - |l| ==> s[i] == '_'
  {
    if s != "" && s[0] == '_' {
      LeftDropsUnderscores(s[1..]);
    }
  }

  // A string has no name exactly if no letter and no digit remains of it.
  lemma NamelessExactly(t: Tables, s: string)
    ensures Sanitized(t, s) == "" <==> Wordless(Text.TrimBoth(t.space, Lower(t, s)))
  {
    var text := Text.TrimBoth(t.space, Lower(t, s));
    var b := Steps(t, text).buf;
    StepsBare(t, text);
    OnlyUnderscores(b);
    StepsSpaced(t, text);
    TrimmedSpaced(b);
    StaysNonEmpty(Text.TrimBoth(IsUnderscore(), b));
  }

  lemma StaysNonEmpty(m: string)
    requires Spaced(m) && (m != "" ==> m[0] != '_' && m[|m| - 1] != '_')
    ensures Lettered(Cut(m)) == "" <==> m == ""
  {
    if m != "" {
      CutKeepsFirst(m);
      CutKeepsFirst("cmd_" + Cut(m));
    }
  }

  function Join(route: seq<string>): string {
    if route == [] then "" else if |route| == 1 then route[0]
    else Join(route[..|route| - 1]) + "_" + route[|route| - 1]
  }

  // telegramCommandNameFromRoute: None where there is no name.
  function NameFromRoute(t: Tables, route: seq<string>): Option<string> {
    if route == [] then None
    else
      var out := Sanitized(t, Join(route));
      if out == "" then None else Some(out)
  }

  // The menu name of a route of legal words is the words with an underscore between each two.
  lemma {:induction false} RouteNameSpelled(t: Tables, route: seq<string>, w: string)
    requires Sensible(t) && (forall i :: 0 <= i < |route| ==> route[i] != "" && Legal(route[i])) && w != "" && Legal(w)
    requires route != [] ==> |Join(route)| + 1 + |w| <= 32
    ensures route == [] ==> NameFromRoute(t, route + [w]) == Some(w)
    ensures route != [] ==>
              exists n :: NameFromRoute(t, route) == Some(n) && NameFromRoute(t, route + [w]) == Some(n + "_" + w)
  {
    var all := route + [w];
    if route == [] {
      NameIsJoin(t, [w]);
      assert all == [w];
    } else {
      JoinLegal(route);
      JoinedLegal(Join(route), w);
      assert all[..|all| - 1] == route;
      NameIsJoin(t, route);
      NameIsJoin(t, all);
    }
  }

  lemma NameIsJoin(t: Tables, route: seq<string>)
    requires Sensible(t) && route != [] && Join(route) != "" && Legal(Join(route))
    ensures NameFromRoute(t, route) == Some(Join(route))
  {
    LegalFixed(t, Join(route));
  }

  lemma {:induction false} JoinLegal(route: seq<string>)
    requires route != [] && forall i :: 0 <= i < |route| ==> route[i] != "" && Legal(route[i])
    ensures Word(Join(route)) && IsLetter(Join(route)[0])
  {
    if |route| > 1 {
      JoinLegal(route[..|route| - 1]);
      JoinedLegal(Join(route[..|route| - 1]), route[|route| - 1]);
    }
  }

  lemma RouteNameLegal(t: Tables, route: seq<string>)
    ensures NameFromRoute(t, route).Some? ==>
        NameFromRoute(t, route).value != "" && Legal(NameFromRoute(t, route).value)
  {
    SanitizedLegal(t, Join(route));
  }
}
