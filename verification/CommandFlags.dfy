/**
Arguments to positionals, flags with a value and boolean flags.
*/
module CommandFlags {
  import opened CommandLine
  import opened Text

  datatype Parsed = Parsed(pos: seq<string>, flags: map<string, string>, bools: map<string, bool>)

  const NOTHING := Parsed([], map[], map[])

  predicate IsLong(a: string) {
    |a| > 2 && a[0] == '-' && a[1] == '-'
  }

  predicate IsShort(a: string) {
    |a| > 1 && a[0] == '-' && !IsLong(a)
  }

  // A byte made into a string becomes the UTF-8 form of the character of that number.
  function RuneString(c: char): string {
    if c as int < 0x80 || c as int >= 0x100 then [c]
    else [(0xC0 + c as int / 64) as char, (0x80 + c as int % 64) as char]
  }

  function WithFlag(p: Parsed, k: string, v: string): Parsed {
    p.(flags := p.flags[k := v])
  }

  function WithBool(p: Parsed, k: string): Parsed {
    p.(bools := p.bools[k := true])
  }

  function WithPos(p: Parsed, a: string): Parsed {
    p.(pos := p.pos + [a])
  }

  function WithCluster(p: Parsed, ks: string): Parsed {
    if ks == "" then p else WithBool(WithCluster(p, ks[..|ks| - 1]), RuneString(ks[|ks| - 1]))
  }

  // The name of a flag token: without its dashes.
  function Name(a: string): string
    requires IsLong(a) || IsShort(a)
  {
    if IsLong(a) then a[2..] else a[1..]
  }

  // A flag token takes the next token as its value.
  predicate Grabs(a: string, next: seq<string>) {
    && (IsLong(a) || (IsShort(a) && |a| == 2))
    && IndexOf(Name(a), '=') == |Name(a)|
    && next != [] && !Dashed(next[0])
  }

  // What the first token does by itself.
  function Single(p: Parsed, a: string): Parsed {
    if !IsLong(a) && !IsShort(a) then WithPos(p, a)
    else
      var key := Name(a);
      var eq := IndexOf(key, '=');
      if eq < |key| then WithFlag(p, key[..eq], key[eq + 1..])
      else if IsLong(a) || |key| == 1 then WithBool(p, key)
      else WithCluster(p, key)
  }

  function ParseInto(p: Parsed, args: seq<string>): Parsed
    decreases |args|
  {
    if args == [] then p
    else if Grabs(args[0], args[1..]) then ParseInto(WithFlag(p, Name(args[0]), args[1]), args[2..])
    else ParseInto(Single(p, args[0]), args[1..])
  }

  // parseFlags
  method ParseFlags(args: seq<string>) returns (p: Parsed)
    ensures p == ParseInto(NOTHING, args)
  {
    p := NOTHING;
    var i := 0;
    while i < |args|
      invariant 0 <= i <= |args| && ParseInto(p, args[i..]) == ParseInto(NOTHING, args)
      decreases |args| - i
    {
      var a := args[i];
      assert args[i..][1..] == args[i + 1..];
      assert i + 1 < |args| ==> args[i..][2..] == args[i + 2..];
      if !IsLong(a) && !IsShort(a) {
        p := WithPos(p, a);
        i := i + 1;
        continue;
      }
      var key := Name(a);
      var eq := IndexOf(key, '=');
      if eq < |key| {
        p := WithFlag(p, key[..eq], key[eq + 1..]);
      } else if IsLong(a) || |key| == 1 {
        if i + 1 < |args| && !Dashed(args[i + 1]) {
          p := WithFlag(p, key, args[i + 1]);
          i := i + 2;
          continue;
        }
        p := WithBool(p, key);
      } else {
        p := WithCluster(p, key);
      }
      i := i + 1;
    }
  }

  // ----- what can be written -----

  datatype Item =
    | LongEq(key: string, value: string)
    | LongVal(key: string, value: string)
    | LongBool(key: string)
    | ShortEq(key: string, value: string)
    | ShortVal(k: char, value: string)
    | ShortBool(k: char)
    | Cluster(ks: string)
    | Pos(arg: string)

  predicate NoEq(s: string) {
    forall i :: 0 <= i < |s| ==> s[i] != '='
  }

  // What the syntax can express; -- followed by nothing is the short flag named -.
  predicate Expressible(it: Item) {
    match it
    case LongEq(k, _) => NoEq(k)
    case LongVal(k, v) => k != "" && NoEq(k) && !Dashed(v)
    case LongBool(k) => k != "" && NoEq(k)
    case ShortEq(k, _) => NoEq(k) && !Dashed(k)
    case ShortVal(c, v) => c != '=' && !Dashed(v)
    case ShortBool(c) => c != '='
    case Cluster(ks) => |ks| > 1 && NoEq(ks) && !Dashed(ks)
    case Pos(a) => a == "-" || !Dashed(a)
  }

  function Tokens(it: Item): seq<string> {
    match it
    case LongEq(k, v) => ["--" + k + "=" + v]
    case LongVal(k, v) => ["--" + k, v]
    case LongBool(k) => ["--" + k]
    case ShortEq(k, v) => ["-" + k + "=" + v]
    case ShortVal(c, v) => [['-', c], v]
    case ShortBool(c) => [['-', c]]
    case Cluster(ks) => ["-" + ks]
    case Pos(a) => [a]
  }

  function Meaning(p: Parsed, it: Item): Parsed {
    match it
    case LongEq(k, v) => p.(flags := p.flags[k := v])
    case LongVal(k, v) => p.(flags := p.flags[k := v])
    case LongBool(k) => p.(bools := p.bools[k := true])
    case ShortEq(k, v) => p.(flags := p.flags[k := v])
    case ShortVal(c, v) => p.(flags := p.flags[[c] := v])
    case ShortBool(c) => p.(bools := p.bools[[c] := true])
    case Cluster(ks) => p.(bools := p.bools + AllTrue(Runes(ks)))
    case Pos(a) => p.(pos := p.pos + [a])
  }

  function AllTrue(ks: set<string>): map<string, bool> {
    map k | k in ks :: true
  }

  function Runes(ks: string): set<string> {
    set c | c in ks :: RuneString(c)
  }

  lemma RunesAppend(ks: string, c: char)
    ensures Runes(ks + [c]) == Runes(ks) + {RuneString(c)}
  {
  }

  lemma OneTrue(m: map<string, bool>, ks: set<string>, k: string)
    ensures (m + AllTrue(ks))[k := true] == m + AllTrue(ks + {k})
  {
  }

  // A cluster sets the flag of each of its characters and no other.
  lemma {:induction false} ClusterFlags(p: Parsed, ks: string)
    ensures WithCluster(p, ks) == p.(bools := p.bools + AllTrue(Runes(ks)))
  {
    if ks == "" {
      assert p.bools + AllTrue({}) == p.bools;
    } else {
      var n := |ks| - 1;
      ClusterFlags(p, ks[..n]);
      RunesAppend(ks[..n], ks[n]);
      OneTrue(p.bools, Runes(ks[..n]), RuneString(ks[n]));
      assert ks == ks[..n] + [ks[n]];
    }
  }

  // The name of such a flag is the character in UTF-8: itself below 0x80, and else the two bytes whose
  // low bits, five and six of them, make up its number.
  lemma RuneReadBack(c: char)
    requires c as int < 0x100
    ensures var r := RuneString(c);
            if c as int < 0x80 then r == [c]
            else && |r| == 2 && 0xC0 <= r[0] as int < 0xE0 && 0x80 <= r[1] as int < 0xC0
                 && c as int == (r[0] as int - 0xC0) * 64 + (r[1] as int - 0x80)
  {
    var n := c as int;
    assert n == n / 64 * 64 + n % 64;
    assert 2 <= n / 64 < 4 || n < 0x80;
  }

  function AllTokens(its: seq<Item>): seq<string> {
    if its == [] then [] else Tokens(its[0]) + AllTokens(its[1..])
  }

  function AllMeaning(p: Parsed, its: seq<Item>): Parsed
    decreases |its|
  {
    if its == [] then p else AllMeaning(Meaning(p, its[0]), its[1..])
  }

  predicate AllExpressible(its: seq<Item>) {
    forall i :: 0 <= i < |its| ==> Expressible(its[i])
  }

  predicate IsBool(it: Item) {
    it.LongBool? || it.ShortBool?
  }

  // A boolean flag right before a positional that it would take as its value.
  predicate Swallows(its: seq<Item>) {
    |its| > 1 && IsBool(its[0]) && its[1].Pos? && !Dashed(its[1].arg)
  }

  predicate NothingSwallowed(its: seq<Item>)
    decreases |its|
  {
    its == [] || (!Swallows(its) && NothingSwallowed(its[1..]))
  }

  lemma FirstEq(k: string, v: string)
    requires NoEq(k)
    ensures IndexOf(k + "=" + v, '=') == |k|
    ensures IndexOf(k, '=') == |k|
    ensures (k + "=" + v)[..|k|] == k && (k + "=" + v)[|k| + 1..] == v
  {
    var s := k + "=" + v;
    assert s[|k|] == '=' && forall j :: 0 <= j < |k| ==> s[j] == k[j];
  }

  lemma NoEqIndex(k: string)
    requires NoEq(k)
    ensures IndexOf(k, '=') == |k|
  {
  }

  // Items of one token: the token alone means what the item means.
  lemma SingleMeaning(p: Parsed, it: Item)
    requires Expressible(it) && !it.LongVal? && !it.ShortVal?
    ensures Single(p, Tokens(it)[0]) == Meaning(p, it)
  {
    match it
    case LongEq(k, v) =>
      FirstEq(k, v);
      assert ("--" + k + "=" + v)[2..] == k + "=" + v;
    case ShortEq(k, v) =>
      FirstEq(k, v);
      assert ("-" + k + "=" + v)[1..] == k + "=" + v;
      assert !IsLong("-" + k + "=" + v);
    case LongBool(k) =>
      NoEqIndex(k);
      assert ("--" + k)[2..] == k;
    case ShortBool(c) =>
      NoEqIndex([c]);
      assert ['-', c][1..] == [c];
    case Cluster(ks) =>
      ClusterFlags(p, ks);
      NoEqIndex(ks);
      assert ("-" + ks)[1..] == ks;
    case Pos(a) =>
  }

  lemma NoGrab(it: Item, rest: seq<string>)
    requires Expressible(it) && !it.LongVal? && !it.ShortVal?
    requires IsBool(it) ==> rest == [] || Dashed(rest[0])
    ensures !Grabs(Tokens(it)[0], rest)
  {
    match it
    case LongEq(k, v) =>
      FirstEq(k, v);
      assert ("--" + k + "=" + v)[2..] == k + "=" + v;
    case ShortEq(k, v) =>
      FirstEq(k, v);
      assert ("-" + k + "=" + v)[1..] == k + "=" + v;
      assert !IsLong("-" + k + "=" + v);
    case _ =>
  }

  // A flag with its value in the next token.
  lemma Grabbed(a: string, v: string, rest: seq<string>, p: Parsed)
    requires IsLong(a) || (IsShort(a) && |a| == 2)
    requires NoEq(Name(a)) && !Dashed(v)
    ensures ParseInto(p, [a, v] + rest) == ParseInto(WithFlag(p, Name(a), v), rest)
  {
    var args := [a, v] + rest;
    NoEqIndex(Name(a));
    assert args[1..][0] == v && args[2..] == rest;
  }

  lemma ItemStep(p: Parsed, it: Item, rest: seq<string>)
    requires Expressible(it)
    requires IsBool(it) ==> rest == [] || Dashed(rest[0])
    ensures ParseInto(p, Tokens(it) + rest) == ParseInto(Meaning(p, it), rest)
  {
    match it
    case LongVal(k, v) =>
      assert ("--" + k)[2..] == k;
      Grabbed("--" + k, v, rest, p);
    case ShortVal(c, v) =>
      assert ['-', c][1..] == [c];
      Grabbed(['-', c], v, rest, p);
    case _ =>
      var args := Tokens(it) + rest;
      assert args[0] == Tokens(it)[0] && args[1..] == rest;
      NoGrab(it, rest);
      SingleMeaning(p, it);
  }

  lemma SwallowStep(p: Parsed, its: seq<Item>)
    requires AllExpressible(its) && Swallows(its)
    ensures exists k :: ParseInto(p, AllTokens(its)) == ParseInto(WithFlag(p, k, its[1].arg), AllTokens(its[2..]))
  {
    var a, v, rest := Tokens(its[0])[0], its[1].arg, AllTokens(its[2..]);
    assert its[1..][0] == its[1] && its[1..][1..] == its[2..];
    assert AllTokens(its) == [a] + ([v] + rest);
    assert AllTokens(its) == [a, v] + rest;
    assert Expressible(its[0]);
    if its[0].LongBool? {
      assert a[2..] == its[0].key;
    } else {
      assert a[1..] == [its[0].k];
    }
    Grabbed(a, v, rest, p);
  }

  lemma FirstToken(its: seq<Item>)
    requires AllExpressible(its) && its != []
    ensures AllTokens(its) != [] && AllTokens(its)[0] == Tokens(its[0])[0]
    ensures !Dashed(AllTokens(its)[0]) <==> its[0].Pos? && !Dashed(its[0].arg)
  {
  }

  lemma {:induction false} ParsePrinted(p: Parsed, its: seq<Item>)
    requires AllExpressible(its) && NothingSwallowed(its)
    ensures ParseInto(p, AllTokens(its)) == AllMeaning(p, its)
    decreases |its|
  {
    if its != [] {
      if |its| > 1 {
        FirstToken(its[1..]);
      }
      ItemStep(p, its[0], AllTokens(its[1..]));
      ParsePrinted(Meaning(p, its[0]), its[1..]);
    }
  }

  function Positionals(its: seq<Item>): nat {
    if its == [] then 0 else (if its[0].Pos? then 1 else 0) + Positionals(its[1..])
  }

  function Lost(its: seq<Item>): nat
    decreases |its|
  {
    if its == [] then 0
    else if Swallows(its) then 1 + Lost(its[2..])
    else Lost(its[1..])
  }

  lemma {:induction false} LostNothing(its: seq<Item>)
    ensures Lost(its) == 0 <==> NothingSwallowed(its)
    decreases |its|
  {
    if its != [] && !Swallows(its) {
      LostNothing(its[1..]);
    }
  }

  lemma {:induction false} MeaningPositionals(p: Parsed, its: seq<Item>)
    ensures |AllMeaning(p, its).pos| == |p.pos| + Positionals(its)
    decreases |its|
  {
    if its != [] {
      MeaningPositionals(Meaning(p, its[0]), its[1..]);
    }
  }

  lemma {:induction false} ParsedPositionals(p: Parsed, its: seq<Item>)
    requires AllExpressible(its)
    ensures |ParseInto(p, AllTokens(its)).pos| == |p.pos| + Positionals(its) - Lost(its)
    decreases |its|
  {
    if its == [] {
    } else if Swallows(its) {
      SwallowStep(p, its);
      var k :| ParseInto(p, AllTokens(its)) == ParseInto(WithFlag(p, k, its[1].arg), AllTokens(its[2..]));
      ParsedPositionals(WithFlag(p, k, its[1].arg), its[2..]);
      assert its[1..][1..] == its[2..] && !its[0].Pos?;
      assert Positionals(its) == Positionals(its[1..]) == 1 + Positionals(its[2..]);
    } else {
      if |its| > 1 {
        FirstToken(its[1..]);
      }
      ItemStep(p, its[0], AllTokens(its[1..]));
      ParsedPositionals(Meaning(p, its[0]), its[1..]);
    }
  }

  // Parsing what was written gives back what was meant - flags with their last value, boolean flags,
  // positionals in order - exactly if no boolean flag stands right before a positional.
  lemma ParseExactly(its: seq<Item>)
    requires AllExpressible(its)
    ensures ParseInto(NOTHING, AllTokens(its)) == AllMeaning(NOTHING, its) <==> NothingSwallowed(its)
  {
    LostNothing(its);
    if NothingSwallowed(its) {
      ParsePrinted(NOTHING, its);
    } else {
      ParsedPositionals(NOTHING, its);
      MeaningPositionals(NOTHING, its);
    }
  }

  // The whole way: a word and its arguments, printed in quotes, tokenized, parsed.
  lemma CommandRoundTrip(word: string, st: Style, its: seq<Item>)
    requires Plain(word) && Proper(st) && AllExpressible(its) && NothingSwallowed(its) && AllNonEmpty(AllTokens(its))
    ensures var tokens := Tokenize(Printed(word, st, AllTokens(its)));
            && tokens != [] && tokens[0] == word
            && ParseInto(NOTHING, tokens[1..]) == AllMeaning(NOTHING, its)
  {
    TokenizeExact(word, st, AllTokens(its));
    assert ([word] + AllTokens(its))[1..] == AllTokens(its);
    ParseExactly(its);
  }
}
