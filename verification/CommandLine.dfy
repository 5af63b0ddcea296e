/**
Command text to tokens. Strings are byte strings; quotes of either kind group, a backslash takes the
next character as it is, and white space outside quotes separates.
*/
module CommandLine {
  import opened Int64
  import opened Wrappers
  import Text

  // The tokenizer between two characters.
  datatype Scan = Scan(out: seq<string>, buf: string, inQ: bool, q: char, esc: bool)

  const START := Scan([], "", false, ' ', false)

  predicate IsQuote(c: char) {
    c == '"' || c == '\''
  }

  predicate IsBlank(c: char) {
    c == ' ' || c == '\t' || c == '\n' || c == '\r'
  }

  function Flushed(s: Scan): Scan {
    if s.buf == "" then s else s.(out := s.out + [s.buf], buf := "")
  }

  function Step(s: Scan, c: char): Scan {
    if s.esc then s.(buf := s.buf + [c], esc := false)
    else if c == '\\' then s.(esc := true)
    else if s.inQ then (if c == s.q then s.(inQ := false) else s.(buf := s.buf + [c]))
    else if IsQuote(c) then s.(inQ := true, q := c)
    else if IsBlank(c) then Flushed(s)
    else s.(buf := s.buf + [c])
  }

  function Steps(s: Scan, text: string): Scan {
    if text == "" then s else Step(Steps(s, text[..|text| - 1]), text[|text| - 1])
  }

  function Tokenize(text: string): seq<string> {
    Flushed(Steps(START, Text.Trim(text))).out
  }

  // tokenizeCommandLine
  method TokenizeCommandLine(text: string) returns (tokens: seq<string>)
    ensures tokens == Tokenize(text)
  {
    var s := Text.Trim(text);
    var out, buf, inQ, q, esc := [], "", false, ' ', false;
    for i := 0 to |s|
      invariant Scan(out, buf, inQ, q, esc) == Steps(START, s[..i])
    {
      var ch := s[i];
      assert s[..i + 1][..i] == s[..i];
      if esc {
        buf, esc := buf + [ch], false;
      } else if ch == '\\' {
        esc := true;
      } else if inQ {
        if ch == q {
          inQ := false;
        } else {
          buf := buf + [ch];
        }
      } else if IsQuote(ch) {
        inQ, q := true, ch;
      } else if IsBlank(ch) {
        if buf != "" {
          out, buf := out + [buf], "";
        }
      } else {
        buf := buf + [ch];
      }
    }
    assert s[..|s|] == s;
    if buf != "" {
      out := out + [buf];
    }
    tokens := out;
  }

  predicate AllNonEmpty(ts: seq<string>) {
    forall i :: 0 <= i < |ts| ==> ts[i] != ""
  }

  lemma {:induction false} StepsNonEmpty(s: Scan, text: string)
    requires AllNonEmpty(s.out)
    ensures AllNonEmpty(Steps(s, text).out)
  {
    if text != "" {
      StepsNonEmpty(s, text[..|text| - 1]);
    }
  }

  // No text yields an empty token, quoted or not.
  lemma TokensNonEmpty(text: string)
    ensures AllNonEmpty(Tokenize(text))
  {
    StepsNonEmpty(START, Text.Trim(text));
  }

  lemma {:induction false} StepsAppend(s: Scan, a: string, b: string)
    ensures Steps(s, a + b) == Steps(Steps(s, a), b)
  {
    if b == "" {
      assert a + b == a;
    } else {
      var n := |b| - 1;
      StepsAppend(s, a, b[..n]);
      assert (a + b)[..|a + b| - 1] == a + b[..n];
    }
  }

  // ----- printing -----

  // How an argument is printed: its first characters as they are, the others in quotes, and which
  // characters get a backslash although they need none. White space stands between arguments.
  datatype Style = Style(bare: nat, q: char, also: char -> bool, sep: string)

  const BLANKS := {' ', '\t', '\n', '\r'}

  predicate Proper(st: Style) {
    st.q in {'"', '\''} && st.sep != "" && forall c :: c in st.sep ==> c in BLANKS
  }

  // The characters that need a backslash: in quotes, the quote and the backslash.
  function Special(q: Option<char>): set<char> {
    if q.Some? then {q.value, '\\'} else {'"', '\'', '\\'} + BLANKS
  }

  function Escaped(special: set<char>, also: char -> bool, a: string): string {
    if a == "" then ""
    else
      var c := a[|a| - 1];
      Escaped(special, also, a[..|a| - 1]) + (if c in special || also(c) then ['\\', c] else [c])
  }

  function Bare(st: Style, a: string): string {
    Escaped(Special(None), st.also, a[..Min(st.bare, |a|)])
  }

  function Quoted(st: Style, a: string): string {
    [st.q] + Escaped(Special(Some(st.q)), st.also, a[Min(st.bare, |a|)..])
  }

  function Argument(st: Style, a: string): string {
    Bare(st, a) + Quoted(st, a) + [st.q]
  }

  function Printed(word: string, st: Style, args: seq<string>): string {
    if args == [] then word
    else Printed(word, st, args[..|args| - 1]) + st.sep + Argument(st, args[|args| - 1])
  }

  // A word that needs no quoting.
  predicate Plain(w: string) {
    w != "" && Text.Trimmed(w) && forall i :: 0 <= i < |w| ==> w[i] !in Special(None)
  }

  function NonEmpty(ts: seq<string>): seq<string> {
    if ts == [] then []
    else NonEmpty(ts[..|ts| - 1]) + (if ts[|ts| - 1] == "" then [] else [ts[|ts| - 1]])
  }

  lemma {:induction false} PlainSteps(s: Scan, w: string)
    requires !s.esc && !s.inQ && forall i :: 0 <= i < |w| ==> w[i] !in Special(None)
    ensures Steps(s, w) == s.(buf := s.buf + w)
  {
    if w == "" {
      assert s.buf + w == s.buf;
    } else {
      PlainSteps(s, w[..|w| - 1]);
      assert w == w[..|w| - 1] + [w[|w| - 1]];
    }
  }

  lemma {:induction false} EscapedSteps(s: Scan, also: char -> bool, a: string)
    requires !s.esc
    ensures Steps(s, Escaped(Special(if s.inQ then Some(s.q) else None), also, a)) == s.(buf := s.buf + a)
  {
    if a == "" {
      assert s.buf + a == s.buf;
    } else {
      var n, special := |a| - 1, Special(if s.inQ then Some(s.q) else None);
      EscapedSteps(s, also, a[..n]);
      var tail := if a[n] in special || also(a[n]) then ['\\', a[n]] else [a[n]];
      StepsAppend(s, Escaped(special, also, a[..n]), tail);
      TailSteps(s.(buf := s.buf + a[..n]), a[n], a[n] in special || also(a[n]));
      assert s.buf + a[..n] + [a[n]] == s.buf + a;
    }
  }

  lemma TailSteps(s: Scan, c: char, escaped: bool)
    requires !s.esc && (!escaped ==> c !in Special(if s.inQ then Some(s.q) else None))
    ensures Steps(s, if escaped then ['\\', c] else [c]) == s.(buf := s.buf + [c])
  {
    if escaped {
      OneStep(s, '\\');
      assert ['\\', c][..1] == ['\\'];
    } else {
      OneStep(s, c);
    }
  }

  lemma OneStep(s: Scan, c: char)
    ensures Steps(s, [c]) == Step(s, c)
  {
    assert [c][..0] == [];
  }

  lemma OpenSteps(s: Scan, st: Style, text: string)
    requires !s.esc && !s.inQ && Proper(st)
    ensures Steps(s, [st.q] + Escaped(Special(Some(st.q)), st.also, text))
            == s.(buf := s.buf + text, inQ := true, q := st.q)
  {
    OneStep(s, st.q);
    StepsAppend(s, [st.q], Escaped(Special(Some(st.q)), st.also, text));
    EscapedSteps(s.(inQ := true, q := st.q), st.also, text);
  }

  // Up to its last quote an argument adds exactly its text to the token being built.
  lemma QuotedSteps(s: Scan, st: Style, a: string)
    requires !s.esc && !s.inQ && Proper(st)
    ensures Steps(s, Bare(st, a) + Quoted(st, a)) == s.(buf := s.buf + a, inQ := true, q := st.q)
  {
    var k := Min(st.bare, |a|);
    StepsAppend(s, Bare(st, a), Quoted(st, a));
    EscapedSteps(s, st.also, a[..k]);
    OpenSteps(s.(buf := s.buf + a[..k]), st, a[k..]);
    Halves(s.buf, a, k);
  }

  lemma Halves(b: string, a: string, k: nat)
    requires k <= |a|
    ensures b + a[..k] + a[k..] == b + a
  {
  }

  lemma ArgumentSteps(s: Scan, st: Style, a: string)
    requires !s.esc && !s.inQ && Proper(st)
    ensures Steps(s, Argument(st, a)) == s.(buf := s.buf + a, q := st.q)
  {
    QuotedSteps(s, st, a);
    StepsAppend(s, Bare(st, a) + Quoted(st, a), [st.q]);
    OneStep(s.(buf := s.buf + a, inQ := true, q := st.q), st.q);
  }

  lemma {:induction false} BlankSteps(s: Scan, sep: string)
    requires !s.esc && !s.inQ && sep != "" && forall c :: c in sep ==> c in BLANKS
    ensures Steps(s, sep) == Flushed(s)
  {
    var n := |sep| - 1;
    assert sep[n] in BLANKS;
    if n == 0 {
      assert sep == [sep[0]];
      OneStep(s, sep[0]);
    } else {
      BlankSteps(s, sep[..n]);
    }
  }

  lemma {:induction false} PrintedSteps(word: string, st: Style, args: seq<string>)
    requires Plain(word) && Proper(st)
    ensures var s := Steps(START, Printed(word, st, args));
            !s.esc && !s.inQ && Flushed(s).out == [word] + NonEmpty(args)
  {
    if args == [] {
      PlainSteps(START, word);
      assert START.buf + word == word;
      assert [word] + NonEmpty(args) == [word];
    } else {
      var n := |args| - 1;
      PrintedSteps(word, st, args[..n]);
      SeparatedSteps(word, st, args[..n], Argument(st, args[n]));
      var s := Flushed(Steps(START, Printed(word, st, args[..n])));
      ArgumentSteps(s, st, args[n]);
      LastToken(s, args[n], st.q);
      NonEmptyStep(word, args);
    }
  }

  lemma NonEmptyStep(word: string, args: seq<string>)
    requires args != []
    ensures var n := |args| - 1;
            [word] + NonEmpty(args[..n]) + (if args[n] == "" then [] else [args[n]]) == [word] + NonEmpty(args)
  {
    var n := |args| - 1;
    Regroup([word], NonEmpty(args[..n]), if args[n] == "" then [] else [args[n]]);
  }

  lemma Regroup(a: seq<string>, b: seq<string>, c: seq<string>)
    ensures a + b + c == a + (b + c)
  {
  }

  lemma SeparatedSteps(word: string, st: Style, args: seq<string>, tail: string)
    requires Proper(st) && !Steps(START, Printed(word, st, args)).esc && !Steps(START, Printed(word, st, args)).inQ
    ensures Steps(START, Printed(word, st, args) + st.sep + tail)
            == Steps(Flushed(Steps(START, Printed(word, st, args))), tail)
  {
    var before := Printed(word, st, args);
    StepsAppend(START, before, st.sep);
    BlankSteps(Steps(START, before), st.sep);
    StepsAppend(START, before + st.sep, tail);
  }

  lemma LastToken(s: Scan, a: string, q: char)
    requires s.buf == ""
    ensures Flushed(s.(buf := s.buf + a, q := q)).out == s.out + (if a == "" then [] else [a])
  {
    assert s.buf + a == a;
  }

  lemma {:induction false} PrintedTrimmed(word: string, st: Style, args: seq<string>)
    requires Plain(word) && Proper(st)
    ensures var t := Printed(word, st, args); t != "" && Text.Trimmed(t) && t[0] == word[0]
  {
    if args != [] {
      PrintedTrimmed(word, st, args[..|args| - 1]);
    }
  }

  // Printing a plain word and any arguments and tokenizing again returns the word and exactly the
  // arguments that are not empty, whatever characters they contain and whatever blanks separate them.
  lemma TokenizePrinted(word: string, st: Style, args: seq<string>)
    requires Plain(word) && Proper(st)
    ensures Tokenize(Printed(word, st, args)) == [word] + NonEmpty(args)
  {
    PrintedTrimmed(word, st, args);
    Text.TrimFixed(Printed(word, st, args));
    PrintedSteps(word, st, args);
  }

  // A last quote that is missing is forgiven: an argument that does not end in white space is read all the same.
  lemma Unclosed(word: string, st: Style, args: seq<string>, a: string)
    requires Plain(word) && Proper(st) && st.bare < |a| && !Text.IsSpace(a[|a| - 1])
    ensures Tokenize(Printed(word, st, args) + st.sep + (Bare(st, a) + Quoted(st, a))) == [word] + NonEmpty(args) + [a]
  {
    PrintedTrimmed(word, st, args);
    PrintedSteps(word, st, args);
    SeparatedSteps(word, st, args, Bare(st, a) + Quoted(st, a));
    QuotedSteps(Flushed(Steps(START, Printed(word, st, args))), st, a);
    LastToken(Flushed(Steps(START, Printed(word, st, args))), a, st.q);
    EndsAlike(st, a);
    TrimmedJoin(Printed(word, st, args), st.sep, Bare(st, a) + Quoted(st, a));
  }

  lemma EndsAlike(st: Style, a: string)
    requires st.bare < |a|
    ensures Quoted(st, a) != "" && Quoted(st, a)[|Quoted(st, a)| - 1] == a[|a| - 1]
  {
    assert a[st.bare..][|a| - st.bare - 1] == a[|a| - 1];
  }

  lemma TrimmedJoin(a: string, b: string, c: string)
    requires a != "" && c != "" && !Text.IsSpace(a[0]) && !Text.IsSpace(c[|c| - 1])
    ensures Text.Trim(a + b + c) == a + b + c
  {
    Text.TrimFixed(a + b + c);
  }

  // So is a lone backslash at the end.
  lemma Dangling(text: string)
    requires Text.Clean(text) && !Steps(START, text).esc
    ensures Tokenize(text + ['\\']) == Tokenize(text)
  {
    var s := Steps(START, text);
    Trailing(text, '\\');
    assert Flushed(s.(esc := true)).out == Flushed(s).out;
    Text.TrimmedSame(text);
  }

  lemma Trailing(text: string, c: char)
    requires Text.Clean(text) && !Text.IsSpace(c)
    ensures Tokenize(text + [c]) == Flushed(Step(Steps(START, text), c)).out
  {
    var longer := text + [c];
    assert Text.Trim(longer) == longer by {
      Text.TrimmedSame(longer);
    }
    assert longer[..|longer| - 1] == text;
    assert Steps(START, longer) == Step(Steps(START, text), c);
  }

  // So the round trip is exact just when no argument is empty.
  lemma TokenizeExact(word: string, st: Style, args: seq<string>)
    requires Plain(word) && Proper(st)
    ensures Tokenize(Printed(word, st, args)) == [word] + args <==> AllNonEmpty(args)
  {
    TokenizePrinted(word, st, args);
    NonEmptyAll(args);
    SameTail(word, args, NonEmpty(args));
  }

  lemma SameTail(w: string, a: seq<string>, b: seq<string>)
    ensures [w] + a == [w] + b <==> a == b
  {
    assert ([w] + a)[1..] == a && ([w] + b)[1..] == b;
  }

  lemma {:induction false} NonEmptyAll(ts: seq<string>)
    ensures |NonEmpty(ts)| <= |ts| && (NonEmpty(ts) == ts <==> AllNonEmpty(ts))
  {
    if ts != [] {
      var n := |ts| - 1;
      NonEmptyAll(ts[..n]);
      assert ts == ts[..n] + [ts[n]];
      if NonEmpty(ts) == ts {
        assert ts[n] != "";
        assert NonEmpty(ts)[..n] == NonEmpty(ts[..n]);
      }
    }
  }
}
