/**
The registry built from a list of commands: which command each route stands for, which names are
shortcuts, and where a message's words lead.

A command first becomes an Entry: its route in words, its menu name, and its usable aliases, each with
its Telegram-safe form. What the registry makes of entries does not depend on how names are cleaned up.
*/
module CommandRegistry {
  import opened Wrappers
  import opened CommandTree
  import Sanitize
  import Text

  // ----- names -----

  // How the program reads names: a route into its words, an alias without the white space around it,
  // its Telegram-safe form ("" where nothing safe remains), and the menu name of a route.
  datatype Naming = Naming(
    split: string -> Route,
    trim: string -> string,
    safe: string -> string,
    menu: Route -> Option<string>)

  function ProgramNaming(t: Sanitize.Tables): Naming {
    Naming(route => Text.Fields(Text.Trim(route)), a => Text.Trim(a), a => Sanitize.Sanitized(t, a),
           route => Sanitize.NameFromRoute(t, route))
  }

  // ----- from commands to entries -----

  // An alias as given, and made safe.
  datatype Alias = Alias(given: string, safe: string)

  datatype Entry = Entry(cmd: Command, route: Route, auto: Option<string>, names: seq<Alias>)

  predicate Usable(nm: Naming, a: string) {
    nm.trim(a) != "" && !Text.Contains(nm.trim(a), ' ')
  }

  function AliasOf(nm: Naming, a: string): Alias {
    Alias(nm.trim(a), nm.safe(nm.trim(a)))
  }

  function UsableNames(nm: Naming, names: seq<string>): seq<Alias> {
    if names == [] then []
    else
      var n := |names| - 1;
      UsableNames(nm, names[..n]) + (if Usable(nm, names[n]) then [AliasOf(nm, names[n])] else [])
  }

  // The name of a route in the Telegram menu, unless it is the route itself.
  function AutoName(nm: Naming, route: Route): Option<string> {
    var menu := nm.menu(route);
    if menu.Some? && (|route| > 1 || (|route| == 1 && menu.value != route[0])) then menu else None
  }

  // Commands without a route or a handler are left out.
  function Prepared(nm: Naming, c: Command): Option<Entry> {
    var route := nm.split(c.route);
    if route == [] || !c.handled then None
    else Some(Entry(c, route, AutoName(nm, route), UsableNames(nm, c.aliases)))
  }

  function Entries(nm: Naming, cmds: seq<Command>): seq<Entry> {
    if cmds == [] then []
    else
      var n := |cmds| - 1;
      var e := Prepared(nm, cmds[n]);
      Entries(nm, cmds[..n]) + (if e.Some? then [e.value] else [])
  }

  const HELPER := Command("help", ["h"], true, 0)

  // ----- the registry -----

  function WithDefault<T>(m: map<string, T>, k: string, v: T): map<string, T> {
    if k in m then m else m[k := v]
  }

  function AutoAliased<T>(m: map<string, T>, auto: Option<string>, leaf: T): map<string, T> {
    if auto.Some? then WithDefault(m, auto.value, leaf) else m
  }

  function OneAliased<T>(m: map<string, T>, a: Alias, leaf: T): map<string, T> {
    var m1 := m[a.given := leaf];
    if a.safe != "" then WithDefault(m1, a.safe, leaf) else m1
  }

  function Aliased<T>(m: map<string, T>, names: seq<Alias>, leaf: T): map<string, T> {
    if names == [] then m
    else OneAliased(Aliased(m, names[..|names| - 1], leaf), names[|names| - 1], leaf)
  }

  datatype Registry = Registry(table: map<Route, Command>, nodes: set<Route>, alias: map<string, Route>)

  const EMPTY := Registry(map[], {[]}, map[])

  function Accept(r: Registry, e: Entry): Registry {
    Registry(r.table[e.route := e.cmd], r.nodes + Prefixes(e.route),
             Aliased(AutoAliased(r.alias, e.auto, e.route), e.names, e.route))
  }

  function Registered(es: seq<Entry>): Registry {
    if es == [] then EMPTY else Accept(Registered(es[..|es| - 1]), es[|es| - 1])
  }

  lemma UsableStep(nm: Naming, given: seq<string>, i: nat)
    requires i < |given|
    ensures UsableNames(nm, given[..i + 1]) ==
            UsableNames(nm, given[..i]) + (if Usable(nm, given[i]) then [AliasOf(nm, given[i])] else [])
  {
    assert given[..i + 1][..i] == given[..i];
  }

  lemma AliasedGrows<T>(m: map<string, T>, before: seq<Alias>, after: seq<Alias>, ok: bool, a: Alias, leaf: T)
    requires after == before + (if ok then [a] else [])
    ensures Aliased(m, after, leaf) ==
            if ok then OneAliased(Aliased(m, before, leaf), a, leaf) else Aliased(m, before, leaf)
  {
    if ok {
      assert after[..|before|] == before;
    } else {
      assert after == before;
    }
  }

  lemma EntriesStep(nm: Naming, cmds: seq<Command>, i: nat)
    requires i < |cmds|
    ensures var e := Prepared(nm, cmds[i]);
            Entries(nm, cmds[..i + 1]) == Entries(nm, cmds[..i]) + (if e.Some? then [e.value] else [])
  {
    assert cmds[..i + 1][..i] == cmds[..i];
  }

  lemma RegisteredAppend(es: seq<Entry>, e: Entry)
    ensures Registered(es + [e]) == Accept(Registered(es), e)
  {
    assert (es + [e])[..|es|] == es;
  }

  // ----- routes -----

  function LastWith(es: seq<Entry>, route: Route): Option<Command> {
    if es == [] then None
    else if es[|es| - 1].route == route then Some(es[|es| - 1].cmd)
    else LastWith(es[..|es| - 1], route)
  }

  // A route finds the last command that was given with it, and nothing else is found.
  lemma {:induction false} TableIsLast(es: seq<Entry>, route: Route)
    ensures var r := Registered(es);
            (if route in r.table then Some(r.table[route]) else None) == LastWith(es, route)
  {
    if es != [] {
      TableIsLast(es[..|es| - 1], route);
    }
  }

  lemma PrefixesAre(r: Route, p: Route)
    ensures p in Prefixes(r) <==> p <= r
  {
    if p <= r {
      assert p == r[..|p|];
    }
  }

  lemma Widen<T>(s: seq<T>, p: T -> bool)
    requires s != []
    ensures var front := s[..|s| - 1];
            (exists i :: 0 <= i < |s| && p(s[i])) <==> p(s[|s| - 1]) || exists i :: 0 <= i < |front| && p(front[i])
  {
    var n := |s| - 1;
    if i :| 0 <= i < |s| && p(s[i]) {
      assert i < n ==> p(s[..n][i]);
    }
    if i :| 0 <= i < n && p(s[..n][i]) {
      assert p(s[i]);
    }
  }

  // The nodes are the prefixes of the registered routes, and the root.
  lemma {:induction false} NodesAre(es: seq<Entry>, p: Route)
    ensures p in Registered(es).nodes <==> p == [] || exists i :: 0 <= i < |es| && p <= es[i].route
  {
    if es != [] {
      NodesAre(es[..|es| - 1], p);
      PrefixesAre(es[|es| - 1].route, p);
      Widen(es, (e: Entry) => p <= e.route);
    }
  }

  // ----- shortcuts -----

  predicate Targets(m: map<string, Route>, table: map<Route, Command>) {
    forall a :: a in m ==> m[a] in table
  }

  lemma {:induction false} AliasedTargets(m: map<string, Route>, names: seq<Alias>, leaf: Route,
                                            table: map<Route, Command>)
    requires Targets(m, table) && leaf in table
    ensures Targets(Aliased(m, names, leaf), table)
  {
    if names != [] {
      AliasedTargets(m, names[..|names| - 1], leaf, table);
    }
  }

  // Every shortcut leads to a node that holds a command.
  lemma {:induction false} AliasesReach(es: seq<Entry>)
    ensures var r := Registered(es); Targets(r.alias, r.table) && r.table.Keys <= r.nodes
  {
    if es != [] {
      var n := |es| - 1;
      var b, e := Registered(es[..n]), es[n];
      AliasesReach(es[..n]);
      PrefixesAre(e.route, e.route);
      AliasedTargets(AutoAliased(b.alias, e.auto, e.route), e.names, e.route, b.table[e.route := e.cmd]);
    }
  }

  predicate Gives(a: Alias, name: string) {
    a.given == name
  }

  predicate Makes(a: Alias, name: string) {
    a.safe == name != ""
  }

  predicate Lists(names: seq<Alias>, name: string) {
    exists j :: 0 <= j < |names| && Gives(names[j], name)
  }

  predicate ListsSafe(names: seq<Alias>, name: string) {
    exists j :: 0 <= j < |names| && Makes(names[j], name)
  }

  lemma {:induction false} AliasedAt<T>(m: map<string, T>, names: seq<Alias>, leaf: T, a: string)
    ensures var r := Aliased(m, names, leaf);
            && (a in r <==> a in m || Lists(names, a) || ListsSafe(names, a))
            && (Lists(names, a) ==> a in r && r[a] == leaf)
            && (a in m && !Lists(names, a) ==> r[a] == m[a])
  {
    if names != [] {
      AliasedAt(m, names[..|names| - 1], leaf, a);
      Widen(names, (x: Alias) => Gives(x, a));
      Widen(names, (x: Alias) => Makes(x, a));
    }
  }

  // A command lays claim to a name: its menu name, an alias, or an alias made safe.
  predicate Claims(e: Entry, a: string) {
    e.auto == Some(a) || Lists(e.names, a) || ListsSafe(e.names, a)
  }

  lemma AcceptAlias(r: Registry, e: Entry, a: string)
    ensures var m := Accept(r, e).alias;
            && (a in m <==> a in r.alias || Claims(e, a))
            && (Lists(e.names, a) ==> a in m && m[a] == e.route)
            && (a in r.alias && !Lists(e.names, a) ==> m[a] == r.alias[a])
            && (a !in r.alias && Claims(e, a) ==> m[a] == e.route)
  {
    AliasedAt(AutoAliased(r.alias, e.auto, e.route), e.names, e.route, a);
    AliasedFresh(AutoAliased(r.alias, e.auto, e.route), e.names, e.route, a);
  }

  lemma {:induction false} AliasedFresh<T>(m: map<string, T>, names: seq<Alias>, leaf: T, a: string)
    ensures a in Aliased(m, names, leaf) && a !in m ==> Aliased(m, names, leaf)[a] == leaf
  {
    if names != [] {
      AliasedFresh(m, names[..|names| - 1], leaf, a);
    }
  }

  // Who owns a name: the last command that gives it as an alias; a menu name or a safe form counts
  // only for the first command to claim it, and only until the name is given.
  function Owner(es: seq<Entry>, a: string): Option<Route> {
    if es == [] then None
    else
      var n := |es| - 1;
      var before := Owner(es[..n], a);
      if Lists(es[n].names, a) || (before.None? && Claims(es[n], a)) then Some(es[n].route) else before
  }

  // The shortcuts are exactly the claimed names, each pointing to its owner.
  lemma {:induction false} AliasesAre(es: seq<Entry>, a: string)
    ensures var r := Registered(es);
            && (a in r.alias <==> exists i :: 0 <= i < |es| && Claims(es[i], a))
            && (if a in r.alias then Some(r.alias[a]) else None) == Owner(es, a)
  {
    if es != [] {
      var n := |es| - 1;
      AliasesAre(es[..n], a);
      AcceptAlias(Registered(es[..n]), es[n], a);
      Widen(es, (e: Entry) => Claims(e, a));
    }
  }

  // ----- where a message leads -----

  // From a node along the words: on while the next word is no flag and names a child.
  function Descent(nodes: set<Route>, path: Route, args: seq<string>): (Route, seq<string>)
    decreases |args|
  {
    if args != [] && !Text.Dashed(args[0]) && path + [args[0]] in nodes
    then Descent(nodes, path + [args[0]], args[1..])
    else (path, args)
  }

  datatype Target =
    | Unknown
    | HelpFor(path: Route)                                     // a group without a handler
    | Run(cmd: Command, path: Route, args: seq<string>)

  function Resolve(nm: Naming, r: Registry, word: string, args: seq<string>): Target {
    if word in r.alias && r.alias[word] in r.table then
      Run(r.table[r.alias[word]], nm.split(r.table[r.alias[word]].route), args)
    else if [word] !in r.nodes then Unknown
    else
      var (path, rest) := Descent(r.nodes, [word], args);
      if path in r.table then Run(r.table[path], path, rest) else HelpFor(path)
  }

  // The command word: without the slash, and without the bot's name behind an @.
  function WordOf(part: string): string {
    var w := if part != "" && part[0] == '/' then part[1..] else part;
    w[..Text.IndexOf(w, '@')]
  }

  // What comes before the first @ is read, with or without a slash in front of it.
  lemma WordRead(w: string, bot: string)
    requires '@' !in w
    ensures WordOf("/" + w) == w == WordOf("/" + w + "@" + bot)
    ensures w == "" || w[0] != '/' ==> WordOf(w) == w == WordOf(w + "@" + bot)
  {
    var slashed, named := "/" + w + "@" + bot, w + "@" + bot;
    assert ("/" + w)[1..] == w;
    assert slashed[1..] == named;
    assert named[|w|] == '@' && named[..|w|] == w && forall i :: 0 <= i < |w| ==> named[i] == w[i];
    assert Text.IndexOf(named, '@') == |w| && Text.IndexOf(w, '@') == |w|;
    assert w[..|w|] == w;
  }

  // The words that can be part of a route.
  predicate Walkable(args: seq<string>, k: nat) {
    k <= |args| && forall i :: 0 <= i < k ==> !Text.Dashed(args[i])
  }

  predicate PrefixClosed(nodes: set<Route>) {
    forall p :: p in nodes && p != [] ==> p[..|p| - 1] in nodes
  }

  lemma {:induction false} RegisteredClosed(es: seq<Entry>)
    ensures PrefixClosed(Registered(es).nodes)
  {
    if es != [] {
      RegisteredClosed(es[..|es| - 1]);
      var route := es[|es| - 1].route;
      forall p | p in Prefixes(route) && p != [] ensures p[..|p| - 1] in Prefixes(route) {
        PrefixesAre(route, p);
        PrefixesAre(route, p[..|p| - 1]);
      }
    }
  }

  lemma {:induction false} ClosedPrefix(nodes: set<Route>, p: Route, k: nat)
    requires PrefixClosed(nodes) && p in nodes && k <= |p|
    ensures p[..k] in nodes
    decreases |p|
  {
    if k < |p| {
      ClosedPrefix(nodes, p[..|p| - 1], k);
      assert p[..|p| - 1][..k] == p[..k];
    } else {
      assert p[..k] == p;
    }
  }

  // The walk stops after k words exactly if those words lead to a node and no more words do: at the
  // deepest node along the words, before the first flag or the first miss.
  lemma {:induction false} DescentDeepest(nodes: set<Route>, path: Route, args: seq<string>, k: nat)
    requires PrefixClosed(nodes) && path in nodes && k <= |args|
    ensures Descent(nodes, path, args) == (path + args[..k], args[k..])
            <==> && Walkable(args, k) && path + args[..k] in nodes
                 && forall j :: k < j <= |args| && Walkable(args, j) ==> path + args[..j] !in nodes
    decreases |args|
  {
    if args != [] && !Text.Dashed(args[0]) && path + [args[0]] in nodes {
      var next, rest := path + [args[0]], args[1..];
      forall j: nat | 0 < j <= |args|
        ensures next + rest[..j - 1] == path + args[..j]
        ensures Walkable(args, j) <==> Walkable(rest, j - 1)
      {
        SameWalk(path, args, j);
      }
      if k > 0 {
        DescentDeepest(nodes, next, rest, k - 1);
        assert rest[k - 1..] == args[k..];
        DeeperSame(nodes, path, args, k);
      } else {
        DescentGrows(nodes, next, rest);
        assert Walkable(args, 1) && path + args[..1] == next;
      }
    } else {
      assert path + args[..0] == path && args[0..] == args;
      forall j | 0 < j <= |args| && Walkable(args, j) ensures path + args[..j] !in nodes {
        assert (path + args[..j])[..|path| + 1] == path + [args[0]];
        if path + args[..j] in nodes {
          ClosedPrefix(nodes, path + args[..j], |path| + 1);
        }
      }
    }
  }

  lemma SameWalk(path: Route, args: seq<string>, j: nat)
    requires 0 < j <= |args| && !Text.Dashed(args[0])
    ensures (path + [args[0]]) + args[1..][..j - 1] == path + args[..j]
    ensures Walkable(args, j) <==> Walkable(args[1..], j - 1)
  {
    assert args[..j] == [args[0]] + args[1..][..j - 1];
    assert forall i :: 0 <= i < j - 1 ==> args[1..][i] == args[i + 1];
    assert forall i :: 0 < i < j ==> args[i] == args[1..][i - 1];
  }

  lemma DeeperSame(nodes: set<Route>, path: Route, args: seq<string>, k: nat)
    requires 0 < k <= |args| && !Text.Dashed(args[0])
    ensures (forall j :: k < j <= |args| && Walkable(args, j) ==> path + args[..j] !in nodes)
            <==> (forall j :: k - 1 < j <= |args[1..]| && Walkable(args[1..], j) ==>
                path + [args[0]] + args[1..][..j] !in nodes)
  {
    forall j: nat | 0 < j <= |args|
      ensures (path + [args[0]]) + args[1..][..j - 1] == path + args[..j]
      ensures Walkable(args, j) <==> Walkable(args[1..], j - 1)
    {
      SameWalk(path, args, j);
    }
    if forall j :: k < j <= |args| && Walkable(args, j) ==> path + args[..j] !in nodes {
      forall j | k - 1 < j <= |args[1..]| && Walkable(args[1..], j)
        ensures path + [args[0]] + args[1..][..j] !in nodes
      {
        assert Walkable(args, j + 1);
      }
    }
    if forall j :: k - 1 < j <= |args[1..]| && Walkable(args[1..], j) ==> path + [args[0]] + args[1..][..j] !in nodes {
      forall j | k < j <= |args| && Walkable(args, j) ensures path + args[..j] !in nodes {
        assert Walkable(args[1..], j - 1);
      }
    }
  }

  lemma {:induction false} DescentGrows(nodes: set<Route>, path: Route, args: seq<string>)
    ensures |Descent(nodes, path, args).0| >= |path|
    decreases |args|
  {
    if args != [] && !Text.Dashed(args[0]) && path + [args[0]] in nodes {
      DescentGrows(nodes, path + [args[0]], args[1..]);
    }
  }

  // A word that is no shortcut leads nowhere exactly if no route begins with it, and otherwise to the
  // deepest node along the words: its command runs with the other words, or its help is shown.
  lemma ResolvesDeepest(nm: Naming, es: seq<Entry>, word: string, args: seq<string>, k: nat)
    requires k <= |args| && word !in Registered(es).alias
    requires var nodes := Registered(es).nodes;
             && Walkable(args, k) && [word] + args[..k] in nodes
             && forall j :: k < j <= |args| && Walkable(args, j) ==> [word] + args[..j] !in nodes
    ensures var r, path := Registered(es), [word] + args[..k];
            Resolve(nm, r, word, args) == if path in r.table then Run(r.table[path], path, args[k..]) else HelpFor(path)
  {
    var r := Registered(es);
    RegisteredClosed(es);
    ClosedPrefix(r.nodes, [word] + args[..k], 1);
    assert ([word] + args[..k])[..1] == [word];
    DescentDeepest(r.nodes, [word], args, k);
  }

  lemma ResolvesNowhere(nm: Naming, es: seq<Entry>, word: string, args: seq<string>)
    ensures Resolve(nm, Registered(es), word, args) == Unknown <==>
            word !in Registered(es).alias && forall i :: 0 <= i < |es| ==> !([word] <= es[i].route)
  {
    NodesAre(es, [word]);
    AliasesReach(es);
  }

  // ----- from commands to the registry -----

  // The command is taken in under this route.
  predicate Under(nm: Naming, c: Command, route: Route) {
    c.handled && nm.split(c.route) == route != []
  }

  predicate IsLastUnder(nm: Naming, cmds: seq<Command>, i: int, route: Route) {
    0 <= i < |cmds| && Under(nm, cmds[i], route) && forall j :: i < j < |cmds| ==> !Under(nm, cmds[j], route)
  }

  // A route is found exactly if a command with a handler has it.
  lemma {:induction false} RoutesAre(nm: Naming, cmds: seq<Command>, route: Route)
    ensures route in Registered(Entries(nm, cmds)).table <==> exists i :: 0 <= i < |cmds| && Under(nm, cmds[i], route)
  {
    if cmds != [] {
      RoutesAre(nm, cmds[..|cmds| - 1], route);
      Taken(nm, cmds);
      Widen(cmds, (c: Command) => Under(nm, c, route));
    }
  }

  // The last such command is what it finds.
  lemma {:induction false} RouteIsLast(nm: Naming, cmds: seq<Command>, i: int, route: Route)
    requires IsLastUnder(nm, cmds, i, route)
    ensures route in Registered(Entries(nm, cmds)).table && Registered(Entries(nm, cmds)).table[route] == cmds[i]
  {
    Taken(nm, cmds);
    if i < |cmds| - 1 {
      assert !Under(nm, cmds[|cmds| - 1], route);
      RouteIsLast(nm, cmds[..|cmds| - 1], i, route);
    }
  }

  lemma Taken(nm: Naming, cmds: seq<Command>)
    requires cmds != []
    ensures var n := |cmds| - 1;
            var e, b := Prepared(nm, cmds[n]), Registered(Entries(nm, cmds[..n]));
            Registered(Entries(nm, cmds)) == if e.Some? then Accept(b, e.value) else b
  {
    var n := |cmds| - 1;
    var es := Entries(nm, cmds[..n]);
    if Prepared(nm, cmds[n]).Some? {
      RegisteredAppend(es, Prepared(nm, cmds[n]).value);
    } else {
      assert Entries(nm, cmds) == es;
    }
  }

  // An alias stands for this name: as given without the white space around it, or made safe. What is empty
  // then, or has a blank inside, is no alias.
  predicate Named(nm: Naming, given: string, a: string) {
    var trimmed := nm.trim(given);
    trimmed != "" && ' ' !in trimmed && a != "" && (a == trimmed || a == nm.safe(trimmed))
  }

  predicate NamedBy(nm: Naming, given: seq<string>, a: string) {
    exists j :: 0 <= j < |given| && Named(nm, given[j], a)
  }

  // A command with a handler gives this name: as the menu name of its route, unless that is the route itself,
  // or as an alias.
  predicate Brings(nm: Naming, c: Command, a: string) {
    && c.handled && nm.split(c.route) != []
    && ((nm.menu(nm.split(c.route)) == Some(a) && nm.split(c.route) != [a]) || NamedBy(nm, c.aliases, a))
  }

  lemma {:induction false} UsableAre(nm: Naming, given: seq<string>, a: string)
    ensures var names := UsableNames(nm, given); NamedBy(nm, given, a) <==> Lists(names, a) || ListsSafe(names, a)
  {
    if given != [] {
      var n := |given| - 1;
      var before, names := UsableNames(nm, given[..n]), UsableNames(nm, given);
      UsableAre(nm, given[..n], a);
      Widen(given, (g: string) => Named(nm, g, a));
      if Usable(nm, given[n]) {
        assert names[..|names| - 1] == before;
        Widen(names, (x: Alias) => Gives(x, a));
        Widen(names, (x: Alias) => Makes(x, a));
      } else {
        assert names == before;
      }
    }
  }

  // The shortcuts are exactly the names that the commands with a handler bring.
  lemma {:induction false} NamesAre(nm: Naming, cmds: seq<Command>, a: string)
    ensures a in Registered(Entries(nm, cmds)).alias <==> exists i :: 0 <= i < |cmds| && Brings(nm, cmds[i], a)
  {
    if cmds != [] {
      var n := |cmds| - 1;
      NamesAre(nm, cmds[..n], a);
      Taken(nm, cmds);
      Widen(cmds, (c: Command) => Brings(nm, c, a));
      UsableAre(nm, cmds[n].aliases, a);
      if Prepared(nm, cmds[n]).Some? {
        AcceptAlias(Registered(Entries(nm, cmds[..n])), Prepared(nm, cmds[n]).value, a);
      }
    }
  }

  // ----- what always holds of the registry -----

  lemma {:induction false} EntriesRoutes(nm: Naming, cmds: seq<Command>)
    ensures forall i :: 0 <= i < |Entries(nm, cmds)| ==>
              Entries(nm, cmds)[i].route == nm.split(Entries(nm, cmds)[i].cmd.route) != []
  {
    if cmds != [] {
      EntriesRoutes(nm, cmds[..|cmds| - 1]);
    }
  }

  // A shortcut runs its command under the command's own route.
  lemma {:induction false} TableRoutes(nm: Naming, es: seq<Entry>, p: Route)
    requires forall i :: 0 <= i < |es| ==> es[i].route == nm.split(es[i].cmd.route)
    ensures p in Registered(es).table ==> nm.split(Registered(es).table[p].route) == p
  {
    if es != [] {
      var n := |es| - 1;
      assert forall i :: 0 <= i < n ==> es[..n][i] == es[i];
      TableRoutes(nm, es[..n], p);
    }
  }

  // So a shortcut resolves to the command at its target, with all the arguments, and any other word
  // to the deepest node along the words.
  lemma ShortcutResolves(nm: Naming, cmds: seq<Command>, word: string, args: seq<string>)
    ensures var r := Registered(Entries(nm, cmds));
            word in r.alias ==> r.alias[word] in r.table
                                && Resolve(nm, r, word, args) == Run(r.table[r.alias[word]], r.alias[word], args)
  {
    var es := Entries(nm, cmds);
    AliasesReach(es);
    EntriesRoutes(nm, cmds);
    if word in Registered(es).alias {
      TableRoutes(nm, es, Registered(es).alias[word]);
    }
  }

  // ----- which words lead to the command of their own name -----

  // Some command's route begins with these two words.
  predicate Subcommand(es: seq<Entry>, group: string, word: string) {
    exists i :: 0 <= i < |es| && [group, word] <= es[i].route
  }

  // Either no command claims the word as a shortcut and the first argument, unless it is a flag, does not
  // lead on to a subcommand; or the shortcut points to the word's own node.
  predicate WordReached(es: seq<Entry>, w: string, args: seq<string>) {
    match Owner(es, w)
    case Some(route) => route == [w]
    case None => args == [] || Text.Dashed(args[0]) || !Subcommand(es, w, args[0])
  }

  lemma WordDescent(nodes: set<Route>, w: string, args: seq<string>)
    ensures Descent(nodes, [w], args).0 == [w]
            <==> args == [] || Text.Dashed(args[0]) || [w, args[0]] !in nodes
    ensures Descent(nodes, [w], args).0 == [w] ==> Descent(nodes, [w], args).1 == args
  {
    if args != [] {
      assert [w] + [args[0]] == [w, args[0]];
      DescentGrows(nodes, [w, args[0]], args[1..]);
    }
  }

  // A word that is a command's whole route runs that command with all the arguments exactly if the word is
  // no other command's shortcut and, where it is nobody's, the first argument does not lead on to a
  // subcommand.
  lemma WordExactly(nm: Naming, cmds: seq<Command>, w: string, args: seq<string>)
    requires LastWith(Entries(nm, cmds), [w]).Some?
    ensures var es := Entries(nm, cmds);
            Resolve(nm, Registered(es), w, args) == Run(LastWith(es, [w]).value, [w], args) <==>
                WordReached(es, w, args)
  {
    var es, r := Entries(nm, cmds), Registered(Entries(nm, cmds));
    TableIsLast(es, [w]);
    AliasesReach(es);
    AliasesAre(es, w);
    if w in r.alias {
      ShortcutResolves(nm, cmds, w, args);
    } else {
      WordDescent(r.nodes, w, args);
      if args != [] {
        NodesAre(es, [w, args[0]]);
      }
    }
  }

  // ----- particular names -----

  // A word that reads as itself in every way, as "help" and "h" do.
  predicate ReadsAsItself(nm: Naming, w: string) {
    && w != "" && !Text.Contains(w, ' ')
    && nm.split(w) == [w] && nm.trim(w) == w && nm.safe(w) == w && nm.menu([w]) == Some(w)
  }

  lemma CleanEntry(nm: Naming, c: Command, w: string, a: string)
    requires c.handled && c.route == w && c.aliases == [a] && ReadsAsItself(nm, w) && ReadsAsItself(nm, a)
    ensures Prepared(nm, c) == Some(Entry(c, [w], None, [Alias(a, a)]))
  {
    assert [a][..0] == [] && UsableNames(nm, []) == [];
    assert Usable(nm, a) && AliasOf(nm, a) == Alias(a, a);
    assert UsableNames(nm, [a]) == UsableNames(nm, []) + [AliasOf(nm, a)];
    assert UsableNames(nm, c.aliases) == [Alias(a, a)];
    assert AutoName(nm, [w]) == None;
  }

  const HELP_ENTRY := Entry(HELPER, ["help"], None, [Alias("h", "h")])

  // The help command is registered last.
  lemma HelpRegistered(nm: Naming, cmds: seq<Command>)
    requires ReadsAsItself(nm, "help") && ReadsAsItself(nm, "h")
    ensures Entries(nm, cmds + [HELPER]) == Entries(nm, cmds) + [HELP_ENTRY]
    ensures Registered(Entries(nm, cmds + [HELPER])) == Accept(Registered(Entries(nm, cmds)), HELP_ENTRY)
  {
    var all := cmds + [HELPER];
    CleanEntry(nm, HELPER, "help", "h");
    assert all[..|all| - 1] == cmds;
    RegisteredAppend(Entries(nm, cmds), HELP_ENTRY);
  }

  // Whatever the plugins register, /h leads to the help command.
  lemma HelpShortcut(nm: Naming, cmds: seq<Command>, args: seq<string>)
    requires ReadsAsItself(nm, "help") && ReadsAsItself(nm, "h")
    ensures var r := Registered(Entries(nm, cmds + [HELPER]));
            && ["help"] in r.table && r.table[["help"]] == HELPER
            && Resolve(nm, r, "h", args) == Run(HELPER, ["help"], args)
  {
    HelpRegistered(nm, cmds);
    assert Gives(HELP_ENTRY.names[0], "h");
    AcceptAlias(Registered(Entries(nm, cmds)), HELP_ENTRY, "h");
    ShortcutResolves(nm, cmds + [HELPER], "h", args);
  }

  // The help command's own registration claims nothing else.
  lemma HelpAdds(es: seq<Entry>, args: seq<string>)
    ensures WordReached(es + [HELP_ENTRY], "help", args) <==> WordReached(es, "help", args)
    ensures LastWith(es + [HELP_ENTRY], ["help"]) == Some(HELPER)
  {
    var all := es + [HELP_ENTRY];
    assert all[..|es|] == es && !Lists(HELP_ENTRY.names, "help") && !Claims(HELP_ENTRY, "help");
    assert Owner(all, "help") == Owner(es, "help");
    if args != [] {
      Widen(all, (e: Entry) => ["help", args[0]] <= e.route);
    }
  }

  // The word "help" runs the help command with all the arguments exactly if the name belongs to no other
  // command's shortcut and, where it belongs to none, the first argument does not lead on to a
  // subcommand of help.
  lemma HelpExactly(nm: Naming, cmds: seq<Command>, args: seq<string>)
    requires ReadsAsItself(nm, "help") && ReadsAsItself(nm, "h")
    ensures Resolve(nm, Registered(Entries(nm, cmds + [HELPER])), "help", args) == Run(HELPER, ["help"], args)
            <==> WordReached(Entries(nm, cmds), "help", args)
  {
    HelpRegistered(nm, cmds);
    HelpAdds(Entries(nm, cmds), args);
    WordExactly(nm, cmds + [HELPER], "help", args);
  }

  // Both ways of losing it: a plugin's alias "help" takes the word, a route "help w" takes /help w.
  lemma HelpTaken(nm: Naming, x: Command, y: Command, w: string, args: seq<string>)
    requires ReadsAsItself(nm, "help") && ReadsAsItself(nm, "h") && x.handled && y.handled
    requires ReadsAsItself(nm, x.route) && x.route != "help" && x.aliases == ["help"]
    requires nm.split(y.route) == ["help", w] && nm.menu(["help", w]) != Some("help") && y.aliases == []
    requires !Text.Dashed(w)
    ensures Resolve(nm, Registered(Entries(nm, [x] + [HELPER])), "help", args) == Run(x, [x.route], args)
    ensures Resolve(nm, Registered(Entries(nm, [y] + [HELPER])), "help", [w]) == Run(y, ["help", w], [])
  {
    AliasTakesHelp(nm, x, args);
    RouteTakesHelp(nm, y, w);
  }

  lemma AliasTakesHelp(nm: Naming, x: Command, args: seq<string>)
    requires ReadsAsItself(nm, "help") && ReadsAsItself(nm, "h") && x.handled
    requires ReadsAsItself(nm, x.route) && x.route != "help" && x.aliases == ["help"]
    ensures Resolve(nm, Registered(Entries(nm, [x] + [HELPER])), "help", args) == Run(x, [x.route], args)
  {
    var ex := Entry(x, [x.route], None, [Alias("help", "help")]);
    CleanEntry(nm, x, x.route, "help");
    OneEntry(nm, x, ex);
    HelpRegistered(nm, [x]);
    assert Gives(ex.names[0], "help");
    AcceptAlias(EMPTY, ex, "help");
    AcceptAlias(Registered([ex]), HELP_ENTRY, "help");
    ShortcutResolves(nm, [x] + [HELPER], "help", args);
  }

  lemma OneEntry(nm: Naming, x: Command, ex: Entry)
    requires Prepared(nm, x) == Some(ex)
    ensures Entries(nm, [x]) == [ex] && Registered([ex]) == Accept(EMPTY, ex)
  {
    assert [x][..0] == [] && [ex][..0] == [];
  }

  lemma RouteTakesHelp(nm: Naming, y: Command, w: string)
    requires ReadsAsItself(nm, "help") && ReadsAsItself(nm, "h") && y.handled && !Text.Dashed(w)
    requires nm.split(y.route) == ["help", w] && nm.menu(["help", w]) != Some("help") && y.aliases == []
    ensures Resolve(nm, Registered(Entries(nm, [y] + [HELPER])), "help", [w]) == Run(y, ["help", w], [])
  {
    var ey := Entry(y, ["help", w], nm.menu(["help", w]), []);
    assert Prepared(nm, y) == Some(ey);
    OneEntry(nm, y, ey);
    HelpRegistered(nm, [y]);
    GroupEntry(nm, ey, w);
  }

  lemma GroupEntry(nm: Naming, ey: Entry, w: string)
    requires ey.route == ["help", w] && ey.names == [] && ey.auto != Some("help") && !Text.Dashed(w)
    requires Registered([ey]) == Accept(EMPTY, ey)
    ensures Resolve(nm, Accept(Registered([ey]), HELP_ENTRY), "help", [w]) == Run(ey.cmd, ["help", w], [])
  {
    var r := Accept(Registered([ey]), HELP_ENTRY);
    AcceptAlias(EMPTY, ey, "help");
    AcceptAlias(Registered([ey]), HELP_ENTRY, "help");
    assert "help" !in r.alias;
    PrefixesAre(["help", w], ["help", w]);
    PrefixesAre(["help", w], ["help"]);
    assert ["help"] + [w] == ["help", w] && [w][1..] == [];
    assert Descent(r.nodes, ["help", w], []) == (["help", w], []);
  }

  // The menu name of a group's command can shadow another command: where the route a b has the menu
  // name w and w is also a command of its own, the word w leads to a b, in either order of registration.
  lemma MenuNameShadows(nm: Naming, x: Command, y: Command, w: string, args: seq<string>)
    requires x.handled && y.handled && x.aliases == [] == y.aliases && ReadsAsItself(nm, w)
    requires |nm.split(x.route)| > 1 && nm.menu(nm.split(x.route)) == Some(w) && nm.split(y.route) == [w]
    ensures Resolve(nm, Registered(Entries(nm, [x, y])), w, args) == Run(x, nm.split(x.route), args)
    ensures Resolve(nm, Registered(Entries(nm, [y, x])), w, args) == Run(x, nm.split(x.route), args)
  {
    var ex, ey := Entry(x, nm.split(x.route), Some(w), []), Entry(y, [w], None, []);
    assert Prepared(nm, x) == Some(ex) && Prepared(nm, y) == Some(ey);
    TwoEntries(nm, x, y, ex, ey);
    TwoEntries(nm, y, x, ey, ex);
    ShadowPair(nm, ex, ey, args);
  }

  lemma TwoEntries(nm: Naming, x: Command, y: Command, ex: Entry, ey: Entry)
    requires Prepared(nm, x) == Some(ex) && Prepared(nm, y) == Some(ey)
    ensures Entries(nm, [x, y]) == [ex, ey]
  {
    assert [x, y][..1] == [x] && [x][..0] == [];
    assert Entries(nm, [x]) == [ex];
  }

  lemma ShadowPair(nm: Naming, ex: Entry, ey: Entry, args: seq<string>)
    requires ex.route == nm.split(ex.cmd.route) && ex.names == [] == ey.names && ey.auto == None
    requires ex.auto.Some? && ey.route == [ex.auto.value] && ex.route != ey.route
    ensures Resolve(nm, Registered([ex, ey]), ex.auto.value, args) == Run(ex.cmd, ex.route, args)
    ensures Resolve(nm, Registered([ey, ex]), ex.auto.value, args) == Run(ex.cmd, ex.route, args)
  {
    assert [ex, ey][..1] == [ex] && [ex][..0] == [] && [ey, ex][..1] == [ey] && [ey][..0] == [];
    assert Registered([ex]) == Accept(EMPTY, ex) && Registered([ey]) == Accept(EMPTY, ey);
  }

  // ----- the program's own naming -----

  lemma {:induction false} OneField(w: string)
    requires w != "" && forall i :: 0 <= i < |w| ==> !Text.IsSpace(w[i])
    ensures Text.FieldScan(w) == ([], w) && Text.Fields(w) == [w]
  {
    var n := |w| - 1;
    if n > 0 {
      OneField(w[..n]);
    }
    assert w == w[..n] + [w[n]];
  }

  lemma LegalHasNoSpace(w: string)
    requires Sanitize.Legal(w)
    ensures forall i :: 0 <= i < |w| ==> !Text.IsSpace(w[i])
    ensures !Text.Contains(w, ' ')
  {
  }

  lemma LegalReads(w: string)
    requires w != "" && Sanitize.Legal(w)
    ensures Text.Trim(w) == w && Text.Fields(w) == [w]
  {
    LegalHasNoSpace(w);
    OneField(w);
    Text.TrimmedSame(w);
  }

  lemma LegalMenu(t: Sanitize.Tables, w: string)
    requires Sanitize.Sensible(t) && w != "" && Sanitize.Legal(w)
    ensures Sanitize.NameFromRoute(t, [w]) == Some(w) && Sanitize.Sanitized(t, w) == w
  {
    Sanitize.LegalFixed(t, w);
  }

  lemma ReadsParts(t: Sanitize.Tables, w: string)
    requires w != "" && !Text.Contains(w, ' ') && Text.Trim(w) == w && Text.Fields(w) == [w]
    requires Sanitize.NameFromRoute(t, [w]) == Some(w) && Sanitize.Sanitized(t, w) == w
    ensures ReadsAsItself(ProgramNaming(t), w)
  {
  }

  // Every name that a Telegram command may have reads as itself; so do "help" and "h".
  lemma LegalReadsAsItself(t: Sanitize.Tables, w: string)
    requires Sanitize.Sensible(t) && w != "" && Sanitize.Legal(w)
    ensures ReadsAsItself(ProgramNaming(t), w)
  {
    LegalHasNoSpace(w);
    LegalReads(w);
    LegalMenu(t, w);
    ReadsParts(t, w);
  }
}
