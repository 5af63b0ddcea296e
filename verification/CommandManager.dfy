/**
The command manager: it builds a new tree and a new map of shortcuts from a list of commands, swaps
them in, and follows a message's words through them.
*/
module CommandManager {
  import opened Wrappers
  import opened CommandTree
  import opened CommandRegistry
  import Text

  // The shortcuts of a tree point to its nodes.
  ghost predicate Inside(tree: Tree, m: map<string, Node>)
    reads tree
  {
    forall a :: a in m ==> m[a].at in tree.nodes && tree.nodes[m[a].at] == m[a]
  }

  // A map of shortcuts by path instead of by node.
  ghost function ByPath(m: map<string, Node>): map<string, Route> {
    map a | a in m :: m[a].at
  }

  lemma AutoByPath(m: map<string, Node>, auto: Option<string>, leaf: Node)
    ensures ByPath(AutoAliased(m, auto, leaf)) == AutoAliased(ByPath(m), auto, leaf.at)
  {
  }

  lemma OneByPath(m: map<string, Node>, a: Alias, leaf: Node)
    ensures ByPath(OneAliased(m, a, leaf)) == OneAliased(ByPath(m), a, leaf.at)
  {
  }

  lemma {:induction false} AllByPath(m: map<string, Node>, names: seq<Alias>, leaf: Node)
    ensures ByPath(Aliased(m, names, leaf)) == Aliased(ByPath(m), names, leaf.at)
    ensures forall a :: a in Aliased(m, names, leaf) ==>
              Aliased(m, names, leaf)[a] == leaf || (a in m && Aliased(m, names, leaf)[a] == m[a])
  {
    if names != [] {
      AllByPath(m, names[..|names| - 1], leaf);
      OneByPath(Aliased(m, names[..|names| - 1], leaf), names[|names| - 1], leaf);
    }
  }

  lemma AliasedStep(nm: Naming, m: map<string, Node>, given: seq<string>, i: nat, leaf: Node)
    requires i < |given|
    ensures var b := Aliased(m, UsableNames(nm, given[..i]), leaf);
            Aliased(m, UsableNames(nm, given[..i + 1]), leaf) ==
            if Usable(nm, given[i]) then OneAliased(b, AliasOf(nm, given[i]), leaf) else b
  {
    UsableStep(nm, given, i);
    AliasedGrows(m, UsableNames(nm, given[..i]), UsableNames(nm, given[..i + 1]), Usable(nm, given[i]),
                 AliasOf(nm, given[i]), leaf);
  }

  // The loop over one command's aliases.
  method AddAliases(nm: Naming, alias: map<string, Node>, given: seq<string>, leaf: Node) returns (m: map<string, Node>)
    ensures m == Aliased(alias, UsableNames(nm, given), leaf)
  {
    m := alias;
    for i := 0 to |given|
      invariant m == Aliased(alias, UsableNames(nm, given[..i]), leaf)
    {
      AliasedStep(nm, alias, given, i, leaf);
      var a := nm.trim(given[i]);
      if a == "" || Text.Contains(a, ' ') {
        continue;
      }
      m := m[a := leaf];
      var sa := nm.safe(a);
      if sa != "" {
        m := WithDefault(m, sa, leaf);
      }
    }
    assert given[..|given|] == given;
  }

  ghost function Seen(tree: Tree, m: map<string, Node>): Registry
    reads tree
  {
    Registry(tree.Contents(), tree.nodes.Keys, ByPath(m))
  }

  // The names of one command.
  method AddNames(nm: Naming, tree: Tree, alias: map<string, Node>, c: Command, route: Route, leaf: Node)
    returns (m: map<string, Node>)
    requires Inside(tree, alias) && route in tree.nodes && leaf == tree.nodes[route] && leaf.at == route
    ensures Inside(tree, m)
    ensures ByPath(m) ==
            Aliased(AutoAliased(ByPath(alias), AutoName(nm, route), route), UsableNames(nm, c.aliases), route)
  {
    var m1 := AutoAliased(alias, AutoName(nm, route), leaf);
    AutoByPath(alias, AutoName(nm, route), leaf);
    m := AddAliases(nm, m1, c.aliases, leaf);
    AllByPath(m1, UsableNames(nm, c.aliases), leaf);
  }

  // One command of the list.
  method AddCommand(nm: Naming, tree: Tree, alias: map<string, Node>, c: Command) returns (m: map<string, Node>)
    requires tree.Valid() && Inside(tree, alias)
    modifies tree`nodes, tree`kids, tree`cmds, tree.nodes.Values
    ensures tree.Valid() && Inside(tree, m) && forall q :: q in tree.nodes && q !in old(tree.nodes) ==>
        fresh(tree.nodes[q])
    ensures var e := Prepared(nm, c);
            Seen(tree, m) == if e.Some? then Accept(old(Seen(tree, alias)), e.value) else old(Seen(tree, alias))
    ensures forall q :: q in old(tree.nodes) ==> q in tree.nodes && tree.nodes[q] == old(tree.nodes[q])
  {
    m := alias;
    var route := nm.split(c.route);
    if route == [] || !c.handled {
      return;
    }
    tree.Add(route, c);
    PrefixesAre(route, route);
    var leaf := tree.Find(route);
    m := AddNames(nm, tree, alias, c, route, leaf);
  }

  // A new tree and new shortcuts from the whole list.
  method Build(nm: Naming, cmds: seq<Command>) returns (tree: Tree, m: map<string, Node>)
    ensures fresh(tree) && forall q :: q in tree.nodes ==> fresh(tree.nodes[q])
    ensures tree.Valid() && Inside(tree, m) && Seen(tree, m) == Registered(Entries(nm, cmds))
  {
    tree := new Tree();
    m := map[];
    assert Seen(tree, m) == EMPTY && cmds[..0] == [];
    for i := 0 to |cmds|
      invariant tree.Valid() && Inside(tree, m) && forall q :: q in tree.nodes ==> fresh(tree.nodes[q])
      invariant Seen(tree, m) == Registered(Entries(nm, cmds[..i]))
    {
      RegisteredStep(nm, cmds, i);
      m := AddCommand(nm, tree, m, cmds[i]);
    }
    assert cmds[..|cmds|] == cmds;
  }

  class Manager {
    var root: Tree
    var alias: map<string, Node>
    const nm: Naming

    ghost predicate Valid()
      reads this, root, root.nodes.Values
    {
      root.Valid() && Inside(root, alias)
    }

    ghost function View(): Registry
      reads this, root
    {
      Seen(root, alias)
    }

    constructor (nm: Naming)
      ensures Valid() && View() == EMPTY
    {
      root := new Tree();
      alias := map[];
      this.nm := nm;
    }

    // The help command comes last, so nothing can take its place.
    method SetRegistry(cmds: seq<Command>)
      modifies this
      ensures Valid() && View() == Registered(Entries(nm, cmds + [HELPER]))
    {
      root, alias := Build(nm, cmds + [HELPER]);
    }

    // The walk down the tree.
    method Walk(start: Node, word: string, given: seq<string>) returns (cur: Node, path: Route, args: seq<string>)
      requires Valid() && [word] in root.nodes && start == root.nodes[[word]]
      ensures (path, args) == Descent(root.nodes.Keys, [word], given)
      ensures path in root.nodes && cur == root.nodes[path]
    {
      cur, path, args := start, [word], given;
      while args != []
        invariant path in root.nodes && cur == root.nodes[path]
        invariant Descent(root.nodes.Keys, path, args) == Descent(root.nodes.Keys, [word], given)
        decreases |args|
      {
        var nxt := args[0];
        if Text.Dashed(nxt) {
          break;
        }
        root.NodeFacts(path, nxt);
        if nxt !in cur.children {
          break;
        }
        cur, path, args := cur.children[nxt], path + [nxt], args[1..];
      }
    }

    // The resolution part of routeMessage.
    method RouteMessage(parts: seq<string>) returns (target: Target)
      requires Valid() && parts != []
      ensures target == Resolve(nm, View(), WordOf(parts[0]), parts[1..])
    {
      var word, args := WordOf(parts[0]), parts[1..];
      if word in alias {
        root.NodeFacts(alias[word].at, word);
        if alias[word].cmd.Some? {
          var cmd := alias[word].cmd.value;
          return Run(cmd, nm.split(cmd.route), args);
        }
      }
      root.NodeFacts([], word);
      assert [] + [word] == [word];
      if word !in root.root.children {
        return Unknown;
      }
      var cur, path, rest := Walk(root.root.children[word], word, args);
      root.NodeFacts(path, word);
      target := if cur.cmd.None? then HelpFor(path) else Run(cur.cmd.value, path, rest);
    }
  }

  lemma RegisteredStep(nm: Naming, cmds: seq<Command>, i: nat)
    requires i < |cmds|
    ensures var b, e := Registered(Entries(nm, cmds[..i])), Prepared(nm, cmds[i]);
            Registered(Entries(nm, cmds[..i + 1])) == if e.Some? then Accept(b, e.value) else b
  {
    var es, e := Entries(nm, cmds[..i]), Prepared(nm, cmds[i]);
    EntriesStep(nm, cmds, i);
    if e.Some? {
      RegisteredAppend(es, e.value);
    } else {
      assert es + [] == es;
    }
  }
}
