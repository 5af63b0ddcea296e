/**
The tree of commands: nodes that point to their children, built by adding routes one at a time.

The tree owns its nodes through nodes, which lists them by their path. Contents is the map from routes
to commands that the tree stands for.
*/
module CommandTree {
  import opened Wrappers

  type Route = seq<string>

  datatype Command = Command(route: string, aliases: seq<string>, handled: bool, id: nat)

  class Node {
    const name: string
    ghost const at: Route                 // the path from the root
    var cmd: Option<Command>
    var children: map<string, Node>

    constructor (name: string, ghost at: Route)
      ensures this.name == name && this.at == at && cmd == None && children == map[]
    {
      this.name, this.at, cmd, children := name, at, None, map[];
    }
  }

  function Prefixes(r: Route): set<Route> {
    set i | 0 <= i <= |r| :: r[..i]
  }

  lemma AppendInjective(p: Route, t: string, q: Route, u: string)
    ensures p + [t] == q + [u] <==> p == q && t == u
  {
    assert (p + [t])[..|p|] == p && (q + [u])[..|q|] == q;
  }

  // The nodes by path and the children each of them lists agree at p.
  ghost predicate Linked(nodes: map<Route, Node>, kids: map<Route, map<string, Node>>, p: Route)
    requires p in nodes && p in kids
  {
    && (p != [] ==> p[..|p| - 1] in nodes)
    && (forall t {:trigger p + [t]} :: p + [t] in nodes ==> t in kids[p])
    && (forall t {:trigger t in kids[p]} :: t in kids[p] ==> p + [t] in nodes && kids[p][t] == nodes[p + [t]])
  }

  ghost predicate Shape(nodes: map<Route, Node>, kids: map<Route, map<string, Node>>) {
    && nodes.Keys == kids.Keys && [] in nodes
    && (forall p :: p in nodes ==> nodes[p].at == p)
    && (forall p {:trigger Linked(nodes, kids, p)} :: p in nodes ==> Linked(nodes, kids, p))
  }

  function Attached(kids: map<Route, map<string, Node>>, p: Route, t: string, n: Node): map<Route, map<string, Node>>
    requires p in kids
  {
    kids[p := kids[p][t := n]][p + [t] := map[]]
  }

  lemma LinkedAttached(nodes: map<Route, Node>, kids: map<Route, map<string, Node>>, p: Route, t: string, n: Node,
                       q: Route)
    requires Shape(nodes, kids) && p in nodes && p + [t] !in nodes && (q in nodes || q == p + [t])
    ensures Linked(nodes[p + [t] := n], Attached(kids, p, t, n), q)
  {
    var r, nodes', kids' := p + [t], nodes[p + [t] := n], Attached(kids, p, t, n);
    forall u ensures u in kids'[q] <==> q + [u] in nodes'
      ensures u in kids'[q] ==> kids'[q][u] == nodes'[q + [u]]
    {
      AppendInjective(q, u, p, t);
      if q == r {
        assert (r + [u])[..|r + [u]| - 1] == r;
        assert q + [u] in nodes ==> Linked(nodes, kids, q + [u]);
      } else {
        assert Linked(nodes, kids, q);
      }
    }
    if q == r {
      assert r[..|r| - 1] == p;
    } else {
      assert Linked(nodes, kids, q);
    }
  }

  lemma ShapeAttached(nodes: map<Route, Node>, kids: map<Route, map<string, Node>>, p: Route, t: string, n: Node)
    requires Shape(nodes, kids) && p in nodes && p + [t] !in nodes && n.at == p + [t]
    ensures Shape(nodes[p + [t] := n], Attached(kids, p, t, n))
  {
    var nodes', kids' := nodes[p + [t] := n], Attached(kids, p, t, n);
    forall q | q in nodes' ensures Linked(nodes', kids', q) {
      LinkedAttached(nodes, kids, p, t, n, q);
    }
    assert nodes'.Keys == kids'.Keys;
  }

  // The commands the nodes hold, by route.
  function Stored(cmds: map<Route, Option<Command>>): map<Route, Command> {
    map p | p in cmds && cmds[p].Some? :: cmds[p].value
  }

  lemma StoredNone(cmds: map<Route, Option<Command>>, p: Route)
    requires p !in cmds
    ensures Stored(cmds[p := None]) == Stored(cmds)
  {
  }

  lemma StoredSome(cmds: map<Route, Option<Command>>, p: Route, c: Command)
    ensures Stored(cmds[p := Some(c)]) == Stored(cmds)[p := c]
  {
  }

  class Tree {
    const root: Node
    ghost var nodes: map<Route, Node>
    ghost var kids: map<Route, map<string, Node>>   // what the nodes' fields hold
    ghost var cmds: map<Route, Option<Command>>

    ghost predicate Holds(p: Route)
      requires p in nodes && p in kids && p in cmds
      reads this, nodes[p]
    {
      nodes[p].children == kids[p] && nodes[p].cmd == cmds[p]
    }

    ghost predicate Valid()
      reads this, nodes.Values
    {
      && Shape(nodes, kids) && nodes[[]] == root && cmds.Keys == nodes.Keys
      && forall p {:trigger Holds(p)} :: p in nodes ==> Holds(p)
    }

    ghost function Contents(): map<Route, Command>
      reads this
    {
      Stored(cmds)
    }

    constructor ()
      ensures Valid() && nodes.Keys == {[]} && Contents() == map[] && fresh(nodes.Values)
    {
      root := new Node("", []);
      nodes, kids, cmds := map[[] := root], map[[] := map[]], map[[] := None];
    }

    method Attach(cur: Node, ghost p: Route, tok: string) returns (n: Node)
      requires Valid() && p in nodes && cur == nodes[p] && p + [tok] !in nodes
      modifies this`nodes, this`kids, this`cmds, cur`children
      ensures Valid() && fresh(n) && nodes == old(nodes)[p + [tok] := n]
      ensures cmds == old(cmds)[p + [tok] := None]
    {
      ghost var before := nodes;
      n := new Node(tok, p + [tok]);
      ShapeAttached(nodes, kids, p, tok, n);
      cur.children := cur.children[tok := n];
      nodes, kids, cmds := nodes[p + [tok] := n], Attached(kids, p, tok, n), cmds[p + [tok] := None];
      forall q | q in nodes ensures Holds(q) {
        assert q in before ==> old(Holds(q));
      }
    }

    // The child of that name, made if it is missing.
    method Descend(cur: Node, ghost p: Route, tok: string) returns (n: Node)
      requires Valid() && p in nodes && cur == nodes[p]
      modifies this`nodes, this`kids, this`cmds, cur`children
      ensures Valid() && Grown() && nodes.Keys == old(nodes.Keys) + {p + [tok]} && n == nodes[p + [tok]]
      ensures Contents() == old(Contents())
    {
      assert Linked(nodes, kids, p) && Holds(p);
      if tok in cur.children {
        n := cur.children[tok];
        return;
      }
      StoredNone(cmds, p + [tok]);
      n := Attach(cur, p, tok);
    }

    method Store(n: Node, ghost p: Route, c: Command)
      requires Valid() && p in nodes && n == nodes[p]
      modifies this`cmds, n`cmd
      ensures Valid() && Contents() == old(Contents())[p := c]
    {
      StoredSome(cmds, p, c);
      n.cmd := Some(c);
      cmds := cmds[p := Some(c)];
      forall q | q in nodes ensures Holds(q) {
        assert old(Holds(q));
      }
    }

    // Everything that was there stays; what is new is fresh.
    twostate predicate Grown()
      reads this
    {
      && (forall q :: q in old(nodes) ==> q in nodes && nodes[q] == old(nodes[q]))
      && (forall q :: q in nodes && q !in old(nodes) ==> fresh(nodes[q]))
    }

    // One step along the route.
    method ReachStep(cur: Node, route: Route, i: nat, ghost base: set<Route>) returns (n: Node)
      requires Valid() && i < |route| && route[..i] in nodes && cur == nodes[route[..i]]
      requires nodes.Keys == base + Prefixes(route[..i])
      modifies this`nodes, this`kids, this`cmds, cur`children
      ensures Valid() && Grown() && route[..i + 1] in nodes && n == nodes[route[..i + 1]]
      ensures nodes.Keys == base + Prefixes(route[..i + 1])
      ensures Contents() == old(Contents())
    {
      PrefixesStep(route, i);
      n := Descend(cur, route[..i], route[i]);
    }

    // Walks the route, making the nodes that are missing.
    method Reach(route: Route) returns (cur: Node)
      requires Valid()
      modifies this`nodes, this`kids, this`cmds, nodes.Values
      ensures Valid() && Grown() && route in nodes && cur == nodes[route]
      ensures nodes.Keys == old(nodes.Keys) + Prefixes(route)
      ensures Contents() == old(Contents())
    {
      cur := root;
      PrefixesNone(route);
      for i := 0 to |route|
        invariant Valid() && Grown() && route[..i] in nodes && cur == nodes[route[..i]]
        invariant nodes.Keys == old(nodes.Keys) + Prefixes(route[..i])
        invariant Contents() == old(Contents())
      {
        cur := ReachStep(cur, route, i, old(nodes.Keys));
      }
      assert route[..|route|] == route;
    }

    method Add(route: Route, c: Command)
      requires Valid()
      modifies this`nodes, this`kids, this`cmds, nodes.Values
      ensures Valid() && Grown() && nodes.Keys == old(nodes.Keys) + Prefixes(route)
      ensures Contents() == old(Contents())[route := c]
    {
      var cur := Reach(route);
      Store(cur, route, c);
    }

    // What a node's fields say, in terms of the routes.
    lemma NodeFacts(p: Route, t: string)
      requires Valid() && p in nodes
      ensures t in nodes[p].children <==> p + [t] in nodes
      ensures t in nodes[p].children ==> nodes[p].children[t] == nodes[p + [t]]
      ensures (if p in Contents() then Some(Contents()[p]) else None) == nodes[p].cmd
    {
      assert Linked(nodes, kids, p) && Holds(p);
    }

    // The node at the end of the path, if there is one.
    method Find(path: Route) returns (r: Node?)
      requires Valid()
      ensures r != null <==> path in nodes
      ensures r != null ==> r == nodes[path]
    {
      var cur := root;
      for i := 0 to |path|
        invariant path[..i] in nodes && cur == nodes[path[..i]]
      {
        assert Linked(nodes, kids, path[..i]) && Holds(path[..i]);
        assert path[..i] + [path[i]] == path[..i + 1];
        if path[i] !in cur.children {
          PrefixesPresent(nodes, kids, path, i + 1);
          return null;
        }
        cur := cur.children[path[i]];
      }
      assert path[..|path|] == path;
      r := cur;
    }
  }

  lemma PrefixesNone(r: Route)
    ensures r[..0] == [] && Prefixes(r[..0]) == {[]}
  {
    assert r[..0][..0] == [];
  }

  lemma PrefixesStep(r: Route, i: nat)
    requires i < |r|
    ensures r[..i] + [r[i]] == r[..i + 1]
    ensures Prefixes(r[..i + 1]) == Prefixes(r[..i]) + {r[..i + 1]}
  {
    var a, b := Prefixes(r[..i + 1]), Prefixes(r[..i]) + {r[..i + 1]};
    forall p ensures p in a <==> p in b {
      if p in a {
        var j :| 0 <= j <= i + 1 && p == r[..i + 1][..j];
        assert j <= i ==> p == r[..i][..j];
      }
      if p in b && p != r[..i + 1] {
        var j :| 0 <= j <= i && p == r[..i][..j];
        assert p == r[..i + 1][..j];
      }
      assert r[..i + 1] == r[..i + 1][..i + 1];
    }
  }

  // With a path, every prefix of it is there.
  lemma {:induction false} PrefixesPresent(nodes: map<Route, Node>, kids: map<Route, map<string, Node>>, p: Route,
          k: nat)
    requires Shape(nodes, kids) && k <= |p|
    ensures p in nodes ==> p[..k] in nodes
    decreases |p|
  {
    if k < |p| && p in nodes {
      assert Linked(nodes, kids, p);
      PrefixesPresent(nodes, kids, p[..|p| - 1], k);
      assert p[..|p| - 1][..k] == p[..k];
    } else {
      assert k == |p| ==> p[..k] == p;
    }
  }
}
