/**
  The registry of services and the dependencies between them (gw/framework/core_graph.go), and registration through a
  factory (gw/framework/core.go). A node stands for one registered service and is known by its place in registration order.
 */
module ServiceGraph {
  import opened Basics

  /** A declaration: Requires(label) or, when optional, MayUse(label). */
  datatype Dep = Dep(target: string, optional: bool)

  datatype Edge = Edge(node: nat, optional: bool)

  datatype Node = Node(name: string, declared: seq<Dep>, deps: seq<Edge>, dependents: seq<Edge>)

  datatype Error =
    | Sealed
    | FactoryRunning
    | EmptyName
    | DuplicateName
    | EmptyLabel
    | SelfDependency
    | NotRegistered
    | RegisteredLater
    | BuildFailed
    | NilService
    | OtherName

  // ----- what a registration promises -----

  ghost function Names(nodes: seq<Node>): seq<string> {
    seq(|nodes|, i requires 0 <= i < |nodes| => nodes[i].name)
  }

  ghost predicate HasEdge(edges: seq<Edge>, target: nat) {
    exists k :: 0 <= k < |edges| && edges[k].node == target
  }

  /** At most one edge to any node. */
  ghost predicate SingleEdges(edges: seq<Edge>) {
    forall j, k :: 0 <= j < k < |edges| ==> edges[j].node != edges[k].node
  }

  ghost predicate Declares(declared: seq<Dep>, name: string) {
    exists k :: 0 <= k < |declared| && declared[k].target == name
  }

  ghost predicate AllOptional(declared: seq<Dep>, name: string) {
    forall k :: 0 <= k < |declared| && declared[k].target == name ==> declared[k].optional
  }

  ghost predicate EdgeOk(names: seq<string>, declared: seq<Dep>, e: Edge) {
    e.node < |names| && Declares(declared, names[e.node]) && (e.optional <==> AllOptional(declared, names[e.node]))
  }

  /** Exactly one edge for each of these names that is declared, optional only if all its declarations are; no other edge. */
  ghost predicate Resolves(names: seq<string>, declared: seq<Dep>, edges: seq<Edge>) {
    && SingleEdges(edges)
    && (forall k :: 0 <= k < |edges| ==> EdgeOk(names, declared, edges[k]))
    && (forall t :: 0 <= t < |names| && Declares(declared, names[t]) ==> HasEdge(edges, t))
  }

  /** What a declaration must be for its registration to be accepted. */
  predicate Acceptable(name: string, byName: map<string, nat>, d: Dep) {
    d.target != "" && d.target != name && (d.optional || d.target in byName)
  }

  /** Why a declaration is not acceptable. */
  function Fault(name: string, d: Dep): Error {
    if d.target == "" then EmptyLabel else if d.target == name then SelfDependency else NotRegistered
  }

  /** The error is that of the first declaration that is not. */
  ghost predicate DepRefused(name: string, byName: map<string, nat>, deps: seq<Dep>, e: Error) {
    exists i :: 0 <= i < |deps| && !Acceptable(name, byName, deps[i]) && e == Fault(name, deps[i])
                && forall k :: 0 <= k < i ==> Acceptable(name, byName, deps[k])
  }

  ghost predicate NamesOk(names: seq<string>, byName: map<string, nat>) {
    && (forall l :: l in byName ==> byName[l] < |names| && names[byName[l]] == l)
    && (forall i :: 0 <= i < |names| ==> names[i] in byName && byName[names[i]] == i)
  }

  // ----- the graph -----

  /** The mirror image of an edge list, on node t, of the node at idx. */
  ghost function Mirror(edges: seq<Edge>, t: nat, idx: nat): seq<Edge> {
    if edges == [] then []
    else
      var e := edges[|edges| - 1];
      Mirror(edges[..|edges| - 1], t, idx) + (if e.node == t then [Edge(idx, e.optional)] else [])
  }

  ghost function Attached(nodes: seq<Node>, n: Node): seq<Node> {
    seq(|nodes|, t requires 0 <= t < |nodes| =>
      nodes[t].(dependents := nodes[t].dependents + Mirror(n.deps, t, |nodes|))) + [n]
  }

  /** What is required is among these names, and nothing is declared of the node itself. */
  ghost predicate RequiredThere(names: seq<string>, n: Node) {
    forall k :: 0 <= k < |n.declared| ==> n.declared[k].target != n.name && (n.declared[k].optional || n.declared[k].target in names)
  }

  ghost predicate NodeOk(names: seq<string>, n: Node) {
    Resolves(names, n.declared, n.deps) && RequiredThere(names, n)
  }

  /** Every dependency is on an earlier node, as its declarations demand. */
  ghost predicate Backward(nodes: seq<Node>) {
    forall i :: 0 <= i < |nodes| ==> NodeOk(Names(nodes)[..i], nodes[i])
  }

  /** Node i's edges to t and t's mirror images of them carry the same verdicts. */
  ghost predicate PairOk(deps: seq<Edge>, i: nat, dependents: seq<Edge>, t: nat) {
    forall b: bool :: Edge(t, b) in deps <==> Edge(i, b) in dependents
  }

  /** Every dependent is mirrored once and was registered later. */
  ghost predicate DependentsOk(dependents: seq<Edge>, t: nat, count: nat) {
    SingleEdges(dependents) && forall k :: 0 <= k < |dependents| ==> t < dependents[k].node < count
  }

  ghost predicate Mirrored(nodes: seq<Node>) {
    && (forall t :: 0 <= t < |nodes| ==> DependentsOk(nodes[t].dependents, t, |nodes|))
    && (forall i, t :: 0 <= i < |nodes| && 0 <= t < |nodes| ==> PairOk(nodes[i].deps, i, nodes[t].dependents, t))
  }

  ghost predicate GraphOk(nodes: seq<Node>) {
    Backward(nodes) && Mirrored(nodes)
  }

  /** After a seal: every declared label naming a registered service has its edge. */
  ghost predicate Settled(nodes: seq<Node>) {
    forall i, t :: 0 <= i < |nodes| && 0 <= t < |nodes| && Declares(nodes[i].declared, nodes[t].name) ==>
      HasEdge(nodes[i].deps, t)
  }

  lemma {:induction false} MirrorOnly(edges: seq<Edge>, t: nat, idx: nat)
    ensures forall k :: 0 <= k < |Mirror(edges, t, idx)| ==> Mirror(edges, t, idx)[k].node == idx
    ensures !HasEdge(edges, t) ==> Mirror(edges, t, idx) == []
  {
    if edges != [] {
      var front, e := edges[..|edges| - 1], edges[|edges| - 1];
      MirrorOnly(front, t, idx);
      assert edges[|edges| - 1] == e && forall k :: 0 <= k < |front| ==> edges[k] == front[k];
    }
  }

  lemma {:induction false} MirrorHas(edges: seq<Edge>, t: nat, idx: nat, b: bool)
    requires SingleEdges(edges)
    ensures Edge(idx, b) in Mirror(edges, t, idx) <==> Edge(t, b) in edges
    ensures |Mirror(edges, t, idx)| <= 1
    ensures forall k :: 0 <= k < |Mirror(edges, t, idx)| ==> Mirror(edges, t, idx)[k].node == idx
  {
    MirrorOnly(edges, t, idx);
    if edges != [] {
      var front, e := edges[..|edges| - 1], edges[|edges| - 1];
      MirrorHas(front, t, idx, b);
      assert edges == front + [e];
      if e.node == t {
        MirrorOnly(front, t, idx);
        assert !HasEdge(front, t);
      }
    }
  }

  lemma AttachedNames(nodes: seq<Node>, n: Node)
    ensures Names(Attached(nodes, n)) == Names(nodes) + [n.name]
    ensures Names(Attached(nodes, n))[..|nodes|] == Names(nodes)
  {}

  lemma AttachedBackward(nodes: seq<Node>, n: Node)
    requires Backward(nodes) && NodeOk(Names(nodes), n)
    ensures Backward(Attached(nodes, n))
  {
    var nodes' := Attached(nodes, n);
    AttachedNames(nodes, n);
    forall i | 0 <= i < |nodes'|
      ensures NodeOk(Names(nodes')[..i], nodes'[i])
    {
      if i < |nodes| {
        assert Names(nodes')[..i] == Names(nodes)[..i];
      }
    }
  }

  lemma DependentsGrow(dependents: seq<Edge>, deps: seq<Edge>, t: nat, count: nat)
    requires DependentsOk(dependents, t, count) && SingleEdges(deps) && t < count
    ensures DependentsOk(dependents + Mirror(deps, t, count), t, count + 1)
    ensures PairOk(deps, count, dependents + Mirror(deps, t, count), t)
  {
    var m := Mirror(deps, t, count);
    MirrorHas(deps, t, count, true);
    MirrorHas(deps, t, count, false);
  }

  lemma PairStays(deps: seq<Edge>, i: nat, dependents: seq<Edge>, t: nat, more: seq<Edge>, count: nat)
    requires PairOk(deps, i, dependents, t) && i < count && SingleEdges(more)
    ensures PairOk(deps, i, dependents + Mirror(more, t, count), t)
  {
    MirrorHas(more, t, count, true);
  }

  lemma AttachedMirrored(nodes: seq<Node>, n: Node)
    requires GraphOk(nodes) && NodeOk(Names(nodes), n) && n.dependents == []
    ensures Mirrored(Attached(nodes, n))
  {
    var nodes', count := Attached(nodes, n), |nodes|;
    forall t | 0 <= t < |nodes'|
      ensures DependentsOk(nodes'[t].dependents, t, |nodes'|)
    {
      if t < count {
        DependentsGrow(nodes[t].dependents, n.deps, t, count);
      }
    }
    forall i, t | 0 <= i < |nodes'| && 0 <= t < |nodes'|
      ensures PairOk(nodes'[i].deps, i, nodes'[t].dependents, t)
    {
      if t == count {
        assert NodeOk(Names(nodes)[..if i < count then i else count], nodes'[i]) by {
          assert Names(nodes)[..count] == Names(nodes);
        }
      } else if i == count {
        DependentsGrow(nodes[t].dependents, n.deps, t, count);
      } else {
        PairStays(nodes[i].deps, i, nodes[t].dependents, t, n.deps, count);
      }
    }
  }

  // ----- levels -----

  /** The longest chain of dependents above a node. */
  ghost function Level(nodes: seq<Node>, i: nat): nat
    requires Mirrored(nodes) && i < |nodes|
    decreases |nodes| - i, |nodes[i].dependents| + 1
  {
    Deepest(nodes, i, |nodes[i].dependents|)
  }

  ghost function Deepest(nodes: seq<Node>, i: nat, k: nat): nat
    requires Mirrored(nodes) && i < |nodes| && k <= |nodes[i].dependents|
    decreases |nodes| - i, k
  {
    if k == 0 then 0
    else
      var before, l := Deepest(nodes, i, k - 1), Level(nodes, nodes[i].dependents[k - 1].node) + 1;
      if l > before then l else before
  }

  lemma {:induction false} DeepestAbove(nodes: seq<Node>, i: nat, k: nat, j: nat)
    requires Mirrored(nodes) && i < |nodes| && j < k <= |nodes[i].dependents|
    ensures Level(nodes, nodes[i].dependents[j].node) < Deepest(nodes, i, k)
    decreases k
  {
    if j < k - 1 {
      DeepestAbove(nodes, i, k - 1, j);
    }
  }

  lemma {:induction false} DeepestReached(nodes: seq<Node>, i: nat, k: nat) returns (j: nat)
    requires Mirrored(nodes) && i < |nodes| && k <= |nodes[i].dependents| && Deepest(nodes, i, k) > 0
    ensures j < k && Level(nodes, nodes[i].dependents[j].node) + 1 == Deepest(nodes, i, k)
    decreases k
  {
    if Level(nodes, nodes[i].dependents[k - 1].node) + 1 == Deepest(nodes, i, k) {
      j := k - 1;
    } else {
      j := DeepestReached(nodes, i, k - 1);
    }
  }

  /** A dependency lies strictly deeper than its dependent. */
  lemma EdgeDeeper(nodes: seq<Node>, i: nat, t: nat)
    requires GraphOk(nodes) && i < |nodes| && t < |nodes| && HasEdge(nodes[i].deps, t)
    ensures Level(nodes, i) < Level(nodes, t)
  {
    var k :| 0 <= k < |nodes[i].deps| && nodes[i].deps[k].node == t;
    assert PairOk(nodes[i].deps, i, nodes[t].dependents, t);
    assert Edge(t, nodes[i].deps[k].optional) in nodes[i].deps;
    var j :| 0 <= j < |nodes[t].dependents| && nodes[t].dependents[j] == Edge(i, nodes[i].deps[k].optional);
    DeepestAbove(nodes, t, |nodes[t].dependents|, j);
  }

  /** Below an occupied level every level is occupied. */
  lemma {:induction false} NoGaps(nodes: seq<Node>, i: nat, level: nat) returns (j: nat)
    requires Mirrored(nodes) && i < |nodes| && level <= Level(nodes, i)
    ensures j < |nodes| && Level(nodes, j) == level
    decreases |nodes| - i
  {
    if Level(nodes, i) == level {
      j := i;
    } else {
      var k := DeepestReached(nodes, i, |nodes[i].dependents|);
      j := NoGaps(nodes, nodes[i].dependents[k].node, level);
    }
  }

  /** Of the first n nodes, those of one level, in registration order. */
  ghost function AtLevel(nodes: seq<Node>, level: nat, n: nat): seq<nat>
    requires Mirrored(nodes) && n <= |nodes|
    decreases n
  {
    if n == 0 then []
    else AtLevel(nodes, level, n - 1) + (if Level(nodes, n - 1) == level then [n - 1] else [])
  }

  lemma {:induction false} AtLevelIs(nodes: seq<Node>, level: nat, n: nat)
    requires Mirrored(nodes) && n <= |nodes|
    ensures Distinct(AtLevel(nodes, level, n))
    ensures forall i :: i in AtLevel(nodes, level, n) <==> 0 <= i < n && Level(nodes, i) == level
    decreases n
  {
    if n > 0 {
      AtLevelIs(nodes, level, n - 1);
      var front := AtLevel(nodes, level, n - 1);
      assert forall k :: 0 <= k < |front| ==> front[k] in front;
    }
  }

  ghost predicate Listed(levels: seq<seq<nat>>, i: nat) {
    exists l :: 0 <= l < |levels| && i in levels[l]
  }

  /** Each service once, every dependency strictly deeper than its dependents, no level empty. */
  ghost predicate Layered(nodes: seq<Node>, levels: seq<seq<nat>>) {
    && (forall i :: 0 <= i < |nodes| ==> Listed(levels, i))
    && (forall l :: 0 <= l < |levels| ==> levels[l] != [] && Distinct(levels[l]))
    && (forall l, i :: 0 <= l < |levels| && i in levels[l] ==> i < |nodes|)
    && (forall l, m, i :: 0 <= l < |levels| && 0 <= m < |levels| && i in levels[l] && i in levels[m] ==> l == m)
    && (forall l, m, i, t :: 0 <= l < |levels| && 0 <= m < |levels| && i in levels[l] && t in levels[m] ==>
          HasEdge(nodes[i].deps, t) ==> l < m)
  }

  /** What the two passes compute: level by level, up to the highest occupied. */
  ghost predicate Grouped(nodes: seq<Node>, levels: seq<seq<nat>>)
    requires Mirrored(nodes)
  {
    && (forall l :: 0 <= l < |levels| ==> levels[l] == AtLevel(nodes, l, |nodes|))
    && (forall i :: 0 <= i < |nodes| ==> Level(nodes, i) < |levels|)
    && (|levels| > 0 ==> exists i :: 0 <= i < |nodes| && Level(nodes, i) == |levels| - 1)
  }

  lemma GroupedIsLayered(nodes: seq<Node>, levels: seq<seq<nat>>)
    requires GraphOk(nodes) && Grouped(nodes, levels)
    ensures Layered(nodes, levels)
  {
    forall l | 0 <= l < |levels|
      ensures levels[l] != [] && Distinct(levels[l])
      ensures forall i :: i in levels[l] <==> 0 <= i < |nodes| && Level(nodes, i) == l
    {
      AtLevelIs(nodes, l, |nodes|);
      var top :| 0 <= top < |nodes| && Level(nodes, top) == |levels| - 1;
      var j := NoGaps(nodes, top, l);
      assert j in levels[l];
    }
    forall i | 0 <= i < |nodes|
      ensures Listed(levels, i)
    {
      assert i in levels[Level(nodes, i)];
    }
    forall l, m, i, t | 0 <= l < |levels| && 0 <= m < |levels| && i in levels[l] && t in levels[m] && HasEdge(nodes[i].deps, t)
      ensures l < m
    {
      EdgeDeeper(nodes, i, t);
    }
  }

  /** One backward pass fills every node's level: a node's dependents are all registered after it. */
  method FillLevels(nodes: seq<Node>, lvl: array<nat>) returns (highest: nat)
    requires Mirrored(nodes) && lvl.Length == |nodes| > 0 && forall j :: 0 <= j < |nodes| ==> lvl[j] == 0
    modifies lvl
    ensures forall j :: 0 <= j < |nodes| ==> lvl[j] == Level(nodes, j) <= highest
    ensures exists j :: 0 <= j < |nodes| && Level(nodes, j) == highest
  {
    highest := 0;
    var i := |nodes|;
    ghost var top := 0;
    while i > 0
      invariant 0 <= i <= |nodes|
      invariant forall j :: i <= j < |nodes| ==> lvl[j] == Level(nodes, j) <= highest
      invariant forall j :: 0 <= j < i ==> lvl[j] == 0
      invariant if i == |nodes| then highest == 0 else i <= top < |nodes| && Level(nodes, top) == highest
    {
      i := i - 1;
      var k := 0;
      while k < |nodes[i].dependents|
        invariant 0 <= k <= |nodes[i].dependents|
        invariant lvl[i] == Deepest(nodes, i, k)
        invariant forall j :: 0 <= j < |nodes| && j != i ==> lvl[j] == if j < i then 0 else Level(nodes, j)
      {
        var l := lvl[nodes[i].dependents[k].node] + 1;
        if l > lvl[i] {
          lvl[i] := l;
        }
        k := k + 1;
      }
      if lvl[i] > highest || i == |nodes| - 1 {
        top := i;
      }
      if lvl[i] > highest {
        highest := lvl[i];
      }
    }
  }

  method Levels(nodes: seq<Node>) returns (out: seq<seq<nat>>)
    requires GraphOk(nodes)
    ensures Grouped(nodes, out) && Layered(nodes, out)
  {
    if |nodes| == 0 {
      return [];
    }
    var lvl := new nat[|nodes|](_ => 0);
    var highest := FillLevels(nodes, lvl);
    out := seq(highest + 1, _ => []);
    var i := 0;
    while i < |nodes|
      invariant 0 <= i <= |nodes| && |out| == highest + 1
      invariant forall l :: 0 <= l <= highest ==> out[l] == AtLevel(nodes, l, i)
    {
      out := out[lvl[i] := out[lvl[i]] + [i]];
      i := i + 1;
    }
    GroupedIsLayered(nodes, out);
  }

  // ----- the registry's code -----

  method IndexOfEdge(edges: seq<Edge>, target: nat) returns (j: int)
    ensures -1 <= j < |edges|
    ensures j >= 0 ==> edges[j].node == target
    ensures j < 0 <==> !HasEdge(edges, target)
  {
    j := 0;
    while j < |edges|
      invariant 0 <= j <= |edges| && forall k :: 0 <= k < j ==> edges[k].node != target
    {
      if edges[j].node == target {
        return;
      }
      j := j + 1;
    }
    j := -1;
  }

  lemma DeclareOne(declared: seq<Dep>, d: Dep, name: string)
    ensures Declares(declared + [d], name) <==> Declares(declared, name) || d.target == name
    ensures AllOptional(declared + [d], name) <==> AllOptional(declared, name) && (d.target == name ==> d.optional)
  {
    var more := declared + [d];
    assert more[|declared|] == d;
    assert forall k :: 0 <= k < |declared| ==> more[k] == declared[k];
  }

  /** A declaration of a name that is not registered changes no edge. */
  lemma ResolveNone(names: seq<string>, declared: seq<Dep>, edges: seq<Edge>, d: Dep)
    requires Resolves(names, declared, edges) && d.target !in names
    ensures Resolves(names, declared + [d], edges)
  {
    forall t | 0 <= t < |names|
      ensures Declares(declared + [d], names[t]) <==> Declares(declared, names[t])
      ensures AllOptional(declared + [d], names[t]) <==> AllOptional(declared, names[t])
    {
      DeclareOne(declared, d, names[t]);
    }
    assert forall k :: 0 <= k < |edges| ==> EdgeOk(names, declared, edges[k]);
  }

  /** A declaration of a registered name adds its edge, or makes the edge there as strict as itself. */
  lemma ResolveOne(names: seq<string>, declared: seq<Dep>, edges: seq<Edge>, d: Dep, t: nat, j: int)
    returns (edges': seq<Edge>)
    requires Resolves(names, declared, edges) && t < |names| && names[t] == d.target
    requires forall s :: 0 <= s < |names| && names[s] == d.target ==> s == t
    requires j < |edges| && (if j < 0 then !HasEdge(edges, t) else edges[j].node == t)
    ensures edges' == if j < 0 then edges + [Edge(t, d.optional)] else edges[j := Edge(t, edges[j].optional && d.optional)]
    ensures Resolves(names, declared + [d], edges')
  {
    edges' := if j < 0 then edges + [Edge(t, d.optional)] else edges[j := Edge(t, edges[j].optional && d.optional)];
    forall s | 0 <= s < |names|
      ensures Declares(declared + [d], names[s]) <==> Declares(declared, names[s]) || s == t
      ensures AllOptional(declared + [d], names[s]) <==> AllOptional(declared, names[s]) && (s == t ==> d.optional)
      ensures s == t && !HasEdge(edges, t) ==> !Declares(declared, names[s])
    {
      DeclareOne(declared, d, names[s]);
    }
    assert forall k :: 0 <= k < |edges| ==> EdgeOk(names, declared, edges[k]);
    assert !Declares(declared, names[t]) ==> AllOptional(declared, names[t]);
    if j >= 0 {
      assert forall k :: 0 <= k < |edges| ==> edges'[k].node == edges[k].node;
    } else {
      assert edges'[|edges|].node == t;
      assert forall k :: 0 <= k < |edges| ==> edges'[k] == edges[k];
    }
  }

  lemma AttachedKeeps(nodes: seq<Node>, byName: map<string, nat>, n: Node)
    requires GraphOk(nodes) && NamesOk(Names(nodes), byName)
    requires n.name !in byName && n.dependents == [] && NodeOk(Names(nodes), n)
    ensures GraphOk(Attached(nodes, n)) && NamesOk(Names(Attached(nodes, n)), byName[n.name := |nodes|])
    ensures forall k :: 0 <= k < |n.deps| ==> n.deps[k].node < |nodes|
  {
    AttachedNames(nodes, n);
    AttachedBackward(nodes, n);
    AttachedMirrored(nodes, n);
    assert forall k :: 0 <= k < |n.deps| ==> EdgeOk(Names(nodes), n.declared, n.deps[k]);
  }

  /** The mirror of each edge of n, at the end of its target's dependents. */
  method MirrorAll(nodes: seq<Node>, n: Node) returns (r: seq<Node>)
    requires forall k :: 0 <= k < |n.deps| ==> n.deps[k].node < |nodes|
    ensures r + [n] == Attached(nodes, n)
  {
    r := nodes;
    var k := 0;
    while k < |n.deps|
      invariant 0 <= k <= |n.deps| && |r| == |nodes|
      invariant forall t :: 0 <= t < |nodes| ==>
        r[t] == nodes[t].(dependents := nodes[t].dependents + Mirror(n.deps[..k], t, |nodes|))
    {
      var e := n.deps[k];
      assert n.deps[..k + 1][..k] == n.deps[..k];
      r := r[e.node := r[e.node].(dependents := r[e.node].dependents + [Edge(|nodes|, e.optional)])];
      k := k + 1;
    }
    assert n.deps[..k] == n.deps;
  }

  method IndexOfEdgeByName(nodes: seq<Node>, edges: seq<Edge>, name: string) returns (j: int)
    requires forall k :: 0 <= k < |edges| ==> edges[k].node < |nodes|
    ensures -1 <= j < |edges|
    ensures j >= 0 ==> nodes[edges[j].node].name == name
    ensures j < 0 ==> forall k :: 0 <= k < |edges| ==> nodes[edges[k].node].name != name
  {
    j := 0;
    while j < |edges|
      invariant 0 <= j <= |edges| && forall k :: 0 <= k < j ==> nodes[edges[k].node].name != name
    {
      if nodes[edges[j].node].name == name {
        return;
      }
      j := j + 1;
    }
    j := -1;
  }

  /** What one declaration of node i needs for the seal: its edge, if the name is registered at all. */
  ghost predicate DepSettled(nodes: seq<Node>, i: nat, d: Dep)
    requires i < |nodes|
  {
    forall t :: 0 <= t < |nodes| && nodes[t].name == d.target ==> HasEdge(nodes[i].deps, t)
  }

  /** A required dependency was settled at registration. */
  lemma RequiredSettled(nodes: seq<Node>, byName: map<string, nat>, i: nat, k: nat)
    requires Backward(nodes) && NamesOk(Names(nodes), byName) && i < |nodes| && k < |nodes[i].declared|
    requires !nodes[i].declared[k].optional
    ensures DepSettled(nodes, i, nodes[i].declared[k])
  {
    var names := Names(nodes);
    assert NodeOk(names[..i], nodes[i]);
    var name := nodes[i].declared[k].target;
    var s :| 0 <= s < i && names[..i][s] == name;
    assert HasEdge(nodes[i].deps, s);
    assert forall t :: 0 <= t < |nodes| && nodes[t].name == name ==> names[t] == name;
  }

  /** The edges of a registration: one per registered name, as strict as its strictest declaration. */
  method ResolveDeps(name: string, byName: map<string, nat>, ghost names: seq<string>, deps: seq<Dep>)
    returns (r: Result<seq<Edge>, Error>)
    requires NamesOk(names, byName)
    ensures r.Ok? <==> forall k :: 0 <= k < |deps| ==> Acceptable(name, byName, deps[k])
    ensures r.Err? ==> DepRefused(name, byName, deps, r.error)
    ensures r.Ok? ==> Resolves(names, deps, r.value)
  {
    var edges: seq<Edge> := [];
    var i := 0;
    while i < |deps|
      invariant 0 <= i <= |deps|
      invariant forall k :: 0 <= k < i ==> Acceptable(name, byName, deps[k])
      invariant Resolves(names, deps[..i], edges)
    {
      var d := deps[i];
      if !Acceptable(name, byName, d) {
        return Err(Fault(name, d));
      }
      assert deps[..i + 1] == deps[..i] + [d];
      if d.target !in byName {
        ResolveNone(names, deps[..i], edges, d);
      } else {
        var t := byName[d.target];
        var j := IndexOfEdge(edges, t);
        ghost var edges' := ResolveOne(names, deps[..i], edges, d, t, j);
        if j >= 0 {
          edges := edges[j := Edge(t, edges[j].optional && d.optional)];
        } else {
          edges := edges + [Edge(t, d.optional)];
        }
      }
      i := i + 1;
    }
    assert deps[..i] == deps;
    return Ok(edges);
  }

  /** An optional dependency with an edge by its name is settled; so is one whose name nobody has. */
  lemma OptionalSettled(nodes: seq<Node>, byName: map<string, nat>, i: nat, d: Dep, j: int)
    requires NamesOk(Names(nodes), byName) && i < |nodes| && j < |nodes[i].deps|
    requires if j < 0 then d.target !in byName
             else nodes[i].deps[j].node < |nodes| && nodes[nodes[i].deps[j].node].name == d.target
    ensures DepSettled(nodes, i, d)
  {
    assert forall t :: 0 <= t < |nodes| && nodes[t].name == d.target ==> Names(nodes)[t] == d.target;
    assert j >= 0 ==> Names(nodes)[nodes[i].deps[j].node] == d.target;
  }

  lemma LateUnsettled(nodes: seq<Node>, i: nat, k: nat, t: nat)
    requires i < |nodes| && k < |nodes[i].declared| && t < |nodes| && nodes[t].name == nodes[i].declared[k].target
    requires forall e :: 0 <= e < |nodes[i].deps| ==>
      nodes[i].deps[e].node < |nodes| && nodes[nodes[i].deps[e].node].name != nodes[t].name
    ensures !Settled(nodes)
  {
    assert Declares(nodes[i].declared, nodes[t].name) && !HasEdge(nodes[i].deps, t);
  }

  /** Some optional dependency of node i names a service that has no edge because it registered later. */
  method LateUse(nodes: seq<Node>, byName: map<string, nat>, i: nat) returns (late: bool)
    requires Backward(nodes) && NamesOk(Names(nodes), byName) && i < |nodes|
    ensures late ==> !Settled(nodes)
    ensures !late ==> forall k :: 0 <= k < |nodes[i].declared| ==> DepSettled(nodes, i, nodes[i].declared[k])
  {
    var n, k := nodes[i], 0;
    assert forall e :: 0 <= e < |n.deps| ==> n.deps[e].node < i by {
      assert NodeOk(Names(nodes)[..i], n);
      assert forall e :: 0 <= e < |n.deps| ==> EdgeOk(Names(nodes)[..i], n.declared, n.deps[e]);
    }
    while k < |n.declared|
      invariant 0 <= k <= |n.declared|
      invariant forall j :: 0 <= j < k ==> DepSettled(nodes, i, n.declared[j])
    {
      var d := n.declared[k];
      if !d.optional {
        RequiredSettled(nodes, byName, i, k);
      } else {
        var j := IndexOfEdgeByName(nodes, n.deps, d.target);
        if j < 0 && d.target in byName {
          assert nodes[byName[d.target]].name == d.target by { assert Names(nodes)[byName[d.target]] == d.target; }
          LateUnsettled(nodes, i, k, byName[d.target]);
          return true;
        }
        OptionalSettled(nodes, byName, i, d, j);
      }
      k := k + 1;
    }
    return false;
  }

  /**
    After a seal that was accepted: a declared name that is registered has exactly one edge, optional exactly when all its
    declarations are, and its target carries the same verdict back.
   */
  lemma SealedEdge(nodes: seq<Node>, i: nat, t: nat) returns (k: nat)
    requires GraphOk(nodes) && Settled(nodes) && i < |nodes| && t < |nodes| && Declares(nodes[i].declared, nodes[t].name)
    ensures k < |nodes[i].deps| && nodes[i].deps[k].node == t
    ensures forall j :: 0 <= j < |nodes[i].deps| && nodes[i].deps[j].node == t ==> j == k
    ensures nodes[i].deps[k].optional <==> AllOptional(nodes[i].declared, nodes[t].name)
    ensures Edge(i, nodes[i].deps[k].optional) in nodes[t].dependents
  {
    assert HasEdge(nodes[i].deps, t);
    k :| 0 <= k < |nodes[i].deps| && nodes[i].deps[k].node == t;
    assert NodeOk(Names(nodes)[..i], nodes[i]);
    assert EdgeOk(Names(nodes)[..i], nodes[i].declared, nodes[i].deps[k]);
    assert PairOk(nodes[i].deps, i, nodes[t].dependents, t);
    assert nodes[i].deps[k] in nodes[i].deps;
  }

  /** A node attached after the seal leaves every declaration settled exactly when nobody before it declares its name. */
  lemma AttachedSettled(nodes: seq<Node>, n: Node)
    requires GraphOk(nodes) && Settled(nodes) && NodeOk(Names(nodes), n)
    ensures Settled(Attached(nodes, n)) <==> forall i :: 0 <= i < |nodes| ==> !Declares(nodes[i].declared, n.name)
  {
    var nodes', count := Attached(nodes, n), |nodes|;
    forall i | 0 <= i < count
      ensures !HasEdge(nodes'[i].deps, count) && nodes'[i].declared == nodes[i].declared
    {
      assert NodeOk(Names(nodes)[..i], nodes[i]);
      assert forall k :: 0 <= k < |nodes[i].deps| ==> EdgeOk(Names(nodes)[..i], nodes[i].declared, nodes[i].deps[k]);
    }
    forall t | 0 <= t < count && Declares(n.declared, nodes'[t].name)
      ensures HasEdge(n.deps, t)
    {
      assert Names(nodes)[t] == nodes'[t].name;
    }
    assert nodes'[count] == n && !Declares(n.declared, n.name);
  }

  /** What a factory hands back; a service that declares dependencies of its own has them in `own`. */
  datatype Build = Failed | Nil | Built(name: string, own: Option<seq<Dep>>)

  /** What a factory may do to the graph while it runs. */
  datatype InFactory = Registers(name: string, deps: seq<Dep>) | Seals

  function Joined(own: Option<seq<Dep>>, deps: seq<Dep>): seq<Dep> {
    if own.Some? then own.value + deps else deps
  }

  class Graph {
    var nodes: seq<Node>
    var byName: map<string, nat>
    var isSealed: bool
    var pending: Option<string>

    ghost predicate Coherent()
      reads this
    {
      GraphOk(nodes) && NamesOk(Names(nodes), byName)
    }

    /** A registration under this name with these declarations is accepted. */
    predicate Accepts(name: string, deps: seq<Dep>)
      reads this
    {
      && !isSealed && pending.None? && name != "" && name !in byName
      && forall k :: 0 <= k < |deps| ==> Acceptable(name, byName, deps[k])
    }

    /** Why a registration under this name is refused: the first of these that holds. */
    ghost predicate Refused(name: string, deps: seq<Dep>, e: Error)
      reads this
    {
      if isSealed then e == Sealed
      else if pending.Some? then e == FactoryRunning
      else if name == "" then e == EmptyName
      else if name in byName then e == DuplicateName
      else DepRefused(name, byName, deps, e)
    }

    constructor ()
      ensures Coherent() && nodes == [] && !isSealed && pending.None?
    {
      nodes, byName, isSealed, pending := [], map[], false, None;
    }

    /** Checks a registration and builds its node, recording nothing. */
    method Resolve(name: string, deps: seq<Dep>) returns (r: Result<Node, Error>)
      requires Coherent()
      ensures r.Ok? <==> Accepts(name, deps)
      ensures r.Err? ==> Refused(name, deps, r.error)
      ensures r.Ok? ==> r.value.name == name && r.value.declared == deps && r.value.dependents == []
      ensures r.Ok? ==> NodeOk(Names(nodes), r.value)
    {
      if isSealed {
        return Err(Sealed);
      }
      if pending.Some? {
        return Err(FactoryRunning);
      }
      if name == "" {
        return Err(EmptyName);
      }
      if name in byName {
        return Err(DuplicateName);
      }
      var edges := ResolveDeps(name, byName, Names(nodes), deps);
      if edges.Err? {
        return Err(edges.error);
      }
      return Ok(Node(name, deps, edges.value, []));
    }

    /** Records a node: the mirror of each of its edges, its name, its slot. */
    method Attach(n: Node)
      requires Coherent() && n.name !in byName && n.dependents == [] && NodeOk(Names(nodes), n)
      modifies this`nodes, this`byName
      ensures Coherent() && nodes == Attached(old(nodes), n) && byName == old(byName)[n.name := |old(nodes)|]
    {
      AttachedKeeps(nodes, byName, n);
      var mirrored := MirrorAll(nodes, n);
      byName := byName[n.name := |nodes|];
      nodes := mirrored + [n];
    }

    /** Registers a service with what it depends on; a refused registration changes nothing. */
    method Add(name: string, deps: seq<Dep>) returns (r: Result<Node, Error>)
      requires Coherent()
      modifies this`nodes, this`byName
      ensures Coherent()
      ensures r.Ok? <==> old(Accepts(name, deps))
      ensures r.Ok? ==> r.value.name == name && r.value.declared == deps && nodes == Attached(old(nodes), r.value)
      ensures r.Err? ==> nodes == old(nodes) && byName == old(byName) && old(Refused(name, deps, r.error))
    {
      r := Resolve(name, deps);
      if r.Ok? {
        Attach(r.value);
      }
    }

    /**
      Registers a service its factory builds. While the factory runs every registration it tries is refused; it may close
      registration, and then a service with declarations of its own is refused too, while one without is still attached. A
      failed build, and a service that turns out to declare what cannot be accepted, leave the nodes as they were.
     */
    method RegisterServiceFunc(name: string, deps: seq<Dep>, does: seq<InFactory>, build: Build) returns (r: Result<Node, Error>)
      requires Coherent()
      modifies this
      ensures Coherent() && pending == old(pending)
      ensures isSealed <==> old(isSealed) || (old(Accepts(name, deps)) && Seals in does)
      ensures r.Ok? <==>
        && old(Accepts(name, deps)) && build.Built? && build.name == name
        && (build.own.Some? ==> Seals !in does && old(Accepts(name, Joined(build.own, deps))))
      ensures r.Ok? ==> r.value.name == name && r.value.declared == Joined(build.own, deps)
      ensures r.Ok? ==> nodes == Attached(old(nodes), r.value) && NodeOk(Names(old(nodes)), r.value)
      ensures r.Err? ==> nodes == old(nodes) && byName == old(byName)
      ensures r.Err? ==>
        if !old(Accepts(name, deps)) then old(Refused(name, deps, r.error))
        else if build.Failed? then r.error == BuildFailed
        else if build.Nil? then r.error == NilService
        else if build.name != name then r.error == OtherName
        else build.own.Some? && if Seals in does then r.error == Sealed
                                else DepRefused(name, old(byName), Joined(build.own, deps), r.error)
    {
      r := Resolve(name, deps);
      if r.Err? {
        return;
      }
      pending := Some(name);
      var i := 0;
      while i < |does|
        invariant Coherent() && pending.Some? && nodes == old(nodes) && byName == old(byName)
        invariant 0 <= i <= |does| && (isSealed <==> Seals in does[..i])
      {
        if does[i].Seals? {
          var sealing := Seal();
        } else {
          var refused := Add(does[i].name, does[i].deps);
        }
        i := i + 1;
      }
      assert does[..i] == does;
      pending := None;
      if build.Failed? {
        return Err(BuildFailed);
      }
      if build.Nil? {
        return Err(NilService);
      }
      if build.name != name {
        return Err(OtherName);
      }
      if build.own.Some? {
        r := Resolve(name, build.own.value + deps);
        if r.Err? {
          return;
        }
      }
      Attach(r.value);
    }

    /** Closes registration. Accepted exactly when every declared name that is registered has its edge. */
    method Seal() returns (r: Result<(), Error>)
      requires Coherent()
      modifies this`isSealed
      ensures Coherent() && isSealed
      ensures r == if Settled(nodes) then Ok(()) else Err(RegisteredLater)
    {
      isSealed := true;
      var i := 0;
      while i < |nodes|
        invariant 0 <= i <= |nodes| && isSealed && Coherent()
        invariant forall j, k :: 0 <= j < i && 0 <= k < |nodes[j].declared| ==> DepSettled(nodes, j, nodes[j].declared[k])
      {
        var late := LateUse(nodes, byName, i);
        if late {
          return Err(RegisteredLater);
        }
        i := i + 1;
      }
      return Ok(());
    }
  }

  lemma FirstHasNoEdges(nodes: seq<Node>)
    requires Backward(nodes) && nodes != []
    ensures nodes[0].deps == []
  {
    assert NodeOk(Names(nodes)[..0], nodes[0]);
    assert nodes[0].deps != [] ==> EdgeOk(Names(nodes)[..0], nodes[0].declared, nodes[0].deps[0]);
  }

  /** A service that may use "b", then "b" from a factory that seals: "b" is attached, and the label has no edge. */
  method SealedByFactory() returns (g: Graph)
    ensures g.isSealed && |g.nodes| == 2 && Declares(g.nodes[0].declared, g.nodes[1].name)
    ensures g.nodes[0].deps == [] && !Settled(g.nodes)
  {
    g := new Graph();
    var a := g.Add("a", [Dep("b", true)]);
    var nodes := g.nodes;
    FirstHasNoEdges(nodes);
    var b := g.RegisterServiceFunc("b", [], [Seals], Built("b", None));
    assert Seals == [Seals][0];
    assert nodes[0].declared[0].target == "b";
  }
}
