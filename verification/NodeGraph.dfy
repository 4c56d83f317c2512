/** Kahn's algorithm over a multigraph kept in hash maps, and the runner that
    threads a state through the nodes in that order
    (crates/atomr-accel-agents/src/langgraph_nodes.rs). */
module NodeGraph {
  import opened Wrappers
  import Text

  /** `NodeId(pub u32)`. */
  type NodeId = n: nat | n < 0x1_0000_0000

  datatype Edge = Edge(src: NodeId, dst: NodeId)

  /** The graph as a value: the registered nodes and every edge ever added, in order.
      Edges may repeat, may be self-loops and may mention unregistered nodes. */
  datatype Graph = Graph(nodes: set<NodeId>, edges: seq<Edge>)

  function Targets(es: seq<Edge>): set<NodeId> {
    set e | e in es :: e.dst
  }

  /** The keys of the in-degree map: registered nodes and edge targets. */
  function Known(g: Graph): set<NodeId> {
    g.nodes + Targets(g.edges)
  }

  /** The adjacency list of `n`: targets in insertion order, repetitions included. */
  function Successors(es: seq<Edge>, n: NodeId): seq<NodeId> {
    if es == [] then []
    else
      var last := es[|es| - 1];
      Successors(es[..|es| - 1], n) + (if last.src == n then [last.dst] else [])
  }

  /** How many edges into `v` leave a node that is not in `done`. */
  function Unmet(es: seq<Edge>, done: set<NodeId>, v: NodeId): nat {
    if es == [] then 0
    else
      var last := es[|es| - 1];
      Unmet(es[..|es| - 1], done, v) + (if last.dst == v && last.src !in done then 1 else 0)
  }

  /** Finishing `n` meets exactly the edges of its adjacency list. */
  lemma {:induction false} UnmetSplit(es: seq<Edge>, done: set<NodeId>, n: NodeId, v: NodeId)
    requires n !in done
    ensures Unmet(es, done, v) == Unmet(es, done + {n}, v) + multiset(Successors(es, n))[v]
  {
    if es != [] {
      UnmetSplit(es[..|es| - 1], done, n, v);
    }
  }

  /** What the in-degree map holds while the adjacency list `todo` is still to be walked. */
  ghost function Owed(es: seq<Edge>, done: set<NodeId>, todo: seq<NodeId>, v: NodeId): nat {
    Unmet(es, done, v) + multiset(todo)[v]
  }

  lemma OwedStep(es: seq<Edge>, done: set<NodeId>, todo: seq<NodeId>, v: NodeId)
    requires todo != []
    ensures Owed(es, done, todo, v) == Owed(es, done, todo[1..], v) + (if v == todo[0] then 1 else 0)
  {
    assert todo == [todo[0]] + todo[1..];
  }

  lemma {:induction false} UnmetZero(es: seq<Edge>, done: set<NodeId>, v: NodeId)
    ensures Unmet(es, done, v) == 0 <==> forall e :: e in es && e.dst == v ==> e.src in done
  {
    if es != [] {
      UnmetZero(es[..|es| - 1], done, v);
      assert es == es[..|es| - 1] + [es[|es| - 1]];
    }
  }

  lemma {:induction false} SuccessorsAreTargets(es: seq<Edge>, n: NodeId)
    ensures forall v :: v in Successors(es, n) ==> Edge(n, v) in es
  {
    if es != [] {
      SuccessorsAreTargets(es[..|es| - 1], n);
    }
  }

  /** Appending an edge touches one adjacency list and one in-degree. */
  lemma EdgeAdded(es: seq<Edge>, e: Edge, v: NodeId)
    ensures Successors(es + [e], v) == Successors(es, v) + (if v == e.src then [e.dst] else [])
    ensures Unmet(es + [e], {}, v) == Unmet(es, {}, v) + (if v == e.dst then 1 else 0)
  {
    assert (es + [e])[..|es|] == es;
  }

  lemma TargetAdded(es: seq<Edge>, e: Edge)
    ensures Targets(es + [e]) == Targets(es) + {e.dst}
  {
    var all := es + [e];
    assert e in all;
    assert forall x :: x in all <==> x in es || x == e;
  }

  /** Every predecessor of the `i`-th node of `order` stands before it. */
  ghost predicate PredecessorsFirst(es: seq<Edge>, order: seq<NodeId>) {
    forall i, e :: 0 <= i < |order| && e in es && e.dst == order[i] ==> e.src in order[..i]
  }

  /** What Kahn's algorithm computes, whatever order the hash map lists the start nodes in:
      a list of known nodes, each once and after all its predecessors, that cannot be extended. */
  ghost predicate IsKahnOrder(g: Graph, order: seq<NodeId>) {
    && NoDup(order)
    && (forall v :: v in order ==> v in Known(g))
    && PredecessorsFirst(g.edges, order)
    && (forall v :: v in Known(g) && v !in order ==> Waits(g.edges, Elems(order), v))
  }

  /** Some predecessor of `v` is not in `done`. */
  ghost predicate Waits(es: seq<Edge>, done: set<NodeId>, v: NodeId) {
    exists e :: e in es && e.dst == v && e.src !in done
  }

  // ----- cycles -----

  ghost predicate IsWalk(es: seq<Edge>, p: seq<NodeId>) {
    forall i :: 0 <= i < |p| - 1 ==> Edge(p[i], p[i + 1]) in es
  }

  /** A closed walk with at least one edge. */
  ghost predicate IsCycle(es: seq<Edge>, p: seq<NodeId>) {
    |p| >= 2 && p[0] == p[|p| - 1] && IsWalk(es, p)
  }

  ghost predicate Acyclic(es: seq<Edge>) {
    !exists p :: IsCycle(es, p)
  }

  /** Every edge endpoint is registered. */
  ghost predicate Closed(g: Graph) {
    forall e :: e in g.edges ==> e.src in g.nodes && e.dst in g.nodes
  }

  /** The set that Kahn's algorithm orders does not depend on the hash-map iteration order,
      so neither does the success of a run. */
  lemma KahnSetIsUnique(g: Graph, o1: seq<NodeId>, o2: seq<NodeId>)
    requires IsKahnOrder(g, o1) && IsKahnOrder(g, o2)
    ensures Elems(o1) == Elems(o2) && |o1| == |o2|
  {
    KahnContained(g, o1, o2, |o1|);
    KahnContained(g, o2, o1, |o2|);
    assert o1[..|o1|] == o1 && o2[..|o2|] == o2;
    assert Elems(o1) == Elems(o2);
    NoDupCount(o1);
    NoDupCount(o2);
  }

  lemma {:induction false} KahnContained(g: Graph, o1: seq<NodeId>, o2: seq<NodeId>, n: nat)
    requires IsKahnOrder(g, o1) && IsKahnOrder(g, o2) && n <= |o1|
    ensures forall v :: v in o1[..n] ==> v in o2
  {
    if n > 0 {
      KahnContained(g, o1, o2, n - 1);
      var v := o1[n - 1];
      assert v in o1;
      assert o1[..n] == o1[..n - 1] + [v];
      forall e | e in g.edges && e.dst == v ensures e.src in Elems(o2) {
        assert e.src in o1[..n - 1];
      }
      assert !Waits(g.edges, Elems(o2), v);
    }
  }

  /** Walking edges backwards from position `b` stays in the order and moves left. */
  lemma {:induction false} WalkDescends(es: seq<Edge>, order: seq<NodeId>, p: seq<NodeId>, k: nat, b: nat) returns (a: nat)
    requires PredecessorsFirst(es, order) && IsWalk(es, p)
    requires k < |p| && b < |order| && order[b] == p[k]
    ensures a <= b && order[a] == p[0] && (k > 0 ==> a < b)
  {
    if k == 0 {
      a := b;
    } else {
      var e := Edge(p[k - 1], p[k]);
      assert e in es;
      assert e.src in order[..b];
      var c: nat :| c < b && order[c] == e.src;
      a := WalkDescends(es, order, p, k - 1, c);
    }
  }

  /** No vertex of a cycle is ever ordered. */
  lemma CycleNeverOrdered(es: seq<Edge>, order: seq<NodeId>, p: seq<NodeId>)
    requires NoDup(order) && PredecessorsFirst(es, order) && IsCycle(es, p)
    ensures forall v :: v in p ==> v !in order
  {
    var last := |p| - 1;
    forall b: nat | b < |order| ensures order[b] != p[last] {
      if order[b] == p[last] {
        var a := WalkDescends(es, order, p, last, b);
        assert false;
      }
    }
    forall k: nat, b: nat | k < |p| && b < |order| ensures order[b] != p[k] {
      if order[b] == p[k] {
        var a := WalkDescends(es, order, p, k, b);
        assert false;
      }
    }
  }

  ghost predicate HasPredecessor(es: seq<Edge>, among: set<NodeId>, v: NodeId) {
    exists e :: e in es && e.dst == v && e.src in among
  }

  /** If every node of `stuck` has a predecessor in `stuck`, walk back as far as wanted. */
  lemma {:induction false} StuckWalk(es: seq<Edge>, stuck: set<NodeId>, v: NodeId, k: nat) returns (p: seq<NodeId>)
    requires v in stuck
    requires forall u {:trigger HasPredecessor(es, stuck, u)} :: u in stuck ==> HasPredecessor(es, stuck, u)
    ensures |p| == k + 1 && p[k] == v && IsWalk(es, p) && Elems(p) <= stuck
    decreases k
  {
    if k == 0 {
      p := [v];
    } else {
      assert HasPredecessor(es, stuck, v);
      var e :| e in es && e.dst == v && e.src in stuck;
      var q := StuckWalk(es, stuck, e.src, k - 1);
      p := q + [v];
      forall i | 0 <= i < |p| - 1 ensures Edge(p[i], p[i + 1]) in es {
        assert i < |q| - 1 ==> p[i] == q[i] && p[i + 1] == q[i + 1];
        assert i == |q| - 1 ==> Edge(p[i], p[i + 1]) == e;
      }
    }
  }

  /** Such a set contains a cycle. */
  lemma StuckMeansCycle(es: seq<Edge>, stuck: set<NodeId>, v: NodeId) returns (c: seq<NodeId>)
    requires v in stuck
    requires forall u {:trigger HasPredecessor(es, stuck, u)} :: u in stuck ==> HasPredecessor(es, stuck, u)
    ensures IsCycle(es, c) && c[0] in stuck
  {
    var p := StuckWalk(es, stuck, v, |stuck|);
    var i, j := Pigeonhole(p, stuck);
    c := p[i..j + 1];
    forall k | 0 <= k < |c| - 1 ensures Edge(c[k], c[k + 1]) in es {
      assert c[k] == p[i + k] && c[k + 1] == p[i + k + 1];
    }
    assert p[i] in Elems(p);
  }

  // ----- when the topological order is accepted -----

  /** The exact condition for an order that lists precisely the registered nodes:
      registered nodes depend on registered nodes only, no registered node is on a cycle,
      and every unregistered edge target waits for some unregistered node. */
  ghost predicate Runnable(g: Graph) {
    && (forall e :: e in g.edges && e.dst in g.nodes ==> e.src in g.nodes)
    && (forall p :: IsCycle(g.edges, p) ==> p[0] !in g.nodes)
    && (forall t :: t in Targets(g.edges) && t !in g.nodes ==> Waits(g.edges, g.nodes, t))
  }

  lemma OrderIsNodesIffRunnable(g: Graph, order: seq<NodeId>)
    requires IsKahnOrder(g, order)
    ensures Elems(order) == g.nodes <==> Runnable(g)
  {
    if Elems(order) == g.nodes {
      OrderedNodesAreRunnable(g, order);
    }
    if Runnable(g) {
      RunnableNodesAreOrdered(g, order);
      OnlyRegistered(g, order, |order|);
      assert order[..|order|] == order;
    }
  }

  lemma OrderedNodesAreRunnable(g: Graph, order: seq<NodeId>)
    requires IsKahnOrder(g, order) && Elems(order) == g.nodes
    ensures Runnable(g)
  {
    forall p | IsCycle(g.edges, p) ensures p[0] !in g.nodes {
      CycleNeverOrdered(g.edges, order, p);
      assert p[0] in p;
    }
    forall e | e in g.edges && e.dst in g.nodes ensures e.src in g.nodes {
      assert e.dst in Elems(order);
      var i: nat :| i < |order| && order[i] == e.dst;
      assert e.src in order[..i];
      assert e.src in Elems(order);
    }
    forall t | t in Targets(g.edges) && t !in g.nodes ensures Waits(g.edges, g.nodes, t) {
      assert t !in Elems(order);
    }
  }

  lemma RunnableNodesAreOrdered(g: Graph, order: seq<NodeId>)
    requires IsKahnOrder(g, order) && Runnable(g)
    ensures g.nodes <= Elems(order)
  {
    var stuck := g.nodes - Elems(order);
    forall u | u in stuck ensures HasPredecessor(g.edges, stuck, u) {
      assert Waits(g.edges, Elems(order), u);
      var e :| e in g.edges && e.dst == u && e.src !in Elems(order);
      assert e.src in stuck;
    }
    forall v | v in g.nodes && v !in Elems(order) ensures false {
      assert v in stuck;
      var c := StuckMeansCycle(g.edges, stuck, v);
    }
  }

  lemma {:induction false} OnlyRegistered(g: Graph, order: seq<NodeId>, n: nat)
    requires IsKahnOrder(g, order) && Runnable(g) && n <= |order|
    ensures forall v :: v in order[..n] ==> v in g.nodes
  {
    if n > 0 {
      OnlyRegistered(g, order, n - 1);
      var t := order[n - 1];
      assert t in order && t in Known(g);
      assert order[..n] == order[..n - 1] + [t];
      forall e | e in g.edges && e.dst == t ensures e.src in g.nodes {
        assert e.src in order[..n - 1];
      }
      assert !Waits(g.edges, g.nodes, t);
    }
  }

  // ----- which nodes are ordered, and what the length test accepts -----

  ghost predicate OnCycle(es: seq<Edge>, v: NodeId) {
    exists c :: IsCycle(es, c) && c[0] == v
  }

  /** The walk `p` leads to `v` from a cycle, or from a node that is neither registered nor a target. */
  ghost predicate Blocks(g: Graph, p: seq<NodeId>, v: NodeId) {
    p != [] && p[|p| - 1] == v && IsWalk(g.edges, p) && (p[0] !in Known(g) || OnCycle(g.edges, p[0]))
  }

  ghost predicate Blocked(g: Graph, v: NodeId) {
    exists p :: Blocks(g, p, v)
  }

  lemma BlockedOnward(g: Graph, e: Edge)
    requires e in g.edges && Blocked(g, e.src)
    ensures Blocked(g, e.dst)
  {
    var p :| Blocks(g, p, e.src);
    var q := p + [e.dst];
    forall i | 0 <= i < |q| - 1 ensures Edge(q[i], q[i + 1]) in g.edges {
      assert i < |p| - 1 ==> q[i] == p[i] && q[i + 1] == p[i + 1];
      assert i == |p| - 1 ==> Edge(q[i], q[i + 1]) == e;
    }
    assert Blocks(g, q, e.dst);
  }

  lemma OrderedIsNotBlocked(g: Graph, order: seq<NodeId>, v: NodeId)
    requires IsKahnOrder(g, order) && v in order
    ensures !Blocked(g, v)
  {
    forall p ensures !Blocks(g, p, v) {
      if Blocks(g, p, v) {
        var b: nat :| b < |order| && order[b] == v;
        var a := WalkDescends(g.edges, order, p, |p| - 1, b);
        assert p[0] in order;
        OnCycleNotOrdered(g, order, p[0]);
      }
    }
  }

  lemma OnCycleNotOrdered(g: Graph, order: seq<NodeId>, v: NodeId)
    requires IsKahnOrder(g, order)
    ensures OnCycle(g.edges, v) ==> v !in order
  {
    if OnCycle(g.edges, v) {
      var c :| IsCycle(g.edges, c) && c[0] == v;
      assert c[0] in c;
      CycleNeverOrdered(g.edges, order, c);
    }
  }

  /** A node that waits, though nothing blocks it, waits for another such node. */
  lemma WaitsForUnblocked(g: Graph, order: seq<NodeId>, v: NodeId) returns (e: Edge)
    requires IsKahnOrder(g, order) && v in Known(g) && v !in order && !Blocked(g, v)
    ensures e in g.edges && e.dst == v && e.src in Known(g) && e.src !in order && !Blocked(g, e.src)
  {
    assert Waits(g.edges, Elems(order), v);
    e :| e in g.edges && e.dst == v && e.src !in Elems(order);
    if e.src !in Known(g) {
      assert Blocks(g, [e.src], e.src);
    }
    if Blocked(g, e.src) {
      BlockedOnward(g, e);
    }
  }

  lemma UnblockedIsOrdered(g: Graph, order: seq<NodeId>, v: NodeId)
    requires IsKahnOrder(g, order) && v in Known(g) && !Blocked(g, v)
    ensures v in order
  {
    if v !in order {
      var stuck := set u | u in Known(g) && u !in order && !Blocked(g, u);
      forall u | u in stuck ensures HasPredecessor(g.edges, stuck, u) {
        var e := WaitsForUnblocked(g, order, u);
        assert e.src in stuck;
      }
      var c := StuckMeansCycle(g.edges, stuck, v);
      assert OnCycle(g.edges, c[0]);
      assert Blocks(g, [c[0]], c[0]);
    }
  }

  /** Kahn's algorithm orders exactly the known nodes that no walk reaches from a cycle or an unknown node. */
  lemma OrderedIffUnblocked(g: Graph, order: seq<NodeId>, v: NodeId)
    requires IsKahnOrder(g, order)
    ensures v in order <==> v in Known(g) && !Blocked(g, v)
  {
    if v in order {
      OrderedIsNotBlocked(g, order, v);
    } else if v in Known(g) && !Blocked(g, v) {
      UnblockedIsOrdered(g, order, v);
    }
  }

  /** The registered nodes that are never ordered. */
  ghost function Stuck(g: Graph): set<NodeId> {
    set v | v in g.nodes && Blocked(g, v)
  }

  /** The unregistered targets that are ordered all the same. */
  ghost function Strays(g: Graph): set<NodeId> {
    set v | v in Targets(g.edges) && v !in g.nodes && !Blocked(g, v)
  }

  /** On any graph the length test of `topo_order` accepts exactly if as many unregistered targets are ordered as
      registered nodes are not. So it errs exactly if those two numbers agree without being 0. */
  lemma LengthTestIff(g: Graph, order: seq<NodeId>)
    requires IsKahnOrder(g, order)
    ensures |order| == |g.nodes| <==> |Stuck(g)| == |Strays(g)|
    ensures Runnable(g) <==> Stuck(g) == {} && Strays(g) == {}
    ensures |order| == |g.nodes| && !Runnable(g) <==> |Stuck(g)| == |Strays(g)| > 0
  {
    forall v ensures v in order <==> v in Known(g) && !Blocked(g, v) {
      OrderedIffUnblocked(g, order, v);
    }
    var done := Elems(order);
    NoDupCount(order);
    assert done == (g.nodes - Stuck(g)) + Strays(g);
    assert |done| == |g.nodes - Stuck(g)| + |Strays(g)|;
    assert |g.nodes - Stuck(g)| == |g.nodes| - |Stuck(g)|;
    OrderIsNodesIffRunnable(g, order);
    assert done == g.nodes <==> Stuck(g) == {} && Strays(g) == {};
  }

  /** Registering every edge target is enough for the length test to be right. */
  lemma LengthTestSound(g: Graph, order: seq<NodeId>)
    requires IsKahnOrder(g, order) && Targets(g.edges) <= g.nodes
    ensures |order| == |g.nodes| <==> Runnable(g)
  {
    assert Strays(g) == {};
    LengthTestIff(g, order);
  }

  /** On a graph whose edges join registered nodes, the length test of `topo_order`
      accepts exactly the acyclic graphs. */
  lemma TopoOkIffAcyclic(g: Graph, order: seq<NodeId>)
    requires Closed(g) && IsKahnOrder(g, order)
    ensures |order| == |g.nodes| <==> Acyclic(g.edges)
    ensures |order| == |g.nodes| ==> Elems(order) == g.nodes
  {
    assert Known(g) == g.nodes;
    assert Elems(order) <= g.nodes;
    NoDupCovers(order, g.nodes);
    OrderIsNodesIffRunnable(g, order);
    forall p | IsCycle(g.edges, p) ensures p[0] in g.nodes {
      assert Edge(p[0], p[1]) in g.edges;
    }
    assert forall t :: t in Targets(g.edges) ==> t in g.nodes;
  }

  /** A graph on which the length test errs: node 2 loops on itself and is
      never ordered, but the unregistered target 3 makes up the count. */
  lemma LengthTestCanBeFooled()
    ensures var g := Graph({1, 2}, [Edge(1, 3), Edge(2, 2)]);
            && IsKahnOrder(g, [1, 3]) && |[1, 3]| == |g.nodes|
            && IsCycle(g.edges, [2, 2]) && !Runnable(g)
  {
    var g := Graph({1, 2}, [Edge(1, 3), Edge(2, 2)]);
    var order: seq<NodeId> := [1, 3];
    assert Targets(g.edges) == {2, 3} by {
      assert Edge(1, 3) in g.edges && Edge(2, 2) in g.edges;
    }
    forall i, e | 0 <= i < |order| && e in g.edges && e.dst == order[i] ensures e.src in order[..i] {
      assert e == Edge(1, 3);
      assert order[..i] == [1];
    }
    assert Edge(2, 2) in g.edges;
    assert IsCycle(g.edges, [2, 2]);
  }

  // ----- the work loop -----

  /** Between two rounds: the in-degrees count unmet edges, and the nodes without any are
      exactly those that have been seen or are queued. */
  ghost predicate KahnState(g: Graph, seen: set<NodeId>, q: seq<NodeId>, inDeg: map<NodeId, nat>) {
    && inDeg.Keys == Known(g)
    && (forall v :: v in inDeg ==> inDeg[v] == Unmet(g.edges, seen, v))
    && (forall v :: v in q ==> v in inDeg)
    && (forall v :: v in seen ==> v in inDeg)
    && (forall v :: v in inDeg ==> (inDeg[v] == 0 <==> v in q || v in seen))
  }

  /** What has been emitted so far. */
  ghost predicate KahnPrefix(g: Graph, seen: set<NodeId>, out: seq<NodeId>) {
    NoDup(out) && Elems(out) == seen && seen <= Known(g) && PredecessorsFirst(g.edges, out)
  }

  /** Emitting the head of the queue keeps every node after its predecessors. */
  lemma KahnTakes(g: Graph, seen: set<NodeId>, q: seq<NodeId>, inDeg: map<NodeId, nat>, out: seq<NodeId>)
    requires KahnState(g, seen, q, inDeg) && KahnPrefix(g, seen, out) && q != [] && q[0] !in seen
    ensures KahnPrefix(g, seen + {q[0]}, out + [q[0]])
  {
    var n := q[0];
    var next := out + [n];
    assert n in q && inDeg[n] == 0;
    UnmetZero(g.edges, seen, n);
    assert forall v :: v in out ==> v in Elems(out);
    forall i, e | 0 <= i < |next| && e in g.edges && e.dst == next[i] ensures e.src in next[..i] {
      if i < |out| {
        assert next[..i] == out[..i] && next[i] == out[i];
      } else {
        assert e.src in Elems(out);
        assert next[..i] == out;
      }
    }
  }

  /** When the queue runs dry, every node left out has an unmet edge. */
  lemma KahnDone(g: Graph, seen: set<NodeId>, inDeg: map<NodeId, nat>, out: seq<NodeId>)
    requires KahnState(g, seen, [], inDeg) && KahnPrefix(g, seen, out)
    ensures IsKahnOrder(g, out)
  {
    assert forall v :: v in out ==> v in Elems(out);
    forall v | v in Known(g) && v !in out ensures Waits(g.edges, Elems(out), v) {
      assert v !in seen && inDeg[v] != 0;
      UnmetZero(g.edges, seen, v);
    }
  }

  /** Inside the inner loop over an adjacency list of which `todo` is left. */
  ghost predicate RelaxState(g: Graph, done: set<NodeId>, todo: seq<NodeId>, q: seq<NodeId>, inDeg: map<NodeId, nat>) {
    && inDeg.Keys == Known(g)
    && (forall v :: v in inDeg ==> inDeg[v] == Owed(g.edges, done, todo, v))
    && (forall v :: v in q ==> v in inDeg)
    && (forall v :: v in done ==> v in inDeg)
    && (forall v :: v in inDeg ==> (inDeg[v] == 0 <==> v in q || v in done))
  }

  lemma RelaxStarts(g: Graph, seen: set<NodeId>, q: seq<NodeId>, inDeg: map<NodeId, nat>)
    requires KahnState(g, seen, q, inDeg) && q != [] && q[0] !in seen
    ensures RelaxState(g, seen + {q[0]}, Successors(g.edges, q[0]), q[1..], inDeg)
    ensures forall v :: v in Successors(g.edges, q[0]) ==> v in Known(g)
  {
    var n := q[0];
    assert q == [n] + q[1..];
    forall v | v in inDeg ensures inDeg[v] == Owed(g.edges, seen + {n}, Successors(g.edges, n), v) {
      UnmetSplit(g.edges, seen, n, v);
    }
    SuccessorsAreTargets(g.edges, n);
    forall v | v in Successors(g.edges, n) ensures v in Known(g) {
      assert Edge(n, v) in g.edges;
    }
  }

  /** The decrement never saturates, and a node is queued at the moment its count reaches zero. */
  lemma RelaxStep(g: Graph, done: set<NodeId>, todo: seq<NodeId>, q: seq<NodeId>, inDeg: map<NodeId, nat>)
    requires RelaxState(g, done, todo, q, inDeg) && todo != [] && todo[0] in Known(g)
    ensures inDeg[todo[0]] > 0
    ensures var d := inDeg[todo[0]] - 1;
            RelaxState(g, done, todo[1..], if d == 0 then q + [todo[0]] else q, inDeg[todo[0] := d])
  {
    forall v ensures Owed(g.edges, done, todo, v) == Owed(g.edges, done, todo[1..], v) + (if v == todo[0] then 1 else 0) {
      OwedStep(g.edges, done, todo, v);
    }
  }

  /** The inner loop: one pass over the adjacency list of a node just emitted. */
  method Relax(ghost g: Graph, ghost done: set<NodeId>, succs: seq<NodeId>, q0: seq<NodeId>, inDeg0: map<NodeId, nat>)
    returns (q: seq<NodeId>, inDeg: map<NodeId, nat>)
    requires RelaxState(g, done, succs, q0, inDeg0)
    requires forall v :: v in succs ==> v in Known(g)
    ensures KahnState(g, done, q, inDeg)
  {
    q, inDeg := q0, inDeg0;
    assert succs[0..] == succs;
    var i := 0;
    while i < |succs|
      invariant 0 <= i <= |succs|
      invariant RelaxState(g, done, succs[i..], q, inDeg)
    {
      var s := succs[i];
      assert succs[i..][0] == s && succs[i..][1..] == succs[i + 1..];
      RelaxStep(g, done, succs[i..], q, inDeg);
      var d := if s in inDeg then inDeg[s] else 0;
      d := if d > 0 then d - 1 else 0;
      inDeg := inDeg[s := d];
      if d == 0 {
        q := q + [s];
      }
      i := i + 1;
    }
    assert succs[i..] == [];
  }

  // ----- running the nodes -----

  type NodeFn<!S> = S -> Result<S, GpuError>

  function MissingNode(id: NodeId): GpuError {
    Unrecoverable("NodeGraph: node NodeId(" + Text.Decimal(id) + ") missing")
  }

  const CYCLE := Unrecoverable("NodeGraph: cycle detected")

  lemma KnownMessage()
    ensures MissingNode(7) == Unrecoverable("NodeGraph: node NodeId(" + "7) missing")
  {}

  /** The reply of the run loop over `ids`, started in state `s`. */
  function RunAll<S>(nodes: map<NodeId, NodeFn<S>>, ids: seq<NodeId>, s: S): Result<S, GpuError> {
    if ids == [] then Ok(s)
    else if ids[0] !in nodes then Err(MissingNode(ids[0]))
    else match nodes[ids[0]](s)
      case Err(e) => Err(e)
      case Ok(next) => RunAll(nodes, ids[1..], next)
  }

  /** The nodes that this loop runs, in order; a node that replies with an error has run. */
  function Ran<S>(nodes: map<NodeId, NodeFn<S>>, ids: seq<NodeId>, s: S): seq<NodeId> {
    if ids == [] || ids[0] !in nodes then []
    else match nodes[ids[0]](s)
      case Err(_) => [ids[0]]
      case Ok(next) => [ids[0]] + Ran(nodes, ids[1..], next)
  }

  /** A successful loop has run every listed node, and all of them are registered. */
  lemma {:induction false} OkRanAll<S>(nodes: map<NodeId, NodeFn<S>>, ids: seq<NodeId>, s: S)
    requires RunAll(nodes, ids, s).Ok?
    ensures Ran(nodes, ids, s) == ids
    ensures forall v :: v in ids ==> v in nodes
  {
    if ids != [] {
      OkRanAll(nodes, ids[1..], nodes[ids[0]](s).value);
      assert ids == [ids[0]] + ids[1..];
    }
  }

  lemma {:induction false} RunSucceeds<S(!new)>(nodes: map<NodeId, NodeFn<S>>, ids: seq<NodeId>, s: S)
    requires forall v :: v in ids ==> v in nodes
    requires forall v, x :: v in nodes ==> nodes[v](x).Ok?
    ensures RunAll(nodes, ids, s).Ok?
  {
    if ids != [] {
      assert ids[0] in ids;
      RunSucceeds(nodes, ids[1..], nodes[ids[0]](s).value);
    }
  }

  /** `states` threads `s` through the nodes `ids`: each node turns one state into the next. */
  ghost predicate Threads<S>(nodes: map<NodeId, NodeFn<S>>, ids: seq<NodeId>, s: S, states: seq<S>) {
    && |states| == |ids| + 1 && states[0] == s
    && forall i :: 0 <= i < |ids| ==> ids[i] in nodes && nodes[ids[i]](states[i]) == Ok(states[i + 1])
  }

  /** The loop stops at the node `ids[k]`: it is not registered, or it replies with an error. */
  ghost predicate StopsAt<S>(nodes: map<NodeId, NodeFn<S>>, ids: seq<NodeId>, k: nat, state: S, e: GpuError)
    requires k < |ids|
  {
    if ids[k] in nodes then nodes[ids[k]](state) == Err(e) else e == MissingNode(ids[k])
  }

  lemma ThreadsOnward<S>(nodes: map<NodeId, NodeFn<S>>, ids: seq<NodeId>, k: nat, s: S, later: seq<S>)
    requires 0 < k <= |ids| && ids[0] in nodes && nodes[ids[0]](s).Ok?
    requires Threads(nodes, ids[1..][..k - 1], nodes[ids[0]](s).value, later)
    ensures Threads(nodes, ids[..k], s, [s] + later)
  {
    var states := [s] + later;
    forall i | 0 <= i < k
      ensures ids[..k][i] in nodes && nodes[ids[..k][i]](states[i]) == Ok(states[i + 1])
    {
      if i > 0 {
        assert ids[..k][i] == ids[1..][..k - 1][i - 1];
      }
    }
  }

  /** What the loop replies: the last of the states if every node hands one on, and otherwise the error at the first
      node that does not. */
  lemma {:induction false} RunAllThreads<S>(nodes: map<NodeId, NodeFn<S>>, ids: seq<NodeId>, s: S)
    returns (k: nat, states: seq<S>)
    ensures k <= |ids| && Threads(nodes, ids[..k], s, states)
    ensures match RunAll(nodes, ids, s)
            case Ok(last) => k == |ids| && last == states[k]
            case Err(e) => k < |ids| && StopsAt(nodes, ids, k, states[k], e)
  {
    k, states := 0, [s];
    if ids != [] && ids[0] in nodes && nodes[ids[0]](s).Ok? {
      var j, later := RunAllThreads(nodes, ids[1..], nodes[ids[0]](s).value);
      k, states := j + 1, [s] + later;
      ThreadsOnward(nodes, ids, k, s, later);
    }
  }

  /** Threading is unique, so this decides the reply. */
  lemma {:induction false} ThreadsDecide<S>(nodes: map<NodeId, NodeFn<S>>, ids: seq<NodeId>, s: S, states: seq<S>)
    requires Threads(nodes, ids, s, states)
    ensures RunAll(nodes, ids, s) == Ok(states[|ids|])
  {
    if ids != [] {
      assert forall i :: 0 <= i < |ids| - 1 ==> ids[1..][i] == ids[i + 1] && states[1..][i] == states[i + 1];
      ThreadsDecide(nodes, ids[1..], states[1], states[1..]);
    }
  }

  /** The reply to a `Run` message: the cycle error if the length test fails; the final state, threaded through all
      nodes in order, if every node hands a state on; else the missing node's or the first failing node's error. */
  lemma RunReplyThreads<S>(nodes: map<NodeId, NodeFn<S>>, order: seq<NodeId>, s: S) returns (k: nat, states: seq<S>)
    ensures k <= |order| && Threads(nodes, order[..k], s, states)
    ensures match RunReply(nodes, order, s)
            case Ok(last) => |order| == |nodes| && k == |order| && last == states[k]
            case Err(e) => if |order| != |nodes| then e == CYCLE
                           else k < |order| && StopsAt(nodes, order, k, states[k], e)
    ensures |order| == |nodes| && k == |order| ==> RunReply(nodes, order, s).Ok?
  {
    k, states := RunAllThreads(nodes, order, s);
    assert order[..|order|] == order;
    if k == |order| {
      ThreadsDecide(nodes, order, s, states);
    }
  }

  /** The length test of `topo_order`. */
  function ByLength(order: seq<NodeId>, n: nat): Result<seq<NodeId>, GpuError> {
    if |order| != n then Err(CYCLE) else Ok(order)
  }

  /** The reply to a `Run` message whose topological order came out as `order`. */
  function RunReply<S>(nodes: map<NodeId, NodeFn<S>>, order: seq<NodeId>, s: S): Result<S, GpuError> {
    if |order| != |nodes| then Err(CYCLE) else RunAll(nodes, order, s)
  }

  /** Any graph at all: a run replies `Ok` only if every registered node ran exactly once,
      after all its predecessors, and nothing else ran. */
  lemma RunOkMeansRanOnceInOrder<S>(nodes: map<NodeId, NodeFn<S>>, es: seq<Edge>, order: seq<NodeId>, s: S)
    requires IsKahnOrder(Graph(nodes.Keys, es), order)
    requires RunReply(nodes, order, s).Ok?
    ensures var ran := Ran(nodes, order, s);
            && NoDup(ran) && Elems(ran) == nodes.Keys && PredecessorsFirst(es, ran)
    ensures Runnable(Graph(nodes.Keys, es))
  {
    OkRanAll(nodes, order, s);
    assert Elems(order) <= nodes.Keys;
    NoDupCovers(order, nodes.Keys);
    assert |nodes.Keys| == |nodes|;
    OrderIsNodesIffRunnable(Graph(nodes.Keys, es), order);
  }

  /** If no node fails, a run replies `Ok` exactly on the runnable graphs. */
  lemma RunOkIffRunnable<S(!new)>(nodes: map<NodeId, NodeFn<S>>, es: seq<Edge>, order: seq<NodeId>, s: S)
    requires IsKahnOrder(Graph(nodes.Keys, es), order)
    requires forall v, x :: v in nodes ==> nodes[v](x).Ok?
    ensures RunReply(nodes, order, s).Ok? <==> Runnable(Graph(nodes.Keys, es))
  {
    var g := Graph(nodes.Keys, es);
    assert |nodes.Keys| == |nodes|;
    if RunReply(nodes, order, s).Ok? {
      RunOkMeansRanOnceInOrder(nodes, es, order, s);
    }
    if Runnable(g) {
      OrderIsNodesIffRunnable(g, order);
      NoDupCovers(order, nodes.Keys);
      forall v | v in order ensures v in nodes {
        assert v in Elems(order);
      }
      RunSucceeds(nodes, order, s);
    }
  }

  // ----- the graph object -----

  // ----- which node runs first -----

  ghost predicate StartsAt(ids: seq<NodeId>, v: NodeId) {
    ids != [] && ids[0] == v
  }

  /** The beginning of a run can always be completed. */
  lemma {:induction false} Extended(g: Graph, begun: seq<NodeId>) returns (order: seq<NodeId>)
    requires NoDup(begun) && PredecessorsFirst(g.edges, begun) && forall v :: v in begun ==> v in Known(g)
    ensures IsKahnOrder(g, order) && begun <= order
    decreases |Known(g)| - |begun|
  {
    if v :| v in Known(g) && v !in begun && !Waits(g.edges, Elems(begun), v) {
      var more := begun + [v];
      forall i, e | 0 <= i < |more| && e in g.edges && e.dst == more[i] ensures e.src in more[..i] {
        if i < |begun| {
          assert more[..i] == begun[..i];
        } else {
          assert more[..i] == begun;
          assert e.src in Elems(begun);
        }
      }
      assert Elems(more) <= Known(g);
      NoDupCovers(more, Known(g));
      order := Extended(g, more);
    } else {
      order := begun;
    }
  }

  lemma FirstHasNoPredecessor(g: Graph, order: seq<NodeId>)
    requires IsKahnOrder(g, order) && order != []
    ensures order[0] in Known(g) && !Waits(g.edges, {}, order[0])
  {
    assert order[0] in order;
    assert order[..0] == [];
    assert forall e :: e in g.edges && e.dst == order[0] ==> e.src in order[..0];
  }

  /** Any node without predecessors may come first: which one does is up to the hash map. */
  lemma SourceMayComeFirst(g: Graph, v: NodeId) returns (order: seq<NodeId>)
    requires v in Known(g) && !Waits(g.edges, {}, v)
    ensures IsKahnOrder(g, order) && StartsAt(order, v)
  {
    assert forall e :: e in g.edges ==> e.dst != v;
    order := Extended(g, [v]);
  }

  /** On a runnable graph every order starts at `entry` exactly if all other registered nodes have predecessors. */
  lemma EntryComesFirstIff(g: Graph, entry: NodeId)
    requires Runnable(g) && entry in g.nodes
    ensures (forall order :: IsKahnOrder(g, order) ==> StartsAt(order, entry)) <==>
            (forall v :: v in g.nodes && v != entry ==> Waits(g.edges, {}, v))
  {
    if v :| v in g.nodes && v != entry && !Waits(g.edges, {}, v) {
      var order := SourceMayComeFirst(g, v);
      assert IsKahnOrder(g, order) && !StartsAt(order, entry);
    }
    if forall v :: v in g.nodes && v != entry ==> Waits(g.edges, {}, v) {
      forall order: seq<NodeId> | IsKahnOrder(g, order) ensures StartsAt(order, entry) {
        OrderIsNodesIffRunnable(g, order);
        assert entry in Elems(order);
        FirstHasNoPredecessor(g, order);
        assert order[0] in Elems(order);
      }
    }
  }

  /** When the entry node is the first to run: on a runnable graph, whatever order the hash map is iterated in and
      whatever the nodes reply, exactly if every other registered node has a predecessor. `Run` never looks at it. */
  lemma EntryRunsFirstIff<S>(nodes: map<NodeId, NodeFn<S>>, es: seq<Edge>, entry: NodeId, s: S)
    requires Runnable(Graph(nodes.Keys, es)) && entry in nodes
    ensures (forall order :: IsKahnOrder(Graph(nodes.Keys, es), order) ==> StartsAt(Ran(nodes, order, s), entry)) <==>
            (forall v :: v in nodes && v != entry ==> Waits(es, {}, v))
  {
    var g := Graph(nodes.Keys, es);
    forall order: seq<NodeId> | IsKahnOrder(g, order)
      ensures StartsAt(Ran(nodes, order, s), entry) <==> StartsAt(order, entry)
    {
      OrderIsNodesIffRunnable(g, order);
      assert entry in Elems(order);
      assert order[0] in Elems(order);
    }
    EntryComesFirstIff(g, entry);
  }

  /** Two nodes without edges: with node 1 as the entry, node 2 may still run first. */
  lemma EntryMayRunSecond<S>(run: NodeFn<S>, s: S)
    ensures var nodes := map[1 := run, 2 := run];
            var g := Graph(nodes.Keys, []);
            Runnable(g) && IsKahnOrder(g, [2, 1]) && StartsAt(Ran(nodes, [2, 1], s), 2)
  {
    var nodes := map[1 := run, 2 := run];
    var g := Graph(nodes.Keys, []);
    assert Targets([]) == {};
    forall p ensures !IsCycle(g.edges, p) {
      if |p| >= 2 {
        assert Edge(p[0], p[1]) !in g.edges;
      }
    }
  }

  // ----- the graph as the original keeps it -----

  /** The adjacency lists and the in-degree map of graph `g`. */
  ghost predicate Agrees(g: Graph, edges: map<NodeId, seq<NodeId>>, inDegree: map<NodeId, nat>) {
    && inDegree.Keys == Known(g)
    && (forall v :: v in inDegree ==> inDegree[v] == Unmet(g.edges, {}, v))
    && (forall n :: Listed(edges, n) == Successors(g.edges, n))
  }

  function Listed(edges: map<NodeId, seq<NodeId>>, n: NodeId): seq<NodeId> {
    if n in edges then edges[n] else []
  }

  lemma InDegreeAfterEdge(g: Graph, inDegree: map<NodeId, nat>, e: Edge, v: NodeId)
    requires inDegree.Keys == Known(g) && (v in inDegree ==> inDegree[v] == Unmet(g.edges, {}, v))
    ensures (if v in inDegree then inDegree[v] else 0) + (if v == e.dst then 1 else 0) == Unmet(g.edges + [e], {}, v)
  {
    EdgeAdded(g.edges, e, v);
    if v !in inDegree {
      UnmetZero(g.edges, {}, v);
    }
  }

  lemma EdgeKeepsAgreement(g: Graph, edges: map<NodeId, seq<NodeId>>, inDegree: map<NodeId, nat>, e: Edge)
    requires Agrees(g, edges, inDegree)
    ensures Agrees(Graph(g.nodes, g.edges + [e]), edges[e.src := Listed(edges, e.src) + [e.dst]],
                   inDegree[e.dst := (if e.dst in inDegree then inDegree[e.dst] else 0) + 1])
  {
    InDegreesAfterEdge(g, inDegree, e);
    ListsAfterEdge(g, edges, e);
  }

  lemma InDegreesAfterEdge(g: Graph, inDegree: map<NodeId, nat>, e: Edge)
    requires inDegree.Keys == Known(g) && forall v :: v in inDegree ==> inDegree[v] == Unmet(g.edges, {}, v)
    ensures var inDegree' := inDegree[e.dst := (if e.dst in inDegree then inDegree[e.dst] else 0) + 1];
            && inDegree'.Keys == Known(Graph(g.nodes, g.edges + [e]))
            && forall v :: v in inDegree' ==> inDegree'[v] == Unmet(g.edges + [e], {}, v)
  {
    TargetAdded(g.edges, e);
    forall v ensures (if v in inDegree then inDegree[v] else 0) + (if v == e.dst then 1 else 0) ==
                     Unmet(g.edges + [e], {}, v)
    {
      InDegreeAfterEdge(g, inDegree, e, v);
    }
  }

  lemma ListsAfterEdge(g: Graph, edges: map<NodeId, seq<NodeId>>, e: Edge)
    requires forall n :: Listed(edges, n) == Successors(g.edges, n)
    ensures forall n :: Listed(edges[e.src := Listed(edges, e.src) + [e.dst]], n) == Successors(g.edges + [e], n)
  {
    forall n ensures Listed(edges[e.src := Listed(edges, e.src) + [e.dst]], n) == Successors(g.edges + [e], n) {
      EdgeAdded(g.edges, e, n);
    }
  }

  class NodeGraph<S> {
    var nodes: map<NodeId, NodeFn<S>>
    var edges: map<NodeId, seq<NodeId>>
    var inDegree: map<NodeId, nat>
    var entry: Option<NodeId>
    /** Every edge added so far. */
    ghost var log: seq<Edge>

    ghost function Value(): Graph reads this {
      Graph(nodes.Keys, log)
    }

    /** The two maps agree with the edge log. */
    ghost predicate Valid() reads this {
      Agrees(Value(), edges, inDegree)
    }

    constructor ()
      ensures Valid() && Value() == Graph({}, []) && nodes == map[] && entry == None
    {
      nodes, edges, inDegree, entry, log := map[], map[], map[], None, [];
    }

    method AddNode(id: NodeId, node: NodeFn<S>)
      requires Valid()
      modifies this
      ensures Valid() && nodes == old(nodes)[id := node] && log == old(log) && entry == old(entry)
    {
      nodes := nodes[id := node];
      if id !in inDegree {
        UnmetZero(log, {}, id);
        inDegree := inDegree[id := 0];
      }
    }

    method AddEdge(src: NodeId, dst: NodeId)
      requires Valid()
      modifies this
      ensures Valid() && nodes == old(nodes) && log == old(log) + [Edge(src, dst)] && entry == old(entry)
    {
      EdgeKeepsAgreement(Value(), edges, inDegree, Edge(src, dst));
      edges := edges[src := Listed(edges, src) + [dst]];
      inDegree := inDegree[dst := (if dst in inDegree then inDegree[dst] else 0) + 1];
      log := log + [Edge(src, dst)];
    }

    method SetEntry(id: NodeId)
      requires Valid()
      modifies this
      ensures Valid() && nodes == old(nodes) && log == old(log) && entry == Some(id)
    {
      entry := Some(id);
    }

    /** The start queue: all known nodes of in-degree zero, in whatever order the map lists them. */
    method ReadyNodes() returns (q: seq<NodeId>)
      ensures forall v :: v in q <==> v in inDegree && inDegree[v] == 0
    {
      q := [];
      var rest := inDegree.Keys;
      while rest != {}
        invariant rest <= inDegree.Keys
        invariant forall v :: v in q <==> v in inDegree && v !in rest && inDegree[v] == 0
        decreases rest
      {
        var v :| v in rest;
        rest := rest - {v};
        if inDegree[v] == 0 {
          q := q + [v];
        }
      }
    }

    /** The list that the loop produces is accepted or refused by its length. */
    method TopoOrder() returns (r: Result<seq<NodeId>, GpuError>)
      requires Valid()
      ensures exists order :: IsKahnOrder(Value(), order) && r == ByLength(order, |nodes|)
    {
      ghost var g := Value();
      var inDeg := inDegree;
      var q := ReadyNodes();
      var out: seq<NodeId> := [];
      var seen: set<NodeId> := {};
      while q != []
        invariant KahnState(g, seen, q, inDeg)
        invariant KahnPrefix(g, seen, out)
        decreases Known(g) - seen, |q|
      {
        var n := q[0];
        if n in seen {
          assert forall v :: v in q ==> v in q[1..] || v == n;
          q := q[1..];
        } else {
          KahnTakes(g, seen, q, inDeg, out);
          RelaxStarts(g, seen, q, inDeg);
          var succs := Listed(edges, n);
          seen := seen + {n};
          out := out + [n];
          q, inDeg := Relax(g, seen, succs, q[1..], inDeg);
        }
      }
      KahnDone(g, seen, inDeg, out);
      r := if |out| != |nodes| then Err(CYCLE) else Ok(out);
      assert IsKahnOrder(Value(), out) && r == ByLength(out, |nodes|);
    }

    /** The actor's `Run` message. */
    method Run(state: S) returns (r: Result<S, GpuError>)
      requires Valid()
      ensures exists order :: IsKahnOrder(Value(), order) && r == RunReply(nodes, order, state)
    {
      var o := TopoOrder();
      ghost var order :| IsKahnOrder(Value(), order) && o == ByLength(order, |nodes|);
      if o.Err? {
        assert RunReply(nodes, order, state) == Err(o.error);
        return Err(o.error);
      }
      var ids := o.value;
      var s := state;
      var i := 0;
      assert ids[0..] == ids;
      while i < |ids|
        invariant 0 <= i <= |ids|
        invariant RunAll(nodes, ids, state) == RunAll(nodes, ids[i..], s)
      {
        var id := ids[i];
        assert ids[i..][0] == id && ids[i..][1..] == ids[i + 1..];
        if id !in nodes {
          return Err(MissingNode(id));
        }
        var res := nodes[id](s);
        if res.Err? {
          return Err(res.error);
        }
        s := res.value;
        i := i + 1;
      }
      assert ids[i..] == [];
      r := Ok(s);
    }
  }
}
