/** Finite directed graphs as adjacency lists: walks, cycles, reachability and orders of the nodes. */
module Graphs {
  import opened Wrappers

  type Node = string

  /** Adjacency lists; a node without an entry has no neighbours. */
  type Graph = map<Node, seq<Node>>

  /** One adjacency entry: the `index`-th neighbour of `node`. */
  datatype Entry = Entry(node: Node, index: nat)

  function Neighbors(g: Graph, n: Node): seq<Node> {
    if n in g then g[n] else []
  }

  predicate IsEntry(g: Graph, e: Entry) {
    e.index < |Neighbors(g, e.node)|
  }

  function Target(g: Graph, e: Entry): Node
    requires IsEntry(g, e)
  {
    Neighbors(g, e.node)[e.index]
  }

  predicate Edge(g: Graph, u: Node, v: Node) {
    v in Neighbors(g, u)
  }

  /** Every node that is a key or a neighbour. */
  ghost function Nodes(g: Graph): set<Node> {
    g.Keys + (set n, i | n in g && 0 <= i < |g[n]| :: g[n][i])
  }

  ghost predicate ClosedWalk(g: Graph, p: seq<Node>) {
    && |p| >= 2
    && p[0] == p[|p| - 1]
    && forall i :: 0 < i < |p| ==> Edge(g, p[i - 1], p[i])
  }

  ghost predicate SimpleCycle(g: Graph, p: seq<Node>) {
    ClosedWalk(g, p) && NoRepeats(p[..|p| - 1])
  }

  ghost predicate Acyclic(g: Graph) {
    forall p :: !ClosedWalk(g, p)
  }

  /** `u` occurs in `order` strictly before some occurrence of `v`. */
  ghost predicate Before(order: seq<Node>, u: Node, v: Node) {
    exists j, k :: 0 <= j < k < |order| && order[j] == u && order[k] == v
  }

  /** The target of every edge comes before its source. */
  ghost predicate ReverseTopological(g: Graph, order: seq<Node>) {
    forall u, v :: Edge(g, u, v) ==> Before(order, v, u)
  }

  /** `c` ends with the edge that the entry `e` stands for. */
  ghost predicate Closes(g: Graph, c: seq<Node>, e: Entry) {
    IsEntry(g, e) && |c| >= 2 && c[|c| - 2] == e.node && c[|c| - 1] == Target(g, e)
  }

  /** The edge from `u` to `v` closes one of the cycles. */
  ghost predicate ClosesOne(cycles: seq<seq<Node>>, u: Node, v: Node) {
    exists k :: 0 <= k < |cycles| && |cycles[k]| >= 2 &&
                cycles[k][|cycles[k]| - 2] == u && cycles[k][|cycles[k]| - 1] == v
  }

  /** Some edge of the walk closes one of the cycles. */
  ghost predicate IsCut(cycles: seq<seq<Node>>, p: seq<Node>) {
    exists i :: 0 < i < |p| && ClosesOne(cycles, p[i - 1], p[i])
  }

  /** Where positions fall along every step of a walk, they fall from its start to its end. */
  lemma {:induction false} WalkFalls(order: seq<Node>, p: seq<Node>, n: nat)
    requires NoRepeats(order)
    requires 0 < n < |p| && forall i :: 0 < i <= n ==> Before(order, p[i], p[i - 1])
    ensures Before(order, p[n], p[0])
  {
    assert Before(order, p[n], p[n - 1]);
    if n > 1 {
      WalkFalls(order, p, n - 1);
    }
  }

  /** A reverse topological order leaves no closed walk: positions fall along every edge. */
  lemma ReverseTopologicalIsAcyclic(g: Graph, order: seq<Node>)
    requires NoRepeats(order)
    requires ReverseTopological(g, order)
    ensures Acyclic(g)
  {
    forall p | ClosedWalk(g, p)
      ensures false
    {
      forall i | 0 < i <= |p| - 1
        ensures Before(order, p[i], p[i - 1])
      {
        assert Edge(g, p[i - 1], p[i]);
      }
      WalkFalls(order, p, |p| - 1);
    }
  }

  // ---------------------------------------------------------------------------
  // Reachability
  // ---------------------------------------------------------------------------

  ghost predicate Walk(g: Graph, p: seq<Node>, u: Node, v: Node) {
    && p != [] && p[0] == u && p[|p| - 1] == v
    && forall i :: 0 < i < |p| ==> Edge(g, p[i - 1], p[i])
  }

  ghost predicate Reachable(g: Graph, u: Node, v: Node) {
    exists p :: Walk(g, p, u, v)
  }

  ghost predicate ReachableFrom(g: Graph, sources: seq<Node>, v: Node) {
    exists i :: 0 <= i < |sources| && Reachable(g, sources[i], v)
  }

  lemma ReachesItself(g: Graph, u: Node)
    ensures Reachable(g, u, u)
  {
    assert Walk(g, [u], u, u);
  }

  /** What holds of a node and passes along edges holds of everything reachable from it. */
  lemma {:induction false} ClosedUnderWalks(g: Graph, nodes: set<Node>, p: seq<Node>, u: Node, v: Node)
    requires Walk(g, p, u, v) && u in nodes
    requires forall a, b :: a in nodes && Edge(g, a, b) ==> b in nodes
    ensures v in nodes
    decreases |p|
  {
    if |p| > 1 {
      var front := p[..|p| - 1];
      ClosedUnderWalks(g, nodes, front, u, front[|front| - 1]);
      assert Edge(g, p[|p| - 2], p[|p| - 1]);
    }
  }

  lemma OneMoreSource(g: Graph, sources: seq<Node>, u: Node, v: Node)
    ensures ReachableFrom(g, sources + [u], v) <==> ReachableFrom(g, sources, v) || Reachable(g, u, v)
  {
    var more := sources + [u];
    if i :| 0 <= i < |sources| && Reachable(g, sources[i], v) {
      assert more[i] == sources[i];
    }
    assert more[|sources|] == u;
  }
}
