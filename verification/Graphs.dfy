/** Reachability and strongly connected components of a finite directed graph. */
module Graphs {

  type Node = string

  /** `edges[m]`: the modules that `m` imports. */
  type Graph = map<Node, set<Node>>

  function Succ(g: Graph, v: Node): set<Node> {
    if v in g then g[v] else {}
  }

  /** A node sequence in which each node imports the next. */
  predicate IsPath(g: Graph, p: seq<Node>) {
    p != [] && forall i :: 0 <= i < |p| - 1 ==> p[i + 1] in Succ(g, p[i])
  }

  ghost predicate Reach(g: Graph, a: Node, b: Node) {
    exists p: seq<Node> :: IsPath(g, p) && p[0] == a && p[|p| - 1] == b
  }

  ghost predicate Mutual(g: Graph, a: Node, b: Node) {
    Reach(g, a, b) && Reach(g, b, a)
  }

  /** A maximal set of mutually reachable nodes. */
  ghost predicate IsComponent(g: Graph, c: set<Node>) {
    && c != {}
    && (forall a, b :: a in c && b in c ==> Mutual(g, a, b))
    && (forall a, b :: a in c && Mutual(g, a, b) ==> b in c)
  }

  /** Some node lies on a cycle of at least one edge. */
  ghost predicate Cyclic(g: Graph) {
    exists p: seq<Node> :: IsPath(g, p) && |p| > 1 && p[0] == p[|p| - 1]
  }

  predicate Closed(g: Graph, c: set<Node>) {
    forall v <- c :: Succ(g, v) <= c
  }

  lemma ReachSelf(g: Graph, a: Node)
    ensures Reach(g, a, a)
  {
    assert IsPath(g, [a]);
  }

  lemma ReachEdge(g: Graph, a: Node, b: Node)
    requires b in Succ(g, a)
    ensures Reach(g, a, b)
  {
    assert IsPath(g, [a, b]);
  }

  lemma ReachJoin(g: Graph, a: Node, b: Node, c: Node)
    requires Reach(g, a, b) && Reach(g, b, c)
    ensures Reach(g, a, c)
  {
    var p: seq<Node> :| IsPath(g, p) && p[0] == a && p[|p| - 1] == b;
    var q: seq<Node> :| IsPath(g, q) && q[0] == b && q[|q| - 1] == c;
    var r := p + q[1..];
    forall i | 0 <= i < |r| - 1
      ensures r[i + 1] in Succ(g, r[i])
    {
      if i >= |p| - 1 {
        assert r[i] == q[i - |p| + 1] && r[i + 1] == q[i - |p| + 2];
      }
    }
    assert IsPath(g, r) && r[|r| - 1] == c;
  }

  lemma {:induction false} PathStaysInside(g: Graph, c: set<Node>, p: seq<Node>)
    requires Closed(g, c) && IsPath(g, p) && p[0] in c
    ensures p[|p| - 1] in c
    decreases |p|
  {
    if |p| > 1 {
      assert p[1] in Succ(g, p[0]);
      PathStaysInside(g, c, p[1..]);
    }
  }

  lemma ReachStaysInside(g: Graph, c: set<Node>, a: Node, b: Node)
    requires Closed(g, c) && a in c && Reach(g, a, b)
    ensures b in c
  {
    var p: seq<Node> :| IsPath(g, p) && p[0] == a && p[|p| - 1] == b;
    PathStaysInside(g, c, p);
  }

  /** Two components that share a node are the same. */
  lemma ComponentsAreDisjointOrEqual(g: Graph, c: set<Node>, d: set<Node>, v: Node)
    requires IsComponent(g, c) && IsComponent(g, d) && v in c && v in d
    ensures c == d
  {
    forall w
      ensures w in c <==> w in d
    {
      if w in c {
        assert Mutual(g, v, w);
      }
      if w in d {
        assert Mutual(g, v, w);
      }
    }
  }

  /** Without self-edges, a cycle exists exactly when two different nodes reach each other. */
  lemma CyclicIffMutualPair(g: Graph)
    requires forall v <- g :: v !in g[v]
    ensures Cyclic(g) <==> exists a: Node, b: Node :: a != b && Mutual(g, a, b)
  {
    if Cyclic(g) {
      var p: seq<Node> :| IsPath(g, p) && |p| > 1 && p[0] == p[|p| - 1];
      var a, b := p[0], p[1];
      assert b in Succ(g, a);
      ReachEdge(g, a, b);
      var q := p[1..];
      assert IsPath(g, q) && q[0] == b && q[|q| - 1] == a;
      assert a != b && Mutual(g, a, b);
    }
    if exists a: Node, b: Node :: a != b && Mutual(g, a, b) {
      var a: Node, b: Node :| a != b && Mutual(g, a, b);
      var p: seq<Node> :| IsPath(g, p) && p[0] == a && p[|p| - 1] == b;
      var q: seq<Node> :| IsPath(g, q) && q[0] == b && q[|q| - 1] == a;
      var r := p + q[1..];
      forall i | 0 <= i < |r| - 1
        ensures r[i + 1] in Succ(g, r[i])
      {
        if i >= |p| - 1 {
          assert r[i] == q[i - |p| + 1] && r[i + 1] == q[i - |p| + 2];
        }
      }
      assert IsPath(g, r) && |r| > 1 && r[0] == r[|r| - 1];
    }
  }
}
