/** The block graph of block.c: nodes and the BdrvChild edges between them.

    An edge belongs to a node, or to none if it is held by a block backend or a job; `bs` gives the node
    that an attached edge points to.  The lists of children and parents are sets: rolling a change back
    puts an edge back into them at another place. */
module BlockGraph {

  type Node = nat
  type Edge = nat

  datatype Graph = Graph(nodes: set<Node>, owner: map<Edge, Node>, bs: map<Edge, Node>)

  predicate Owns(g: Graph, v: Node, e: Edge) {
    e in g.bs && e in g.owner && g.owner[e] == v
  }

  ghost predicate WellFormed(g: Graph) {
    && (forall e :: e in g.bs ==> g.bs[e] in g.nodes)
    && (forall e :: e in g.owner ==> g.owner[e] in g.nodes)
  }

  /** The list bs->children, which bdrv_child_cb_attach and bdrv_child_cb_detach keep. */
  function Children(g: Graph, v: Node): set<Edge> {
    set e | e in g.bs && Owns(g, v, e)
  }

  /** The list bs->parents. */
  function Parents(g: Graph, v: Node): set<Edge> {
    set e | e in g.bs && g.bs[e] == v
  }

  /** Some edge of `u` points to `w`. */
  ghost predicate Child(g: Graph, u: Node, w: Node) {
    exists e :: Owns(g, u, e) && g.bs[e] == w
  }

  /** A walk from its first to its last node along edges. */
  ghost predicate Path(g: Graph, p: seq<Node>) {
    |p| > 0 && forall i :: 0 <= i < |p| - 1 ==> Child(g, p[i], p[i + 1])
  }

  ghost predicate PathFrom(g: Graph, p: seq<Node>, u: Node, w: Node) {
    Path(g, p) && p[0] == u && p[|p| - 1] == w
  }

  ghost predicate Reaches(g: Graph, u: Node, w: Node) {
    exists p :: PathFrom(g, p, u, w)
  }

  lemma ReachesSelf(g: Graph, u: Node)
    ensures Reaches(g, u, u)
  {
    assert PathFrom(g, [u], u, u);
  }

  lemma ReachesChild(g: Graph, u: Node, v: Node, w: Node)
    requires Reaches(g, u, v) && Child(g, v, w)
    ensures Reaches(g, u, w)
  {
    var p :| PathFrom(g, p, u, v);
    var q := p + [w];
    forall i | 0 <= i < |q| - 1 ensures Child(g, q[i], q[i + 1]) {
      if i < |p| - 1 { assert Child(g, p[i], p[i + 1]); }
    }
    assert PathFrom(g, q, u, w);
  }

  lemma ChildReaches(g: Graph, u: Node, v: Node, w: Node)
    requires Child(g, u, v) && Reaches(g, v, w)
    ensures Reaches(g, u, w)
  {
    var p :| PathFrom(g, p, v, w);
    var q := [u] + p;
    forall i | 0 <= i < |q| - 1 ensures Child(g, q[i], q[i + 1]) {
      if i > 0 { assert Child(g, p[i - 1], p[i]); }
    }
    assert PathFrom(g, q, u, w);
  }

  /** A set that holds `u` and all children of its members holds all that `u` reaches. */
  lemma {:induction false} ClosedReaches(g: Graph, s: set<Node>, p: seq<Node>)
    requires Path(g, p) && p[0] in s
    requires forall v, w :: v in s && Child(g, v, w) ==> w in s
    ensures p[|p| - 1] in s
  {
    if |p| > 1 {
      assert Child(g, p[0], p[1]);
      var q := p[1..];
      forall i | 0 <= i < |q| - 1 ensures Child(g, q[i], q[i + 1]) {
        assert Child(g, p[i + 1], p[i + 2]);
      }
      ClosedReaches(g, s, q);
    }
  }

  // ----- Acyclic graphs -----

  /** Every edge leads to a node of smaller rank. */
  ghost predicate Ranked(g: Graph, rank: map<Node, nat>) {
    && rank.Keys == g.nodes
    && forall v, e :: Owns(g, v, e) && v in rank && g.bs[e] in rank ==> rank[g.bs[e]] < rank[v]
  }

  ghost predicate Acyclic(g: Graph) {
    exists rank :: Ranked(g, rank)
  }

  lemma {:induction false} RankDrops(g: Graph, rank: map<Node, nat>, p: seq<Node>)
    requires WellFormed(g) && Ranked(g, rank) && Path(g, p) && |p| > 1
    ensures p[0] in rank && p[|p| - 1] in rank && rank[p[|p| - 1]] < rank[p[0]]
  {
    var n := |p| - 1;
    assert Child(g, p[n - 1], p[n]);
    if n > 1 {
      var q := p[..n];
      forall i | 0 <= i < |q| - 1 ensures Child(g, q[i], q[i + 1]) {
        assert Child(g, p[i], p[i + 1]);
      }
      RankDrops(g, rank, q);
    }
  }

  /** What acyclicity is for: no walk comes back. */
  lemma AcyclicHasNoCycle(g: Graph, p: seq<Node>)
    requires WellFormed(g) && Acyclic(g) && Path(g, p) && |p| > 1
    ensures p[0] != p[|p| - 1]
  {
    var rank :| Ranked(g, rank);
    RankDrops(g, rank, p);
  }
}
