/** bdrv_topological_dfs: lists the nodes below a node, every node before its children. */
module TopologicalOrder {
  import opened BlockGraph
  import opened Common

  function ToSet(list: seq<Node>): set<Node> {
    set v | v in list
  }

  /** All children of a listed node are listed after it. */
  ghost predicate Sorted(g: Graph, list: seq<Node>) {
    forall i, e :: 0 <= i < |list| && Owns(g, list[i], e) ==> g.bs[e] in list[i + 1..]
  }

  /** The list and the hash table between calls: the nodes found and not listed are the ones whose
      children are being listed at the moment. */
  ghost predicate Consistent(g: Graph, list: seq<Node>, found: set<Node>) {
    Distinct(list) && Sorted(g, list) && ToSet(list) <= found <= g.nodes
  }

  lemma Prepend(g: Graph, list: seq<Node>, v: Node)
    requires Distinct(list) && Sorted(g, list) && v !in list
    requires forall e :: Owns(g, v, e) ==> g.bs[e] in list
    ensures Distinct([v] + list) && Sorted(g, [v] + list)
  {
    var list' := [v] + list;
    forall i, e | 0 <= i < |list'| && Owns(g, list'[i], e) ensures g.bs[e] in list'[i + 1..] {
      assert list'[i + 1..] == list[i..];
      if i > 0 {
        assert g.bs[e] in list[i - 1 + 1..];
      }
    }
  }

  /** Everything listed now and not before is below `v`. */
  ghost predicate OnlyBelow(g: Graph, before: seq<Node>, after: seq<Node>, v: Node) {
    forall x :: x in after && x !in before ==> Reaches(g, v, x)
  }

  lemma BelowChild(g: Graph, a: seq<Node>, b: seq<Node>, c: seq<Node>, v: Node, w: Node)
    requires OnlyBelow(g, a, b, v) && OnlyBelow(g, b, c, w) && Child(g, v, w)
    ensures OnlyBelow(g, a, c, v)
  {
    forall x | x in c && x !in a ensures Reaches(g, v, x) {
      if x !in b {
        assert Reaches(g, w, x);
        ChildReaches(g, v, w, x);
      }
    }
  }

  /** The children of `v` that are not left to do are listed. */
  ghost predicate TargetsListed(g: Graph, v: Node, todo: set<Edge>, list: seq<Node>) {
    forall e :: Owns(g, v, e) && e !in todo ==> g.bs[e] in list
  }

  lemma OneMoreListed(g: Graph, v: Node, todo: set<Edge>, before: seq<Node>, list: seq<Node>, e: Edge)
    requires TargetsListed(g, v, todo, before) && ToSet(before) <= ToSet(list) && e in g.bs && g.bs[e] in list
    ensures TargetsListed(g, v, todo - {e}, list)
  {
    forall x | Owns(g, v, x) && x !in todo ensures g.bs[x] in list {
      assert g.bs[x] in ToSet(before);
    }
  }

  /** The nodes that are found and not listed. */
  function Pending(list: seq<Node>, found: set<Node>): set<Node> {
    found - ToSet(list)
  }

  /** They are all ranked above `v`, as they are being listed above it. */
  ghost predicate PendingAbove(rank: map<Node, nat>, pending: set<Node>, v: Node) {
    v in rank && forall x :: x in pending ==> x in rank && rank[v] < rank[x]
  }

  /** The call for `v` has added `v` and nodes below it, and left nothing pending. */
  ghost predicate Listed(g: Graph, v: Node, list: seq<Node>, found: set<Node>, list': seq<Node>, found': set<Node>) {
    && Consistent(g, list', found')
    && v in list' && found <= found' && ToSet(list) <= ToSet(list')
    && Pending(list', found') == Pending(list, found)
    && OnlyBelow(g, list, list', v)
  }

  /** The call for `v` is at work; the children in `todo` are left. */
  ghost predicate Listing(g: Graph, v: Node, list: seq<Node>, found: set<Node>, list': seq<Node>, found': set<Node>,
                          todo: set<Edge>)
  {
    && Consistent(g, list', found')
    && found + {v} <= found' && ToSet(list) <= ToSet(list')
    && Pending(list', found') == Pending(list, found) + {v}
    && OnlyBelow(g, list, list', v)
    && TargetsListed(g, v, todo, list')
  }

  lemma StartListing(g: Graph, v: Node, list: seq<Node>, found: set<Node>)
    requires Consistent(g, list, found) && v in g.nodes && v !in found
    ensures Listing(g, v, list, found, list, found + {v}, Children(g, v))
  {
    assert v !in ToSet(list);
    assert Pending(list, found + {v}) == Pending(list, found) + {v};
  }

  lemma ChildBelowPending(g: Graph, rank: map<Node, nat>, pending: set<Node>, v: Node, e: Edge)
    requires WellFormed(g) && Ranked(g, rank) && PendingAbove(rank, pending, v) && Owns(g, v, e)
    ensures Child(g, v, g.bs[e]) && PendingAbove(rank, pending + {v}, g.bs[e])
  {}

  lemma ListChild(g: Graph, v: Node, list: seq<Node>, found: set<Node>, list1: seq<Node>, found1: set<Node>,
                  list2: seq<Node>, found2: set<Node>, todo: set<Edge>, e: Edge)
    requires Listing(g, v, list, found, list1, found1, todo) && Owns(g, v, e)
    requires Listed(g, g.bs[e], list1, found1, list2, found2)
    ensures Listing(g, v, list, found, list2, found2, todo - {e})
  {
    assert Child(g, v, g.bs[e]);
    BelowChild(g, list, list1, list2, v, g.bs[e]);
    OneMoreListed(g, v, todo, list1, list2, e);
  }

  lemma FinishListing(g: Graph, v: Node, list: seq<Node>, found: set<Node>, list1: seq<Node>, found1: set<Node>)
    requires Listing(g, v, list, found, list1, found1, {}) && v !in found
    ensures Listed(g, v, list, found, [v] + list1, found1)
  {
    assert v in Pending(list1, found1);
    Prepend(g, list1, v);
    ReachesSelf(g, v);
    assert ToSet([v] + list1) == ToSet(list1) + {v};
    assert Pending([v] + list1, found1) == Pending(list1, found1) - {v};
  }

  /** block.c:2312-2335.  `found` is the hash table. */
  method TopologicalDfs(g: Graph, list: seq<Node>, found: set<Node>, v: Node, ghost rank: map<Node, nat>)
    returns (list': seq<Node>, found': set<Node>)
    requires WellFormed(g) && Ranked(g, rank) && v in g.nodes
    requires Consistent(g, list, found) && PendingAbove(rank, Pending(list, found), v)
    ensures Listed(g, v, list, found, list', found')
    decreases g.nodes - found
  {
    if v in found {
      assert v !in Pending(list, found);
      return list, found;
    }
    StartListing(g, v, list, found);
    list', found' := list, found + {v};
    var todo := Children(g, v);
    while todo != {}
      invariant todo <= Children(g, v)
      invariant Listing(g, v, list, found, list', found', todo)
    {
      var e :| e in todo;
      ChildBelowPending(g, rank, Pending(list, found), v, e);
      ghost var list1, found1 := list', found';
      list', found' := TopologicalDfs(g, list', found', g.bs[e], rank);
      ListChild(g, v, list, found, list1, found1, list', found', todo, e);
      todo := todo - {e};
    }
    FinishListing(g, v, list, found, list', found');
    list' := [v] + list';
  }

  /** Some of the first `n` nodes reaches `x`. */
  ghost predicate BelowAny(g: Graph, nodes: seq<Node>, n: nat, x: Node)
    requires n <= |nodes|
  {
    exists i :: 0 <= i < n && Reaches(g, nodes[i], x)
  }

  lemma NothingPending(found: set<Node>, list: seq<Node>)
    requires found - ToSet(list) == {}
    ensures found <= ToSet(list)
  {
    forall x | x in found ensures x in ToSet(list) {
      assert x !in found - ToSet(list);
    }
  }

  ghost predicate ListsFirst(list: seq<Node>, nodes: seq<Node>, n: nat)
    requires n <= |nodes|
  {
    forall k :: 0 <= k < n ==> nodes[k] in list
  }

  lemma StillListed(before: seq<Node>, list: seq<Node>, nodes: seq<Node>, n: nat)
    requires n < |nodes| && ToSet(before) <= ToSet(list) && ListsFirst(before, nodes, n) && nodes[n] in list
    ensures ListsFirst(list, nodes, n + 1)
  {
    forall k | 0 <= k < n ensures nodes[k] in list {
      assert nodes[k] in ToSet(before);
    }
  }

  lemma MoreBelow(g: Graph, before: seq<Node>, list: seq<Node>, nodes: seq<Node>, n: nat)
    requires n < |nodes| && OnlyBelow(g, before, list, nodes[n])
    requires forall x :: x in before ==> BelowAny(g, nodes, n, x)
    ensures forall x :: x in list ==> BelowAny(g, nodes, n + 1, x)
  {
    forall x | x in list ensures BelowAny(g, nodes, n + 1, x) {
      if x in before {
        assert BelowAny(g, nodes, n, x);
      } else {
        assert Reaches(g, nodes[n], x);
      }
    }
  }

  /** block.c:2639-2641: calls that share one hash table.  The list holds exactly what the given nodes
      reach, each node once and before its children. */
  method RefreshList(g: Graph, nodes: seq<Node>) returns (list: seq<Node>)
    requires WellFormed(g) && Acyclic(g)
    requires forall i :: 0 <= i < |nodes| ==> nodes[i] in g.nodes
    ensures Distinct(list) && Sorted(g, list) && ToSet(list) <= g.nodes
    ensures forall x :: x in list <==> BelowAny(g, nodes, |nodes|, x)
  {
    ghost var rank :| Ranked(g, rank);
    list := [];
    var found: set<Node> := {};
    for i := 0 to |nodes|
      invariant Consistent(g, list, found) && found <= ToSet(list)
      invariant ListsFirst(list, nodes, i)
      invariant forall x :: x in list ==> BelowAny(g, nodes, i, x)
    {
      ghost var before := list;
      assert Pending(list, found) == {};
      list, found := TopologicalDfs(g, list, found, nodes[i], rank);
      NothingPending(found, list);
      StillListed(before, list, nodes, i);
      MoreBelow(g, before, list, nodes, i);
    }
    forall x | BelowAny(g, nodes, |nodes|, x) ensures x in list {
      var i :| 0 <= i < |nodes| && Reaches(g, nodes[i], x);
      ListedBelow(g, list, nodes[i], x);
    }
  }

  /** With a node the list holds all that the node reaches. */
  lemma ListedBelow(g: Graph, list: seq<Node>, v: Node, x: Node)
    requires Sorted(g, list) && v in list && Reaches(g, v, x)
    ensures x in list
  {
    var p :| PathFrom(g, p, v, x);
    ClosedList(g, list);
    ClosedReaches(g, ToSet(list), p);
  }

  lemma ClosedList(g: Graph, list: seq<Node>)
    requires Sorted(g, list)
    ensures forall v, w :: v in list && Child(g, v, w) ==> w in list
  {
    forall v, w | v in list && Child(g, v, w) ensures w in list {
      var i :| 0 <= i < |list| && list[i] == v;
      var e :| Owns(g, v, e) && g.bs[e] == w;
      assert g.bs[e] in list[i + 1..];
    }
  }
}
