/** Attaching, replacing and appending nodes (block.c): no change closes a cycle, and each of them
    either leaves a graph whose permissions are in order or changes nothing. */
module GraphChange {
  import opened BlockGraph
  import opened Common
  import opened TopologicalOrder
  import opened Permissions
  import opened GraphTransaction
  import opened RefreshPerms

  // ----- Searching the graph -----

  lemma FirstStep(g: Graph, u: Node, w: Node)
    requires Reaches(g, u, w) && u != w
    ensures exists e :: Owns(g, u, e) && Reaches(g, g.bs[e], w)
  {
    var p :| PathFrom(g, p, u, w);
    assert Child(g, p[0], p[1]);
    var e :| Owns(g, u, e) && g.bs[e] == p[1];
    var q := p[1..];
    forall i | 0 <= i < |q| - 1 ensures Child(g, q[i], q[i + 1]) {
      assert Child(g, p[i + 1], p[i + 2]);
    }
    assert PathFrom(g, q, p[1], w);
  }

  /** block.c:4340-4356.  The recursion ends because the graph has no cycle. */
  method RecurseHasChild(g: Graph, v: Node, child: Node, ghost rank: map<Node, nat>) returns (has: bool)
    requires WellFormed(g) && Ranked(g, rank) && v in g.nodes
    ensures has <==> Reaches(g, v, child)
    decreases rank[v]
  {
    if v == child {
      ReachesSelf(g, v);
      return true;
    }
    var todo := Children(g, v);
    while todo != {}
      invariant todo <= Children(g, v)
      invariant forall e :: Owns(g, v, e) && e !in todo ==> !Reaches(g, g.bs[e], child)
    {
      var e :| e in todo;
      assert Owns(g, v, e);
      var h := RecurseHasChild(g, g.bs[e], child, rank);
      if h {
        assert Child(g, v, g.bs[e]);
        ChildReaches(g, v, g.bs[e], child);
        return true;
      }
      todo := todo - {e};
    }
    if Reaches(g, v, child) {
      FirstStep(g, v, child);
    }
    has := false;
  }

  /** Edge `c` belongs to no node below `to`. */
  ghost predicate Outside(g: Graph, c: Edge, to: Node) {
    forall v :: Reaches(g, to, v) ==> !Owns(g, v, c)
  }

  /** `v` has been visited: its children are found and `c` is not among its edges. */
  ghost predicate Visited(g: Graph, found: set<Node>, c: Edge, v: Node) {
    forall e :: Owns(g, v, e) ==> e != c && g.bs[e] in found
  }

  /** The state of the search: what is found is below `to`; unless `c` has turned up, all that is found
      and no longer in the queue has been visited. */
  ghost predicate Searching(g: Graph, to: Node, c: Edge, found: set<Node>, queue: seq<Node>, ret: bool) {
    && found <= g.nodes && to in found && (forall v :: v in found ==> Reaches(g, to, v))
    && (forall v :: v in queue ==> v in found)
    && (ret ==> forall v :: v in found && v !in queue ==> Visited(g, found, c, v))
    && (!ret ==> !Outside(g, c, to))
  }

  lemma SearchDone(g: Graph, to: Node, c: Edge, found: set<Node>)
    requires Searching(g, to, c, found, [], true)
    ensures Outside(g, c, to)
  {
    forall v | Reaches(g, to, v) ensures !Owns(g, v, c) {
      var p :| PathFrom(g, p, to, v);
      forall x, y | x in found && Child(g, x, y) ensures y in found {
        assert Visited(g, found, c, x);
      }
      ClosedReaches(g, found, p);
      assert Visited(g, found, c, v);
    }
  }

  lemma FoundChild(g: Graph, to: Node, v: Node, e: Edge)
    requires Reaches(g, to, v) && Owns(g, v, e)
    ensures Reaches(g, to, g.bs[e])
  {
    assert Child(g, v, g.bs[e]);
    ReachesChild(g, to, v, g.bs[e]);
  }

  /** The inner loop of block.c:5292-5307.  The break leaves children of `v` unvisited, which no longer
      matters. */
  method VisitChildren(g: Graph, to: Node, c: Edge, v: Node, found: set<Node>, queue: seq<Node>, ret: bool)
    returns (found': set<Node>, queue': seq<Node>, ret': bool)
    requires WellFormed(g) && Searching(g, to, c, found, [v] + queue, ret)
    ensures Searching(g, to, c, found', queue', ret')
    ensures (found' == found && queue' == queue) || found < found'
  {
    assert v in [v] + queue;
    found', queue', ret' := found, queue, ret;
    var todo := Children(g, v);
    while todo != {}
      invariant todo <= Children(g, v)
      invariant found <= found' <= g.nodes && (forall x :: x in found' ==> Reaches(g, to, x))
      invariant forall x :: x in queue' ==> x in found'
      invariant forall x :: x in found' && x !in queue' ==> x in found && x !in queue
      invariant ret ==> forall e :: Owns(g, v, e) && e !in todo ==> e != c && g.bs[e] in found'
      invariant ret' == ret
      invariant (found' == found && queue' == queue) || found < found'
    {
      var e :| e in todo;
      if e == c {
        ret' := false;
        break;
      }
      todo := todo - {e};
      if g.bs[e] in found' {
        continue;
      }
      FoundChild(g, to, v, e);
      queue' := queue' + [g.bs[e]];
      found' := found' + {g.bs[e]};
    }
    if ret' {
      forall x | x in found' && x !in queue' ensures Visited(g, found', c, x) {
        if x != v {
          assert x !in [v] + queue;
          assert Visited(g, found, c, x);
        }
      }
    } else if ret {
      assert Owns(g, v, c);
    }
  }

  /** block.c:5241-5318 */
  method ShouldUpdateChild(g: Graph, c: Edge, stayAtNode: bool, to: Node) returns (ret: bool)
    requires WellFormed(g) && to in g.nodes
    ensures ret <==> !stayAtNode && Outside(g, c, to)
  {
    if stayAtNode {
      return false;
    }
    ret := true;
    var found, queue := {to}, [to];
    ReachesSelf(g, to);
    while queue != []
      invariant Searching(g, to, c, found, queue, ret)
      decreases g.nodes - found, |queue|
    {
      var v := queue[0];
      assert queue == [v] + queue[1..];
      found, queue, ret := VisitChildren(g, to, c, v, found, queue[1..], ret);
    }
    if ret {
      SearchDone(g, to, c, found);
    }
  }

  // ----- One edge more -----

  /** `g'` has the edges of `g` and edges from `u` to `w`. */
  ghost predicate AddsOnly(g: Graph, g': Graph, u: Node, w: Node) {
    && g'.nodes == g.nodes
    && forall x, e :: Owns(g', x, e) ==> (Owns(g, x, e) && g'.bs[e] == g.bs[e]) || (x == u && g'.bs[e] == w)
  }

  ghost function Lift(g: Graph, rank: map<Node, nat>, u: Node, w: Node): map<Node, nat>
    requires w in rank
  {
    map v | v in rank :: rank[v] + if Reaches(g, v, u) then rank[w] + 1 else 0
  }

  /** An edge from `u` to `w` closes no cycle unless `w` reaches `u`: everything above `u` is ranked
      above `w`. */
  lemma AddKeepsAcyclic(g: Graph, g': Graph, u: Node, w: Node)
    requires WellFormed(g) && WellFormed(g') && Acyclic(g) && AddsOnly(g, g', u, w)
    requires u in g.nodes && w in g.nodes && !Reaches(g, w, u)
    ensures Acyclic(g')
  {
    var rank :| Ranked(g, rank);
    var lifted := Lift(g, rank, u, w);
    forall x, e | Owns(g', x, e) && x in lifted && g'.bs[e] in lifted ensures lifted[g'.bs[e]] < lifted[x] {
      var y := g'.bs[e];
      if Owns(g, x, e) && y == g.bs[e] {
        assert rank[y] < rank[x];
        if Reaches(g, y, u) {
          assert Child(g, x, y);
          ChildReaches(g, x, y, u);
        }
      } else {
        ReachesSelf(g, u);
      }
    }
    assert Ranked(g', lifted);
  }

  lemma PointKeepsAcyclic(g: Graph, e: Edge, w: Node)
    requires WellFormed(g) && Acyclic(g) && e in g.bs && w in g.nodes && Outside(g, e, w)
    ensures WellFormed(WithBs(g, e, Some(w))) && Acyclic(WithBs(g, e, Some(w)))
  {
    var g' := WithBs(g, e, Some(w));
    if e in g.owner {
      var u := g.owner[e];
      assert Owns(g, u, e);
      AddKeepsAcyclic(g, g', u, w);
    } else {
      var rank :| Ranked(g, rank);
      assert Ranked(g', rank);
    }
  }

  lemma AttachKeepsAcyclic(s: Block, e: Edge, parent: Node, child: Node, access: Access)
    requires WellFormed(s.g) && Acyclic(s.g) && e !in s.g.bs && parent in s.g.nodes && child in s.g.nodes
    requires !Reaches(s.g, child, parent)
    ensures Acyclic(Attached(s, e, Some(parent), child, access).g)
  {
    AddKeepsAcyclic(s.g, Attached(s, e, Some(parent), child, access).g, parent, child);
  }

  // ----- Redirecting edges -----

  ghost function Below(g: Graph, v: Node): set<Node> {
    set x | x in g.nodes && Reaches(g, v, x)
  }

  ghost predicate SameBelow(g: Graph, g': Graph, to: Node) {
    forall v :: Reaches(g', to, v) <==> Reaches(g, to, v)
  }

  /** What lies below `to` stays the same when an edge is redirected that does not. */
  lemma PointKeepsBelow(g: Graph, e: Edge, w: Node, to: Node)
    requires WellFormed(g) && e in g.bs && w in g.nodes && to in g.nodes && Outside(g, e, to)
    ensures SameBelow(g, WithBs(g, e, Some(w)), to)
  {
    var g' := WithBs(g, e, Some(w));
    ReachesSelf(g, to);
    ReachesSelf(g', to);
    forall v, x | v in Below(g, to) && Child(g', v, x) ensures x in Below(g, to) {
      var e' :| Owns(g', v, e') && g'.bs[e'] == x;
      assert Owns(g, v, e') && e' != e;
      FoundChild(g, to, v, e');
    }
    forall v | Reaches(g', to, v) ensures Reaches(g, to, v) {
      var p :| PathFrom(g', p, to, v);
      ClosedReaches(g', Below(g, to), p);
    }
    forall v, x | v in Below(g', to) && Child(g, v, x) ensures x in Below(g', to) {
      var e' :| Owns(g, v, e') && g.bs[e'] == x;
      assert e' != e;
      assert Owns(g', v, e');
      FoundChild(g', to, v, e');
    }
    forall v | Reaches(g, to, v) ensures Reaches(g', to, v) {
      var p :| PathFrom(g, p, to, v);
      ClosedReaches(g, Below(g', to), p);
    }
  }

  /** The edges to `from` that move to `to`. */
  ghost predicate Moves(g: Graph, from: Node, to: Node, stay: set<Edge>, e: Edge) {
    e in g.bs && g.bs[e] == from && e !in stay && Outside(g, e, to)
  }

  /** All edges among `es` that move have moved, at once. */
  ghost function Redirected(g: Graph, from: Node, to: Node, stay: set<Edge>, es: set<Edge>): Graph {
    g.(bs := map e | e in g.bs :: if e in es && Moves(g, from, to, stay, e) then to else g.bs[e])
  }

  lemma OutsideSame(g: Graph, g': Graph, c: Edge, to: Node)
    requires SameBelow(g, g', to) && g'.owner == g.owner && (c in g'.bs <==> c in g.bs)
    ensures Outside(g', c, to) <==> Outside(g, c, to)
  {}

  /** The state of the loop of block.c:5373-5388: `es` is what has been done. */
  ghost predicate Redirecting(g0: Graph, g: Graph, from: Node, to: Node, stay: set<Edge>, es: set<Edge>) {
    && g == Redirected(g0, from, to, stay, es)
    && WellFormed(g) && Acyclic(g) && SameBelow(g0, g, to)
  }

  lemma RedirectOne(g0: Graph, g: Graph, from: Node, to: Node, stay: set<Edge>, es: set<Edge>, c: Edge)
    requires WellFormed(g0) && Redirecting(g0, g, from, to, stay, es) && to in g0.nodes
    requires c !in es && c in g0.bs && g0.bs[c] == from
    ensures Outside(g, c, to) <==> Outside(g0, c, to)
    ensures Moves(g0, from, to, stay, c) ==> Redirecting(g0, WithBs(g, c, Some(to)), from, to, stay, es + {c})
    ensures !Moves(g0, from, to, stay, c) ==> Redirecting(g0, g, from, to, stay, es + {c})
  {
    OutsideSame(g0, g, c, to);
    if Moves(g0, from, to, stay, c) {
      PointKeepsAcyclic(g, c, to);
      PointKeepsBelow(g, c, to, to);
      assert WithBs(g, c, Some(to)).bs == Redirected(g0, from, to, stay, es + {c}).bs;
    } else {
      assert g.bs == Redirected(g0, from, to, stay, es + {c}).bs;
    }
  }

  /** Whether block.c:5373-5388 lets the edge pass. */
  ghost predicate MayPass(g: Graph, from: Node, to: Node, autoSkip: bool, stay: set<Edge>, frozen: set<Edge>, e: Edge) {
    if Moves(g, from, to, stay, e) then e !in frozen else autoSkip
  }

  ghost predicate AllPass(g: Graph, from: Node, to: Node, autoSkip: bool, stay: set<Edge>, frozen: set<Edge>,
                          es: set<Edge>)
  {
    forall e :: e in es ==> MayPass(g, from, to, autoSkip, stay, frozen, e)
  }

  lemma PassOne(g: Graph, from: Node, to: Node, autoSkip: bool, stay: set<Edge>, frozen: set<Edge>, es: set<Edge>,
                c: Edge)
    requires AllPass(g, from, to, autoSkip, stay, frozen, es) && MayPass(g, from, to, autoSkip, stay, frozen, c)
    ensures AllPass(g, from, to, autoSkip, stay, frozen, es + {c})
  {}

  /** Of `all`, `todo` is left and `es` is done. */
  ghost predicate Split(all: set<Edge>, todo: set<Edge>, es: set<Edge>) {
    todo !! es && todo + es == all
  }

  lemma SplitOne(all: set<Edge>, todo: set<Edge>, es: set<Edge>, c: Edge)
    requires Split(all, todo, es) && c in todo
    ensures c in all && c !in es && Split(all, todo - {c}, es + {c})
  {
    assert todo - {c} + (es + {c}) == todo + es;
  }

  lemma NothingRedirected(g: Graph, from: Node, to: Node, stay: set<Edge>)
    requires WellFormed(g) && Acyclic(g)
    ensures Redirecting(g, g, from, to, stay, {})
  {
    assert g.bs == Redirected(g, from, to, stay, {}).bs;
  }

  /** A change of edges only, recorded in the transaction. */
  twostate predicate EdgesOnly(b: BlockLayer)
    reads b
  {
    && b.Valid() && b.s.pm == old(b.s.pm) && b.refs.external == old(b.refs.external)
    && b.Origin() == old(b.Origin()) && ToFree(b.log) == old(ToFree(b.log))
  }

  /** The body of the loop of block.c:5373-5388. */
  method ReplaceParent(b: BlockLayer, ghost g0: Graph, from: Node, to: Node, autoSkip: bool, stay: set<Edge>,
                       frozen: set<Edge>, ghost es: set<Edge>, c: Edge) returns (ok: bool)
    requires b.Valid() && WellFormed(g0) && Redirecting(g0, b.s.g, from, to, stay, es)
    requires from != to && to in g0.nodes && c !in es && c in g0.bs && g0.bs[c] == from
    modifies b
    ensures EdgesOnly(b) && Acyclic(b.s.g)
    ensures ok <==> MayPass(g0, from, to, autoSkip, stay, frozen, c)
    ensures ok ==> Redirecting(g0, b.s.g, from, to, stay, es + {c})
  {
    RedirectOne(g0, b.s.g, from, to, stay, es, c);
    var should := ShouldUpdateChild(b.s.g, c, c in stay, to);
    if !should {
      return autoSkip;
    }
    if c in frozen {
      return false;
    }
    b.ReplaceChildTran(c, Some(to));
    ok := true;
  }

  /** block.c:5360-5391.  The edges are searched and redirected one at a time, with the effect of
      redirecting at once those that are outside of the subtree of `to` in the graph as it was. */
  method ReplaceNodeNoperm(b: BlockLayer, from: Node, to: Node, autoSkip: bool, stay: set<Edge>, frozen: set<Edge>)
    returns (ok: bool)
    requires b.Valid() && Acyclic(b.s.g) && from in b.s.g.nodes && to in b.s.g.nodes && from != to
    modifies b
    ensures EdgesOnly(b) && Acyclic(b.s.g)
    ensures ok <==> AllPass(old(b.s.g), from, to, autoSkip, stay, frozen, Parents(old(b.s.g), from))
    ensures ok ==> b.s.g == Redirected(old(b.s.g), from, to, stay, Parents(old(b.s.g), from))
  {
    ghost var g0 := b.s.g;
    var parents := Parents(b.s.g, from);
    var todo := parents;
    NothingRedirected(g0, from, to, stay);
    ghost var es: set<Edge> := {};
    while todo != {}
      invariant Split(parents, todo, es)
      invariant EdgesOnly(b) && Redirecting(g0, b.s.g, from, to, stay, es)
      invariant AllPass(g0, from, to, autoSkip, stay, frozen, es)
      decreases todo
    {
      var c :| c in todo;
      SplitOne(parents, todo, es, c);
      ok := ReplaceParent(b, g0, from, to, autoSkip, stay, frozen, es, c);
      if !ok {
        return;
      }
      PassOne(g0, from, to, autoSkip, stay, frozen, es, c);
      todo := todo - {c};
      es := es + {c};
    }
    ok := true;
  }

  // ----- Permissions after a change -----

  /** A node whose parents, children and their permissions are the same is as fine as before. */
  lemma SameFine(g: Graph, g': Graph, env: Env, pm: PermMap, pm': PermMap, v: Node)
    requires ValidMap(g, pm) && ValidMap(g', pm') && Fine(g, env, pm, v)
    requires Parents(g', v) == Parents(g, v) && forall e :: e in Parents(g, v) ==> pm'[e] == pm[e]
    requires forall e :: Owns(g', v, e) ==> Owns(g, v, e) && g'.bs[e] == g.bs[e] && pm'[e] == pm[e]
    ensures Fine(g', env, pm', v)
  {
    var c, c' := Cumulative(g, pm, v), Cumulative(g', pm', v);
    forall p ensures p in c'.perm <==> p in c.perm {}
    forall p ensures p in c'.shared <==> p in c.shared {}
    assert c' == c;
  }

  /** What the owner of an edge asks of `from` it also asks of `to`. */
  ghost predicate AskedAlike(g: Graph, env: Env, pm: PermMap, from: Node, to: Node, v: Node, e: Edge)
    requires g.bs.Keys <= pm.Keys
  {
    env.childPerm(v, e, to, Cumulative(g, pm, v)) == env.childPerm(v, e, from, Cumulative(g, pm, v))
  }

  /** So for all edges of `v` that move, if `v` is open. */
  ghost predicate OwnerAlike(g: Graph, env: Env, pm: PermMap, from: Node, to: Node, stay: set<Edge>, v: Node)
    requires g.bs.Keys <= pm.Keys
  {
    v in env.open ==>
      forall e :: Owns(g, v, e) && Moves(g, from, to, stay, e) ==> AskedAlike(g, env, pm, from, to, v, e)
  }

  ghost predicate MovedAlike(g: Graph, env: Env, pm: PermMap, from: Node, to: Node, stay: set<Edge>)
    requires g.bs.Keys <= pm.Keys
  {
    forall v :: v in g.nodes ==> OwnerAlike(g, env, pm, from, to, stay, v)
  }

  /** For a third node, having edges redirected keeps its permissions in order exactly if it asks of the
      new node what it asked of the old one. */
  lemma RedirectedFineIff(g: Graph, env: Env, pm: PermMap, from: Node, to: Node, stay: set<Edge>, v: Node)
    requires ValidMap(g, pm) && Fine(g, env, pm, v) && to in g.nodes && v != from && v != to
    ensures ValidMap(Redirected(g, from, to, stay, Parents(g, from)), pm)
    ensures Fine(Redirected(g, from, to, stay, Parents(g, from)), env, pm, v) <==>
      OwnerAlike(g, env, pm, from, to, stay, v)
  {
    var g' := Redirected(g, from, to, stay, Parents(g, from));
    assert Parents(g', v) == Parents(g, v);
    var c, c' := Cumulative(g, pm, v), Cumulative(g', pm, v);
    forall p ensures p in c'.perm <==> p in c.perm {}
    forall p ensures p in c'.shared <==> p in c.shared {}
    assert c' == c;
    assert NoConflict(g', pm, v) <==> NoConflict(g, pm, v);
    if v in env.open {
      forall e | Owns(g, v, e)
        ensures pm[e] == env.childPerm(v, e, g'.bs[e], c) <==>
          (Moves(g, from, to, stay, e) ==> AskedAlike(g, env, pm, from, to, v, e))
      {
        assert pm[e] == env.childPerm(v, e, g.bs[e], c);
      }
    }
  }

  /** The owner of an edge that moves is neither below `from` nor below `to`, before or afterwards: nobody
      refreshes it. */
  lemma MoverNotBelow(g: Graph, from: Node, to: Node, stay: set<Edge>, v: Node, e: Edge)
    requires WellFormed(g) && Acyclic(g) && from in g.nodes && to in g.nodes
    requires Moves(g, from, to, stay, e) && Owns(g, v, e)
    ensures var g' := Redirected(g, from, to, stay, Parents(g, from));
      !Reaches(g', from, v) && !Reaches(g', to, v)
  {
    var g' := Redirected(g, from, to, stay, Parents(g, from));
    RedirectedKeeps(g, from, to, stay, Parents(g, from));
    if Reaches(g', from, v) {
      var p :| PathFrom(g', p, from, v);
      BelowBothClosed(g, from, to, stay);
      ReachesSelf(g, from);
      ClosedReaches(g', Below(g, from) + Below(g, to), p);
      NoWayBack(g, from, v, e);
    }
  }

  lemma NoWayBack(g: Graph, from: Node, v: Node, e: Edge)
    requires WellFormed(g) && Acyclic(g) && Owns(g, v, e) && g.bs[e] == from
    ensures !Reaches(g, from, v)
  {
    if Reaches(g, from, v) {
      var p :| PathFrom(g, p, from, v);
      var q := [v] + p;
      assert Child(g, v, from);
      forall i | 0 <= i < |q| - 1 ensures Child(g, q[i], q[i + 1]) {
        if i > 0 {
          assert Child(g, p[i - 1], p[i]);
        }
      }
      AcyclicHasNoCycle(g, q);
    }
  }

  lemma BelowBothClosed(g: Graph, from: Node, to: Node, stay: set<Edge>)
    requires WellFormed(g) && to in g.nodes
    ensures var g' := Redirected(g, from, to, stay, Parents(g, from));
      forall v, w :: v in Below(g, from) + Below(g, to) && Child(g', v, w) ==> w in Below(g, from) + Below(g, to)
  {
    var g' := Redirected(g, from, to, stay, Parents(g, from));
    ReachesSelf(g, to);
    forall v, w | v in Below(g, from) + Below(g, to) && Child(g', v, w) ensures w in Below(g, from) + Below(g, to) {
      var e :| Owns(g', v, e) && g'.bs[e] == w;
      assert Owns(g, v, e);
      if v in Below(g, from) {
        FoundChild(g, from, v, e);
      } else {
        FoundChild(g, to, v, e);
      }
    }
  }

  lemma AttachedFine(s: Block, env: Env, e: Edge, parent: Node, child: Node, access: Access)
    requires InOrder(s.g, env, s.pm) && s.g.owner.Keys <= s.pm.Keys && e !in s.pm
    requires parent in s.g.nodes && child in s.g.nodes
    ensures var s' := Attached(s, e, Some(parent), child, access);
      ValidMap(s'.g, s'.pm) &&
      forall v :: v in s.g.nodes && v != parent && v != child ==> Fine(s'.g, env, s'.pm, v)
  {
    var s' := Attached(s, e, Some(parent), child, access);
    forall v | v in s.g.nodes && v != parent && v != child ensures Fine(s'.g, env, s'.pm, v) {
      assert Fine(s.g, env, s.pm, v);
      SameFine(s.g, s'.g, env, s.pm, s'.pm, v);
    }
  }

  // ----- Replacing a node -----

  /** Up to tran_finalize in block.c:5424-5439. */
  method ReplaceAndRefresh(b: BlockLayer, env: Env, from: Node, to: Node, autoSkip: bool, stay: set<Edge>,
                           frozen: set<Edge>)
    returns (r: Outcome)
    requires b.Valid() && Acyclic(b.s.g) && from in b.s.g.nodes && to in b.s.g.nodes && from != to
    modifies b
    ensures b.Valid() && b.Origin() == old(b.Origin()) && ToFree(b.log) == old(ToFree(b.log))
    ensures b.refs.external == old(b.refs.external) && Acyclic(b.s.g)
    ensures r.Done? ==> b.s.g == Redirected(old(b.s.g), from, to, stay, Parents(old(b.s.g), from))
    ensures r.Done? ==> FineBelow(b.s, env, [from, to])
    ensures r.Done? && InOrder(old(b.s.g), env, old(b.s.pm)) ==>
      (InOrder(b.s.g, env, b.s.pm) <==> MovedAlike(old(b.s.g), env, old(b.s.pm), from, to, stay))
  {
    ghost var s0 := b.s;
    r := Refused(from);
    var ok := ReplaceNodeNoperm(b, from, to, autoSkip, stay, frozen);
    if ok {
      r := RefreshPair(b, env, s0, from, to, stay);
    }
  }

  /** block.c:5430-5433 */
  method RefreshPair(b: BlockLayer, env: Env, ghost s0: Block, from: Node, to: Node, ghost stay: set<Edge>)
    returns (r: Outcome)
    requires b.Valid() && Acyclic(b.s.g) && Acyclic(s0.g) && from in s0.g.nodes && to in s0.g.nodes
    requires b.s == s0.(g := Redirected(s0.g, from, to, stay, Parents(s0.g, from))) && s0.g.bs.Keys <= s0.pm.Keys
    modifies b
    ensures PermsOnly(b)
    ensures r.Done? ==> FineBelow(b.s, env, [from, to])
    ensures r.Done? && InOrder(s0.g, env, s0.pm) ==>
      (InOrder(b.s.g, env, b.s.pm) <==> MovedAlike(s0.g, env, s0.pm, from, to, stay))
  {
    var nodes := [from, to];
    r := ListRefreshPerms(b, env, nodes, b.s.g, b.s.pm);
    if r.Done? && InOrder(s0.g, env, s0.pm) {
      ReplacedFineIff(s0, env, b.s.g, b.s.pm, from, to, stay, nodes);
    }
  }

  /** block.c:5404-5443.  The nodes below the two are in order.  The owners of the edges that moved are not
      refreshed, so all permissions stay in order exactly if these owners ask of the new node what they
      asked of the old one. */
  method ReplaceNodeCommon(b: BlockLayer, env: Env, from: Node, to: Node, autoSkip: bool, stay: set<Edge>,
                           frozen: set<Edge>)
    returns (ok: bool)
    requires b.Valid() && b.log == Nil && Acyclic(b.s.g)
    requires from in b.s.g.nodes && to in b.s.g.nodes && from != to
    modifies b
    ensures b.Valid() && b.log == Nil && Acyclic(b.s.g) && b.refs.external == old(b.refs.external)
    ensures !ok ==> b.s == old(b.s)
    ensures ok ==> b.s.g == Redirected(old(b.s.g), from, to, stay, Parents(old(b.s.g), from))
    ensures ok ==> FineBelow(b.s, env, [from, to])
    ensures ok && InOrder(old(b.s.g), env, old(b.s.pm)) ==>
      (InOrder(b.s.g, env, b.s.pm) <==> MovedAlike(old(b.s.g), env, old(b.s.pm), from, to, stay))
  {
    var r := ReplaceAndRefresh(b, env, from, to, autoSkip, stay, frozen);
    ok := r.Done?;
    Finalize(b, r);
  }

  lemma ReplacedFineIff(s: Block, env: Env, g: Graph, pm: PermMap, from: Node, to: Node, stay: set<Edge>,
                        nodes: seq<Node>)
    requires InOrder(s.g, env, s.pm) && Acyclic(s.g) && from in s.g.nodes && to in s.g.nodes && nodes == [from, to]
    requires g == Redirected(s.g, from, to, stay, Parents(s.g, from)) && ValidMap(g, s.pm) && ValidMap(g, pm)
    requires forall x :: Fine(g, env, pm, x) <==> BelowAny(g, nodes, |nodes|, x) || Fine(g, env, s.pm, x)
    ensures InOrder(g, env, pm) <==> MovedAlike(s.g, env, s.pm, from, to, stay)
  {
    forall x | x in g.nodes ensures Fine(g, env, pm, x) <==> OwnerAlike(s.g, env, s.pm, from, to, stay, x) {
      ThirdNode(s, env, from, to, stay, x);
      BelowEither(g, from, to, nodes, x);
    }
  }

  lemma BelowEither(g: Graph, from: Node, to: Node, nodes: seq<Node>, x: Node)
    requires nodes == [from, to]
    ensures BelowAny(g, nodes, |nodes|, x) <==> Reaches(g, from, x) || Reaches(g, to, x)
  {
    assert nodes[0] == from && nodes[1] == to;
  }

  /** Where a node stands after the redirection: below one of the two, and then it owns no edge that moved;
      or a third node, as fine as it asks alike. */
  lemma ThirdNode(s: Block, env: Env, from: Node, to: Node, stay: set<Edge>, x: Node)
    requires InOrder(s.g, env, s.pm) && Acyclic(s.g) && from in s.g.nodes && to in s.g.nodes && x in s.g.nodes
    ensures var g := Redirected(s.g, from, to, stay, Parents(s.g, from));
      && ValidMap(g, s.pm)
      && (Reaches(g, from, x) || Reaches(g, to, x) ==> OwnerAlike(s.g, env, s.pm, from, to, stay, x))
      && (!Reaches(g, from, x) && !Reaches(g, to, x) ==>
           (Fine(g, env, s.pm, x) <==> OwnerAlike(s.g, env, s.pm, from, to, stay, x)))
  {
    var g := Redirected(s.g, from, to, stay, Parents(s.g, from));
    ReachesSelf(g, from);
    ReachesSelf(g, to);
    forall e | Owns(s.g, x, e) && Moves(s.g, from, to, stay, e) ensures !Reaches(g, from, x) && !Reaches(g, to, x) {
      MoverNotBelow(s.g, from, to, stay, x, e);
    }
    if x != from && x != to {
      assert Fine(s.g, env, s.pm, x);
      RedirectedFineIff(s.g, env, s.pm, from, to, stay, x);
    }
  }

  /** Everything below the given nodes is in order. */
  ghost predicate FineBelow(s: Block, env: Env, nodes: seq<Node>)
    requires s.g.bs.Keys <= s.pm.Keys
  {
    forall x :: BelowAny(s.g, nodes, |nodes|, x) ==> Fine(s.g, env, s.pm, x)
  }

  // ----- Attaching a child -----

  /** block.c:3205-3236 */
  method AttachChildNoperm(b: BlockLayer, env: Env, e: Edge, parent: Node, child: Node) returns (ok: bool)
    requires b.Valid() && Acyclic(b.s.g) && e !in b.s.pm && parent in b.s.g.nodes && child in b.s.g.nodes
    modifies b
    ensures b.Valid() && b.Origin() == old(b.Origin()) && ToFree(b.log) == old(ToFree(b.log))
    ensures b.refs.external == old(b.refs.external) && Acyclic(b.s.g)
    ensures Reaches(old(b.s.g), child, parent) ==> !ok
    ensures !ok ==> b.s == old(b.s)
    ensures ok ==> b.s == Attached(old(b.s), e, Some(parent), child,
      env.childPerm(parent, e, child, old(Cumulative(b.s.g, b.s.pm, parent))))
  {
    ghost var rank :| Ranked(b.s.g, rank);
    var has := RecurseHasChild(b.s.g, child, parent, rank);
    var inactive: bool := *;
    if has || inactive {
      return false;
    }
    var c := GetCumulativePerm(b.s.g, b.s.pm, parent);
    var access := env.childPerm(parent, e, child, c);
    AttachKeepsAcyclic(b.s, e, parent, child, access);
    ok := b.AttachChildCommon(e, Some(parent), child, access);
  }

  /** Up to tran_finalize in block.c:3295-3312. */
  method AttachAndRefresh(b: BlockLayer, env: Env, e: Edge, parent: Node, child: Node) returns (r: Outcome)
    requires b.Valid() && Acyclic(b.s.g) && e !in b.s.pm && parent in b.s.g.nodes && child in b.s.g.nodes
    modifies b
    ensures b.Valid() && b.Origin() == old(b.Origin()) && ToFree(b.log) == old(ToFree(b.log))
    ensures b.refs.external == old(b.refs.external) && Acyclic(b.s.g) && b.s.g.nodes == old(b.s.g.nodes)
    ensures Reaches(old(b.s.g), child, parent) ==> !r.Done?
    ensures r.Done? ==> b.s.g.bs == old(b.s.g.bs)[e := child] && b.s.g.owner == old(b.s.g.owner)[e := parent]
    ensures r.Done? && InOrder(old(b.s.g), env, old(b.s.pm)) ==> InOrder(b.s.g, env, b.s.pm)
  {
    ghost var s0 := b.s;
    r := Refused(parent);
    var ok := AttachChildNoperm(b, env, e, parent, child);
    if ok {
      ghost var s1 := b.s;
      r := RefreshSubtree(b, env, parent, b.s.g, b.s.pm);
      if r.Done? && InOrder(s0.g, env, s0.pm) {
        AttachedAllFine(s0, s1, env, b.s.pm, e, parent, child);
      }
    }
  }

  /** block.c:3288-3318.  The caller's reference to the child is dropped in any case. */
  method AttachChild(b: BlockLayer, env: Env, e: Edge, parent: Node, child: Node) returns (ok: bool)
    requires b.Valid() && b.log == Nil && Acyclic(b.s.g)
    requires e !in b.s.pm && parent in b.s.g.nodes && child in b.s.g.nodes && b.refs.external[child] > 0
    modifies b
    ensures b.Valid() && b.log == Nil && Acyclic(b.s.g)
    ensures b.refs.external == OneLess(old(b.refs.external), child)
    ensures Reaches(old(b.s.g), child, parent) ==> !ok
    ensures !ok ==> b.s == old(b.s)
    ensures ok ==> b.s.g.bs == old(b.s.g.bs)[e := child] && b.s.g.owner == old(b.s.g.owner)[e := parent]
    ensures ok && InOrder(old(b.s.g), env, old(b.s.pm)) ==> InOrder(b.s.g, env, b.s.pm)
  {
    var r := AttachAndRefresh(b, env, e, parent, child);
    ok := r.Done?;
    Finalize(b, r);
    DropReference(b, child);
  }

  lemma AttachedAllFine(s: Block, s': Block, env: Env, pm: PermMap, e: Edge, parent: Node, child: Node)
    requires InOrder(s.g, env, s.pm) && s.g.owner.Keys <= s.pm.Keys && e !in s.pm
    requires parent in s.g.nodes && child in s.g.nodes && e in s'.pm
    requires s' == Attached(s, e, Some(parent), child, s'.pm[e]) && ValidMap(s'.g, pm)
    requires forall x :: Fine(s'.g, env, pm, x) <==> Reaches(s'.g, parent, x) || Fine(s'.g, env, s'.pm, x)
    ensures InOrder(s'.g, env, pm)
  {
    AttachedFine(s, env, e, parent, child, s'.pm[e]);
    ReachesSelf(s'.g, parent);
    assert Owns(s'.g, parent, e);
    FoundChild(s'.g, parent, parent, e);
  }

  function OneLess(m: map<Node, nat>, v: Node): map<Node, nat> {
    if v in m && m[v] > 0 then m[v := m[v] - 1] else m
  }

  /** bdrv_schedule_unref for a reference that was held outside. */
  method DropReference(b: BlockLayer, v: Node)
    requires b.Valid() && v in b.s.g.nodes && b.refs.external[v] > 0
    modifies b`refs
    ensures b.Valid() && b.refs.refcnt == old(b.refs.refcnt)
    ensures b.refs.scheduled == old(b.refs.scheduled) + multiset{v}
    ensures b.refs.external == OneLess(old(b.refs.external), v)
  {
    ghost var r := b.refs;
    b.refs := ScheduleUnref(b.refs, Some(v)).(external := OneLess(b.refs.external, v));
    forall x | x in b.s.g.nodes ensures Balanced(b.s.g, b.log, b.refs, x) {
      assert Balanced(b.s.g, b.log, r, x);
    }
  }

  // ----- Appending a node -----

  /** The graph after bdrv_append: the new node has a child edge to the old top, and takes over the
      other edges to it, except where that would close a cycle. */
  ghost function Appended(s: Block, e: Edge, bsNew: Node, bsTop: Node, stay: set<Edge>): Graph {
    var g := Graph(s.g.nodes, s.g.owner[e := bsNew], s.g.bs[e := bsTop]);
    Redirected(g, bsTop, bsNew, stay, Parents(g, bsTop))
  }

  lemma AppendedEdge(s: Block, e: Edge, bsNew: Node, bsTop: Node, stay: set<Edge>)
    ensures Owns(Appended(s, e, bsNew, bsTop, stay), bsNew, e) && Appended(s, e, bsNew, bsTop, stay).bs[e] == bsTop
  {
    var g := Graph(s.g.nodes, s.g.owner[e := bsNew], s.g.bs[e := bsTop]);
    ReachesSelf(g, bsNew);
    assert Owns(g, bsNew, e);
  }

  /** The state once bs_new has its child edge, with what it asks for. */
  ghost function WithTop(s: Block, env: Env, e: Edge, bsNew: Node, bsTop: Node): Block
    requires s.g.bs.Keys <= s.pm.Keys
  {
    Attached(s, e, Some(bsNew), bsTop, env.childPerm(bsNew, e, bsTop, Cumulative(s.g, s.pm, bsNew)))
  }

  /** The owners of the edges that bs_new takes over ask of it what they asked of bs_top. */
  ghost predicate AppendedAlike(s: Block, env: Env, e: Edge, bsNew: Node, bsTop: Node, stay: set<Edge>)
    requires s.g.bs.Keys <= s.pm.Keys
  {
    var s1 := WithTop(s, env, e, bsNew, bsTop);
    MovedAlike(s1.g, env, s1.pm, bsTop, bsNew, stay)
  }

  /** block.c:5481-5517 */
  method Append(b: BlockLayer, env: Env, e: Edge, bsNew: Node, bsTop: Node, stay: set<Edge>, frozen: set<Edge>)
    returns (ok: bool)
    requires b.Valid() && b.log == Nil && Acyclic(b.s.g)
    requires e !in b.s.pm && bsNew in b.s.g.nodes && bsTop in b.s.g.nodes
    modifies b
    ensures b.Valid() && b.log == Nil && Acyclic(b.s.g) && b.refs.external == old(b.refs.external)
    ensures !ok ==> b.s == old(b.s)
    ensures ok ==> b.s.g == Appended(old(b.s), e, bsNew, bsTop, stay)
    ensures ok ==> forall x :: Reaches(b.s.g, bsNew, x) ==> Fine(b.s.g, env, b.s.pm, x)
    ensures ok && InOrder(old(b.s.g), env, old(b.s.pm)) ==>
      (InOrder(b.s.g, env, b.s.pm) <==> AppendedAlike(old(b.s), env, e, bsNew, bsTop, stay))
  {
    ghost var s0 := b.s;
    ok := AttachChildNoperm(b, env, e, bsNew, bsTop);
    var r := Refused(bsNew);
    if ok {
      ReachesSelf(s0.g, bsNew);
      ghost var s1 := b.s;
      ok := ReplaceNodeNoperm(b, bsTop, bsNew, true, stay, frozen);
      if ok {
        ghost var s2 := b.s;
        r := RefreshSubtree(b, env, bsNew, b.s.g, b.s.pm);
        if r.Done? && InOrder(s0.g, env, s0.pm) {
          AppendedFineIff(s0, s1, s2, env, b.s.pm, e, bsNew, bsTop, stay);
        }
        ok := r.Done?;
      }
    }
    Finalize(b, r);
  }

  lemma AppendedFineIff(s: Block, s1: Block, s2: Block, env: Env, pm: PermMap, e: Edge, bsNew: Node, bsTop: Node,
                        stay: set<Edge>)
    requires InOrder(s.g, env, s.pm) && s.g.owner.Keys <= s.pm.Keys && e !in s.pm
    requires bsNew in s.g.nodes && bsTop in s.g.nodes && Acyclic(s1.g)
    requires s1 == WithTop(s, env, e, bsNew, bsTop)
    requires s2 == s1.(g := Appended(s, e, bsNew, bsTop, stay)) && ValidMap(s2.g, pm)
    requires forall x :: Fine(s2.g, env, pm, x) <==> Reaches(s2.g, bsNew, x) || Fine(s2.g, env, s2.pm, x)
    ensures InOrder(s2.g, env, pm) <==> MovedAlike(s1.g, env, s1.pm, bsTop, bsNew, stay)
  {
    AttachedFine(s, env, e, bsNew, bsTop, s1.pm[e]);
    forall x | x in s2.g.nodes
      ensures Fine(s2.g, env, pm, x) <==> OwnerAlike(s1.g, env, s1.pm, bsTop, bsNew, stay, x)
    {
      AppendedNode(s, s1, env, e, bsNew, bsTop, stay, x);
    }
  }

  lemma AppendedNode(s: Block, s1: Block, env: Env, e: Edge, bsNew: Node, bsTop: Node, stay: set<Edge>, x: Node)
    requires InOrder(s.g, env, s.pm) && s.g.owner.Keys <= s.pm.Keys && e !in s.pm
    requires bsNew in s.g.nodes && bsTop in s.g.nodes && Acyclic(s1.g) && x in s.g.nodes
    requires s1 == WithTop(s, env, e, bsNew, bsTop) && ValidMap(s1.g, s1.pm)
    requires x != bsNew && x != bsTop ==> Fine(s1.g, env, s1.pm, x)
    ensures var g := Appended(s, e, bsNew, bsTop, stay);
      && ValidMap(g, s1.pm)
      && (Reaches(g, bsNew, x) ==> OwnerAlike(s1.g, env, s1.pm, bsTop, bsNew, stay, x))
      && (!Reaches(g, bsNew, x) ==>
           (Fine(g, env, s1.pm, x) <==> OwnerAlike(s1.g, env, s1.pm, bsTop, bsNew, stay, x)))
  {
    var g := Appended(s, e, bsNew, bsTop, stay);
    assert g == Redirected(s1.g, bsTop, bsNew, stay, Parents(s1.g, bsTop));
    AppendedEdge(s, e, bsNew, bsTop, stay);
    ReachesSelf(g, bsNew);
    FoundChild(g, bsNew, bsNew, e);
    forall d | Owns(s1.g, x, d) && Moves(s1.g, bsTop, bsNew, stay, d) ensures !Reaches(g, bsNew, x) {
      MoverNotBelow(s1.g, bsTop, bsNew, stay, x, d);
    }
    if x != bsNew && x != bsTop {
      RedirectedFineIff(s1.g, env, s1.pm, bsTop, bsNew, stay, x);
    }
  }

  // ----- When the order breaks -----

  /** With the default functions, an edge that moves is asked for the same exactly if both nodes agree in
      force_share or its owner shares everything anyway. */
  lemma AskedAlikeIff(g: Graph, env: Env, pm: PermMap, from: Node, to: Node, v: Node, e: Edge,
                      role: Edge -> ChildRole, flags: Node -> NodeFlags, forceShare: Node -> bool)
    requires ValidMap(g, pm) && UsesDefaults(env, role, flags, forceShare)
    ensures AskedAlike(g, env, pm, from, to, v, e) <==>
      forceShare(from) == forceShare(to) || DefaultPerms(role(e), flags(v), Cumulative(g, pm, v)).shared == ALL
  {}

  /** Node 0 uses node 1, which forces sharing, as a filtered child, and is used by a backend that shares
      nothing.  Node 2 is to replace node 1 and does not force sharing. */
  const SAMPLE: Graph := Graph({0, 1, 2}, map[11 := 0], map[10 := 0, 11 := 1])
  const SAMPLE_PERMS: PermMap := map[10 := Access({}, {}), 11 := Access({}, ALL)]
  const SAMPLE_ENV: Env := Env({0, 1, 2}, {0, 1, 2}, {0, 1, 2},
    (v: Node, e: Edge, w: Node, a: Access) =>
      DefaultChildPerm({RoleFiltered}, NodeFlags(true, false, false), w == 1, a))

  /** The permissions of the sample are in order, the edge to node 1 moves, and its owner asks for something
      else then.  Neither of the two nodes that are refreshed has a conflict, is refused or has children:
      unless their own drivers object, the replacement succeeds and leaves node 0 out of order. */
  lemma ForceShareBreaksOrder()
    ensures InOrder(SAMPLE, SAMPLE_ENV, SAMPLE_PERMS) && Acyclic(SAMPLE)
    ensures Moves(SAMPLE, 1, 2, {}, 11) && !MovedAlike(SAMPLE, SAMPLE_ENV, SAMPLE_PERMS, 1, 2, {})
    ensures Refreshable(1) && Refreshable(2)
  {
    SampleRefreshable();
    SampleInOrder();
    assert Ranked(SAMPLE, map[0 := 1, 1 := 0, 2 := 0]);
    SampleMoves();
    SampleAsks();
    SampleCumulative();
    assert Owns(SAMPLE, 0, 11) && !AskedAlike(SAMPLE, SAMPLE_ENV, SAMPLE_PERMS, 1, 2, 0, 11);
    assert !OwnerAlike(SAMPLE, SAMPLE_ENV, SAMPLE_PERMS, 1, 2, {}, 0);
  }

  ghost predicate Refreshable(v: Node) {
    var g := Redirected(SAMPLE, 1, 2, {}, Parents(SAMPLE, 1));
    && NoConflict(g, SAMPLE_PERMS, v)
    && Refusal(SAMPLE_ENV, v, Cumulative(g, SAMPLE_PERMS, v)) == None
    && forall e :: !Owns(g, v, e)
  }

  lemma SampleRefreshable()
    ensures Refreshable(1) && Refreshable(2)
  {
    var g := Redirected(SAMPLE, 1, 2, {}, Parents(SAMPLE, 1));
    SampleMoves();
    assert Parents(g, 1) == {};
    assert Parents(g, 2) == {11};
    AllIsAll();
  }

  lemma SampleMoves()
    ensures Moves(SAMPLE, 1, 2, {}, 11)
  {
    forall v | Reaches(SAMPLE, 2, v) ensures !Owns(SAMPLE, v, 11) {
      var p :| PathFrom(SAMPLE, p, 2, v);
      ClosedReaches(SAMPLE, {2}, p);
    }
  }

  lemma SampleAsks()
    ensures SAMPLE_ENV.childPerm(0, 11, 1, Access({}, {})) == Access({}, ALL)
    ensures SAMPLE_ENV.childPerm(0, 11, 2, Access({}, {})) == Access({}, {}) != Access({}, ALL)
  {
    var a: Access := Access({}, {});
    var f := FilterDefaultPerms(a);
    assert f.perm == {} && f.shared == {};
    assert Write in ALL;
    var role: ChildRole := {RoleFiltered};
    assert DefaultPerms(role, NodeFlags(true, false, false), a) == f;
    assert SAMPLE_ENV.childPerm(0, 11, 1, a) == DefaultChildPerm(role, NodeFlags(true, false, false), 1 == 1, a);
    assert SAMPLE_ENV.childPerm(0, 11, 2, a) == DefaultChildPerm(role, NodeFlags(true, false, false), 2 == 1, a);
  }

  lemma SampleCumulative()
    ensures Cumulative(SAMPLE, SAMPLE_PERMS, 0) == Access({}, {})
    ensures Cumulative(SAMPLE, SAMPLE_PERMS, 1) == Access({}, ALL)
    ensures Cumulative(SAMPLE, SAMPLE_PERMS, 2) == Access({}, ALL)
  {
    assert Parents(SAMPLE, 0) == {10};
    assert Parents(SAMPLE, 1) == {11};
    assert Parents(SAMPLE, 2) == {};
    AllIsAll();
    assert 10 in Parents(SAMPLE, 0);
  }

  lemma SampleInOrder()
    ensures InOrder(SAMPLE, SAMPLE_ENV, SAMPLE_PERMS)
  {
    SampleCumulative();
    assert Parents(SAMPLE, 0) == {10};
    assert Parents(SAMPLE, 1) == {11};
    assert Parents(SAMPLE, 2) == {};
    SampleAsks();
    forall v | v in SAMPLE.nodes ensures Fine(SAMPLE, SAMPLE_ENV, SAMPLE_PERMS, v) {
      forall e | Owns(SAMPLE, v, e) ensures v == 0 && e == 11 {}
    }
  }

  // ----- Runs -----

  /** The changes that the graph goes through; an append is an attach and a replacement. */
  datatype Change =
    | Attach(e: Edge, parent: Node, child: Node)
    | RootAttach(e: Edge, child: Node)
    | Replace(from: Node, to: Node, stay: set<Edge>, es: set<Edge>)
    | Detach(e: Edge)

  ghost predicate Step(g: Graph, c: Change, g': Graph) {
    match c
    case Attach(e, parent, child) =>
      && e !in g.bs && parent in g.nodes && child in g.nodes && !Reaches(g, child, parent)
      && g' == Graph(g.nodes, g.owner[e := parent], g.bs[e := child])
    case RootAttach(e, child) =>
      e !in g.owner && child in g.nodes && g' == g.(bs := g.bs[e := child])
    case Replace(from, to, stay, es) =>
      to in g.nodes && g' == Redirected(g, from, to, stay, es)
    case Detach(e) =>
      g' == Graph(g.nodes, g.owner - {e}, g.bs - {e})
  }

  /** However many of the edges have been redirected, no cycle has been closed. */
  lemma {:induction false} RedirectedKeeps(g: Graph, from: Node, to: Node, stay: set<Edge>, es: set<Edge>)
    requires WellFormed(g) && Acyclic(g) && to in g.nodes
    ensures Redirecting(g, Redirected(g, from, to, stay, es), from, to, stay, es)
    decreases es
  {
    if es == {} {
      NothingRedirected(g, from, to, stay);
    } else {
      var c :| c in es;
      var rest := es - {c};
      RedirectedKeeps(g, from, to, stay, rest);
      var g1 := Redirected(g, from, to, stay, rest);
      assert rest + {c} == es;
      if c in g.bs && g.bs[c] == from {
        RedirectOne(g, g1, from, to, stay, rest, c);
      } else {
        assert g1.bs == Redirected(g, from, to, stay, es).bs;
      }
    }
  }

  lemma StepKeepsAcyclic(g: Graph, c: Change, g': Graph)
    requires WellFormed(g) && Acyclic(g) && Step(g, c, g')
    ensures WellFormed(g') && Acyclic(g')
  {
    match c {
      case Attach(e, parent, child) =>
        AddKeepsAcyclic(g, g', parent, child);
      case Replace(from, to, stay, es) =>
        RedirectedKeeps(g, from, to, stay, es);
      case RootAttach(_, _) =>
        var rank :| Ranked(g, rank);
        assert Ranked(g', rank);
      case Detach(_) =>
        var rank :| Ranked(g, rank);
        assert Ranked(g', rank);
    }
  }

  /** The graph is without cycles after any number of changes. */
  lemma {:induction false} RunKeepsAcyclic(gs: seq<Graph>, cs: seq<Change>)
    requires |gs| == |cs| + 1 && WellFormed(gs[0]) && Acyclic(gs[0])
    requires forall i :: 0 <= i < |cs| ==> Step(gs[i], cs[i], gs[i + 1])
    ensures WellFormed(gs[|cs|]) && Acyclic(gs[|cs|])
  {
    if cs != [] {
      var n := |cs| - 1;
      RunKeepsAcyclic(gs[..n + 1], cs[..n]);
      StepKeepsAcyclic(gs[n], cs[n], gs[n + 1]);
    }
  }
}
