/** The permission refresh of block.c: one pass over a topological order of the nodes below the ones
    that changed, recorded in a transaction that can be undone. */
module RefreshPerms {
  import opened BlockGraph
  import opened Common
  import opened TopologicalOrder
  import opened Permissions
  import opened GraphTransaction

  /** What the refresh asks of the nodes: which ones have a driver, are writable, have an aligned size,
      and what a node asks of the child at an edge, which points to the given node, under its own
      cumulative permissions (the driver's bdrv_child_perm and the force_share of the node below). */
  datatype Env = Env(
    open: set<Node>,
    writable: set<Node>,
    sizeAligned: set<Node>,
    childPerm: (Node, Edge, Node, Access) -> Access)

  datatype Outcome = Done | Conflict(at: Node) | ReadOnly(at: Node) | Unaligned(at: Node) | Refused(at: Node)

  ghost predicate ValidMap(g: Graph, pm: PermMap) {
    WellFormed(g) && g.bs.Keys <= pm.Keys
  }

  // ----- Cumulative permissions and conflicts -----

  /** What all users of `v` need together, and what all of them allow. */
  ghost function Cumulative(g: Graph, pm: PermMap, v: Node): Access
    requires g.bs.Keys <= pm.Keys
  {
    Access(set p | p in ALL && exists e :: e in Parents(g, v) && p in pm[e].perm,
           set p | p in ALL && forall e :: e in Parents(g, v) ==> p in pm[e].shared)
  }

  /** Edge `a` allows what edge `b` needs: bdrv_a_allow_b. */
  predicate Allows(pm: PermMap, a: Edge, b: Edge)
    requires a in pm && b in pm
  {
    pm[b].perm <= pm[a].shared
  }

  ghost predicate NoConflict(g: Graph, pm: PermMap, v: Node)
    requires g.bs.Keys <= pm.Keys
  {
    forall a, b :: a in Parents(g, v) && b in Parents(g, v) && a != b ==> Allows(pm, a, b)
  }

  /** block.c:2646-2662 */
  method GetCumulativePerm(g: Graph, pm: PermMap, v: Node) returns (c: Access)
    requires ValidMap(g, pm)
    ensures c == Cumulative(g, pm, v)
  {
    var perm: Perms, shared: Perms := {}, ALL;
    AllIsAll();
    var todo := Parents(g, v);
    while todo != {}
      invariant todo <= Parents(g, v)
      invariant forall p :: p in perm <==> exists e :: e in Parents(g, v) - todo && p in pm[e].perm
      invariant forall p :: p in shared <==> forall e :: e in Parents(g, v) - todo ==> p in pm[e].shared
    {
      var e :| e in todo;
      perm := perm + pm[e].perm;
      shared := shared * pm[e].shared;
      assert Parents(g, v) - (todo - {e}) == Parents(g, v) - todo + {e};
      todo := todo - {e};
    }
    assert Parents(g, v) - todo == Parents(g, v);
    c := Access(perm, shared);
  }

  /** block.c:2257-2281 */
  method ParentPermsConflict(g: Graph, pm: PermMap, v: Node) returns (conflict: bool)
    requires ValidMap(g, pm)
    ensures conflict <==> !NoConflict(g, pm, v)
  {
    var parents := Parents(g, v);
    var todo := parents;
    while todo != {}
      invariant todo <= parents
      invariant forall a, b :: a in parents - todo && b in parents && a != b ==> Allows(pm, a, b)
    {
      var a :| a in todo;
      var others := parents;
      while others != {}
        invariant others <= parents
        invariant forall b :: b in parents - others && b != a ==> Allows(pm, a, b)
      {
        var b :| b in others;
        if a != b && !Allows(pm, a, b) {
          return true;
        }
        others := others - {b};
      }
      todo := todo - {a};
    }
    conflict := false;
  }

  // ----- The fixpoint -----

  /** Every edge of an open node carries what the node's cumulative permissions call for. */
  ghost predicate Settled(g: Graph, env: Env, pm: PermMap, v: Node)
    requires g.bs.Keys <= pm.Keys
  {
    v in env.open ==> forall e :: Owns(g, v, e) ==> pm[e] == env.childPerm(v, e, g.bs[e], Cumulative(g, pm, v))
  }

  /** Changes of edges that do not point to `v` leave its cumulative permissions alone. */
  lemma CumulativeFrame(g: Graph, pm: PermMap, pm': PermMap, v: Node)
    requires g.bs.Keys <= pm.Keys == pm'.Keys
    requires forall e :: e in Parents(g, v) ==> pm'[e] == pm[e]
    ensures Cumulative(g, pm', v) == Cumulative(g, pm, v)
    ensures NoConflict(g, pm', v) <==> NoConflict(g, pm, v)
  {
    forall p ensures p in Cumulative(g, pm', v).perm <==> p in Cumulative(g, pm, v).perm {}
    forall p ensures p in Cumulative(g, pm', v).shared <==> p in Cumulative(g, pm, v).shared {}
  }

  /** `pm'` differs from `pm` at most in the edges of `v`. */
  ghost predicate OnlyEdgesOf(g: Graph, pm: PermMap, pm': PermMap, v: Node) {
    pm'.Keys == pm.Keys && forall e :: e in pm && !Owns(g, v, e) ==> pm'[e] == pm[e]
  }

  /** No edge of list[i] points to a node listed before it or to itself. */
  lemma NoEdgeBack(g: Graph, list: seq<Node>, i: nat, k: nat, e: Edge)
    requires Distinct(list) && Sorted(g, list) && k <= i < |list| && Owns(g, list[i], e)
    ensures g.bs[e] != list[k]
  {
    assert g.bs[e] in list[i + 1..];
  }

  /** Refreshing a node leaves what has been settled before it, and its own cumulative permissions. */
  lemma EarlierStays(g: Graph, env: Env, pm: PermMap, pm': PermMap, list: seq<Node>, i: nat, k: nat)
    requires WellFormed(g) && g.bs.Keys <= pm.Keys
    requires Distinct(list) && Sorted(g, list) && k <= i < |list| && list[k] in g.nodes
    requires OnlyEdgesOf(g, pm, pm', list[i])
    ensures Cumulative(g, pm', list[k]) == Cumulative(g, pm, list[k])
    ensures NoConflict(g, pm', list[k]) <==> NoConflict(g, pm, list[k])
    ensures k < i && Settled(g, env, pm, list[k]) ==> Settled(g, env, pm', list[k])
  {
    forall e | e in Parents(g, list[k]) ensures pm'[e] == pm[e] {
      if Owns(g, list[i], e) {
        NoEdgeBack(g, list, i, k, e);
      }
    }
    CumulativeFrame(g, pm, pm', list[k]);
    if k < i {
      forall e | Owns(g, list[k], e) ensures pm'[e] == pm[e] {
        assert list[k] != list[i];
      }
    }
  }

  // ----- Loosening -----

  /** `g` is `g0` with some edges taken away. */
  ghost predicate SubGraph(g: Graph, g0: Graph) {
    && (forall e :: e in g.bs ==> e in g0.bs && g0.bs[e] == g.bs[e])
    && (forall v, e :: Owns(g, v, e) ==> Owns(g0, v, e))
  }

  ghost predicate AllLooser(g: Graph, pm: PermMap, pm0: PermMap) {
    forall e :: e in g.bs ==> e in pm && e in pm0 && Looser(pm[e], pm0[e])
  }

  /** Nodes ask less of their children when less is asked of them. */
  ghost predicate Monotone(env: Env) {
    forall v, e, w, a, b :: Looser(a, b) ==> Looser(env.childPerm(v, e, w, a), env.childPerm(v, e, w, b))
  }

  ghost predicate Fine(g: Graph, env: Env, pm: PermMap, v: Node)
    requires g.bs.Keys <= pm.Keys
  {
    && Settled(g, env, pm, v)
    && NoConflict(g, pm, v)
    && (NeedsWrite(Cumulative(g, pm, v)) ==> v in env.writable)
  }

  /** A graph whose permissions are in order. */
  ghost predicate InOrder(g: Graph, env: Env, pm: PermMap) {
    ValidMap(g, pm) && forall v :: v in g.nodes ==> Fine(g, env, pm, v)
  }

  /** The state of a refresh after edges were taken from a graph that was in order. */
  ghost predicate Loosened(g: Graph, env: Env, pm: PermMap, g0: Graph, pm0: PermMap) {
    && ValidMap(g, pm) && InOrder(g0, env, pm0) && Monotone(env)
    && SubGraph(g, g0) && g.nodes <= g0.nodes && AllLooser(g, pm, pm0)
  }

  lemma CumulativeLooser(g: Graph, env: Env, pm: PermMap, g0: Graph, pm0: PermMap, v: Node)
    requires Loosened(g, env, pm, g0, pm0)
    ensures Looser(Cumulative(g, pm, v), Cumulative(g0, pm0, v))
  {
    var c, c0 := Cumulative(g, pm, v), Cumulative(g0, pm0, v);
    assert forall e :: e in Parents(g, v) ==> e in Parents(g0, v);
    forall p | p in c.perm ensures p in c0.perm {
      var e :| e in Parents(g, v) && p in pm[e].perm;
      assert p in pm0[e].perm;
    }
    forall p | p in c0.shared ensures p in c.shared {
      forall e | e in Parents(g, v) ensures p in pm[e].shared {
        assert p in pm0[e].shared;
      }
    }
  }

  /** Loosening never conflicts and never asks for a write permission that was not there. */
  lemma LoosenedFine(g: Graph, env: Env, pm: PermMap, g0: Graph, pm0: PermMap, v: Node)
    requires Loosened(g, env, pm, g0, pm0) && v in g.nodes
    ensures NoConflict(g, pm, v)
    ensures NeedsWrite(Cumulative(g, pm, v)) ==> v in env.writable
  {
    assert Fine(g0, env, pm0, v);
    CumulativeLooser(g, env, pm, g0, pm0, v);
    forall a, b | a in Parents(g, v) && b in Parents(g, v) && a != b ensures Allows(pm, a, b) {
      assert Allows(pm0, a, b);
    }
  }

  /** What a refreshed node asks of its children is looser than before. */
  lemma RefreshedLooser(g: Graph, env: Env, pm: PermMap, pm': PermMap, g0: Graph, pm0: PermMap, v: Node)
    requires Loosened(g, env, pm, g0, pm0) && v in g.nodes && v in env.open && ValidMap(g, pm')
    requires OnlyEdgesOf(g, pm, pm', v)
    requires forall e :: Owns(g, v, e) ==> pm'[e] == env.childPerm(v, e, g.bs[e], Cumulative(g, pm, v))
    ensures Loosened(g, env, pm', g0, pm0)
  {
    assert Fine(g0, env, pm0, v);
    CumulativeLooser(g, env, pm, g0, pm0, v);
    forall e | e in g.bs ensures e in pm0 && Looser(pm'[e], pm0[e]) {
      if Owns(g, v, e) {
        assert pm0[e] == env.childPerm(v, e, g.bs[e], Cumulative(g0, pm0, v));
      }
    }
  }

  // ----- Drivers with the default permission functions -----

  type ChildRole = r: set<Role> | ValidRole(r) witness {RoleData}

  /** What bdrv_child_perm (block.c:2283-2299) gives for drivers that use bdrv_default_perms. */
  function DefaultChildPerm(role: ChildRole, f: NodeFlags, forceShare: bool, a: Access): Access {
    var d := DefaultPerms(role, f, a);
    if forceShare then Access(d.perm, ALL) else d
  }

  /** All drivers use the default functions; force_share is a property of the node below. */
  ghost predicate UsesDefaults(env: Env, role: Edge -> ChildRole, flags: Node -> NodeFlags, forceShare: Node -> bool) {
    forall v, e, w, a :: env.childPerm(v, e, w, a) == DefaultChildPerm(role(e), flags(v), forceShare(w), a)
  }

  lemma DefaultsAreMonotone(env: Env, role: Edge -> ChildRole, flags: Node -> NodeFlags, forceShare: Node -> bool)
    requires UsesDefaults(env, role, flags, forceShare)
    ensures Monotone(env)
  {
    forall v, e, w, a, b | Looser(a, b) ensures Looser(env.childPerm(v, e, w, a), env.childPerm(v, e, w, b)) {
      DefaultPermsMonotone(role(e), flags(v), a, b);
      AllIsAll();
    }
  }

  // ----- Taking an edge away -----

  ghost predicate EdgeRemoved(g: Graph, g': Graph, r: Edge) {
    && g'.nodes == g.nodes && g'.bs == g.bs - {r} && g'.owner == g.owner - {r}
    && (forall v, e :: Owns(g', v, e) <==> Owns(g, v, e) && e != r)
  }

  lemma RemovedSubGraph(g: Graph, g': Graph, r: Edge)
    requires WellFormed(g) && EdgeRemoved(g, g', r)
    ensures WellFormed(g') && SubGraph(g', g)
    ensures Acyclic(g) ==> Acyclic(g')
  {
    if Acyclic(g) {
      var rank :| Ranked(g, rank);
      assert Ranked(g', rank);
    }
  }

  lemma OtherStaysFine(g: Graph, g': Graph, env: Env, pm: PermMap, r: Edge, v: Node)
    requires InOrder(g, env, pm) && EdgeRemoved(g, g', r) && r in g.bs && v in g.nodes && v != g.bs[r]
    ensures Fine(g', env, pm - {r}, v)
  {
    RemovedSubGraph(g, g', r);
    var pm' := pm - {r};
    assert Fine(g, env, pm, v);
    assert Parents(g', v) == Parents(g, v);
    var c, c' := Cumulative(g, pm, v), Cumulative(g', pm', v);
    forall p ensures p in c'.perm <==> p in c.perm {}
    forall p ensures p in c'.shared <==> p in c.shared {}
    assert c' == c;
  }

  // ----- The refresh -----

  ghost predicate FineUpTo(g: Graph, env: Env, pm: PermMap, list: seq<Node>, n: nat)
    requires g.bs.Keys <= pm.Keys && n <= |list|
  {
    forall k :: 0 <= k < n ==> Fine(g, env, pm, list[k])
  }

  /** The edges of `v` carry what its cumulative permissions in `pm` call for. */
  ghost predicate Refreshed(g: Graph, env: Env, pm: PermMap, pm': PermMap, v: Node)
    requires g.bs.Keys <= pm.Keys
  {
    && OnlyEdgesOf(g, pm, pm', v)
    && (NeedsWrite(Cumulative(g, pm, v)) ==> v in env.writable)
    && (v in env.open ==> forall e :: Owns(g, v, e) ==> pm'[e] == env.childPerm(v, e, g.bs[e], Cumulative(g, pm, v)))
    && (v !in env.open ==> pm' == pm)
  }

  /** The pass settles one node after the other: parents come first, so nothing is undone. */
  lemma SettleOne(g: Graph, env: Env, pm: PermMap, pm': PermMap, list: seq<Node>, i: nat)
    requires ValidMap(g, pm) && ValidMap(g, pm') && i < |list|
    requires Distinct(list) && Sorted(g, list) && ToSet(list) <= g.nodes
    requires FineUpTo(g, env, pm, list, i) && NoConflict(g, pm, list[i])
    requires Refreshed(g, env, pm, pm', list[i])
    ensures FineUpTo(g, env, pm', list, i + 1)
  {
    forall k | 0 <= k < i + 1 ensures Fine(g, env, pm', list[k]) {
      assert list[k] in ToSet(list);
      EarlierStays(g, env, pm, pm', list, i, k);
    }
  }

  /** Every edge that changed belongs to a listed node. */
  ghost predicate OnlyListed(g: Graph, pm: PermMap, pm': PermMap, list: seq<Node>) {
    pm'.Keys == pm.Keys && forall e :: e in pm && pm'[e] != pm[e] ==> exists v :: v in list && Owns(g, v, e)
  }

  lemma OneMore(g: Graph, pm: PermMap, pm': PermMap, pm'': PermMap, list: seq<Node>, v: Node)
    requires OnlyListed(g, pm, pm', list) && OnlyEdgesOf(g, pm', pm'', v) && v in list
    ensures OnlyListed(g, pm, pm'', list)
  {}

  lemma ChangedTargetListed(g: Graph, pm: PermMap, pm': PermMap, list: seq<Node>, e: Edge)
    requires Sorted(g, list) && OnlyListed(g, pm, pm', list) && e in pm && pm'[e] != pm[e] && e in g.bs
    ensures g.bs[e] in list
  {
    var v :| v in list && Owns(g, v, e);
    ClosedList(g, list);
    assert Child(g, v, g.bs[e]);
  }

  /** The pass leaves the nodes it does not list as they are. */
  lemma UnlistedStays(g: Graph, env: Env, pm: PermMap, pm': PermMap, list: seq<Node>, v: Node)
    requires ValidMap(g, pm) && Sorted(g, list) && OnlyListed(g, pm, pm', list) && v !in list
    ensures Fine(g, env, pm, v) <==> Fine(g, env, pm', v)
  {
    forall e | e in Parents(g, v) ensures pm'[e] == pm[e] {
      if pm'[e] != pm[e] {
        ChangedTargetListed(g, pm, pm', list, e);
      }
    }
    CumulativeFrame(g, pm, pm', v);
  }

  /** After the subtree of the node that lost an edge was refreshed, everything is in order. */
  lemma AllFineAgain(g: Graph, g': Graph, env: Env, pm: PermMap, pm': PermMap, r: Edge)
    requires InOrder(g, env, pm) && EdgeRemoved(g, g', r) && r in g.bs && ValidMap(g', pm')
    requires Reaches(g', g.bs[r], g.bs[r]) ==> Fine(g', env, pm', g.bs[r])
    requires forall x :: x in g'.nodes && x != g.bs[r] && Fine(g', env, pm - {r}, x) ==> Fine(g', env, pm', x)
    ensures InOrder(g', env, pm')
  {
    forall x | x in g'.nodes ensures Fine(g', env, pm', x) {
      if x == g.bs[r] {
        ReachesSelf(g', x);
      } else {
        OtherStaysFine(g, g', env, pm, r, x);
      }
    }
  }

  /** A refresh changes permissions only, and records how to change them back. */
  twostate predicate PermsOnly(b: BlockLayer)
    reads b
  {
    && b.Valid() && b.s.g == old(b.s.g) && b.refs == old(b.refs)
    && b.Origin() == old(b.Origin()) && ToFree(b.log) == old(ToFree(b.log))
  }

  /** block.c:2581-2588 */
  method SetChildPerms(b: BlockLayer, env: Env, v: Node, c: Access)
    requires b.Valid()
    modifies b
    ensures PermsOnly(b) && OnlyEdgesOf(b.s.g, old(b.s.pm), b.s.pm, v)
    ensures forall e :: Owns(b.s.g, v, e) ==> b.s.pm[e] == env.childPerm(v, e, b.s.g.bs[e], c)
  {
    var todo := Children(b.s.g, v);
    while todo != {}
      invariant PermsOnly(b) && OnlyEdgesOf(b.s.g, old(b.s.pm), b.s.pm, v)
      invariant todo <= Children(b.s.g, v)
      invariant forall e :: Owns(b.s.g, v, e) && e !in todo ==> b.s.pm[e] == env.childPerm(v, e, b.s.g.bs[e], c)
    {
      var e :| e in todo;
      b.SetPerm(e, env.childPerm(v, e, b.s.g.bs[e], c));
      todo := todo - {e};
    }
  }

  /** Why a node with these cumulative permissions is refused before its driver is asked. */
  function Refusal(env: Env, v: Node, c: Access): Option<Outcome> {
    if NeedsWrite(c) && v !in env.writable then Some(ReadOnly(v))
    else if NeedsWrite(c) && Resize !in c.perm && v !in env.sizeAligned then Some(Unaligned(v))
    else None
  }

  /** A node for whose metadata child it would matter that the child holds data as well is read-only and
      has users that write, and is refused. */
  lemma WhereDataMattersIsRefused(env: Env, v: Node, role: set<Role>, f: NodeFlags, c: Access)
    requires RoleMetadata in role && RoleData !in role && (f.writable <==> v in env.writable)
    requires DefaultPermsForStorage(role + {RoleData}, f, c) != DefaultPermsForStorage(role, f, c)
    ensures Refusal(env, v, c) == Some(ReadOnly(v))
  {
    DataAddsNothingIff(role, f, c);
  }

  /** block.c:2521-2591 */
  method NodeRefreshPerm(b: BlockLayer, env: Env, v: Node) returns (r: Outcome)
    requires b.Valid()
    modifies b
    ensures PermsOnly(b)
    ensures var o := Refusal(env, v, old(Cumulative(b.s.g, b.s.pm, v)));
      if o.Some? then r == o.value else r == Done || (r == Refused(v) && v in env.open)
    ensures !r.Done? ==> b.s == old(b.s)
    ensures r.Done? ==> Refreshed(b.s.g, env, old(b.s.pm), b.s.pm, v)
  {
    var c := GetCumulativePerm(b.s.g, b.s.pm, v);
    if NeedsWrite(c) && v !in env.writable {
      return ReadOnly(v);
    }
    if NeedsWrite(c) && Resize !in c.perm && v !in env.sizeAligned {
      return Unaligned(v);
    }
    if v !in env.open {
      return Done;
    }
    var refused: bool := *;
    if refused {
      return Refused(v);
    }
    SetChildPerms(b, env, v, c);
    r := Done;
  }

  /** The body of the loop of block.c:2608-2619. */
  method RefreshListed(b: BlockLayer, env: Env, list: seq<Node>, i: nat, ghost g0: Graph, ghost pm0: PermMap)
    returns (r: Outcome)
    requires b.Valid() && Distinct(list) && Sorted(b.s.g, list) && ToSet(list) <= b.s.g.nodes
    requires i < |list| && FineUpTo(b.s.g, env, b.s.pm, list, i)
    modifies b
    ensures PermsOnly(b) && OnlyEdgesOf(b.s.g, old(b.s.pm), b.s.pm, list[i])
    ensures r.Done? ==> FineUpTo(b.s.g, env, b.s.pm, list, i + 1)
    ensures Loosened(b.s.g, env, old(b.s.pm), g0, pm0) ==>
      !r.Conflict? && !r.ReadOnly? && Loosened(b.s.g, env, b.s.pm, g0, pm0)
  {
    var v := list[i];
    assert v in ToSet(list);
    var g := b.s.g;
    ghost var before := b.s.pm;
    var conflict := ParentPermsConflict(g, b.s.pm, v);
    if Loosened(g, env, before, g0, pm0) {
      LoosenedFine(g, env, before, g0, pm0, v);
    }
    if conflict {
      return Conflict(v);
    }
    r := NodeRefreshPerm(b, env, v);
    if r.Done? {
      SettleOne(g, env, before, b.s.pm, list, i);
      if Loosened(g, env, before, g0, pm0) && v in env.open {
        RefreshedLooser(g, env, before, b.s.pm, g0, pm0, v);
      }
    }
  }

  /** block.c:2600-2622.  One pass puts all listed nodes in order.  `g0` and `pm0`: if the graph came
      from one that was in order by taking edges away, the pass can fail neither for a conflict nor for
      a read-only node. */
  method DoRefreshPerms(b: BlockLayer, env: Env, list: seq<Node>, ghost g0: Graph, ghost pm0: PermMap)
    returns (r: Outcome)
    requires b.Valid() && Distinct(list) && Sorted(b.s.g, list) && ToSet(list) <= b.s.g.nodes
    modifies b
    ensures PermsOnly(b) && OnlyListed(b.s.g, old(b.s.pm), b.s.pm, list)
    ensures r.Done? ==> FineUpTo(b.s.g, env, b.s.pm, list, |list|)
    ensures Loosened(b.s.g, env, old(b.s.pm), g0, pm0) ==> !r.Conflict? && !r.ReadOnly?
  {
    for i := 0 to |list|
      invariant PermsOnly(b) && OnlyListed(b.s.g, old(b.s.pm), b.s.pm, list)
      invariant FineUpTo(b.s.g, env, b.s.pm, list, i)
      invariant Loosened(b.s.g, env, old(b.s.pm), g0, pm0) ==> Loosened(b.s.g, env, b.s.pm, g0, pm0)
    {
      ghost var before := b.s.pm;
      r := RefreshListed(b, env, list, i, g0, pm0);
      OneMore(b.s.g, old(b.s.pm), before, b.s.pm, list, list[i]);
      if !r.Done? {
        return;
      }
    }
    r := Done;
  }

  /** block.c:2632-2644.  Everything below the given nodes ends up in order, the rest stays as it was,
      and the transaction still leads back to where it led. */
  method ListRefreshPerms(b: BlockLayer, env: Env, nodes: seq<Node>, ghost g0: Graph, ghost pm0: PermMap)
    returns (r: Outcome)
    requires b.Valid() && Acyclic(b.s.g)
    requires forall i :: 0 <= i < |nodes| ==> nodes[i] in b.s.g.nodes
    modifies b
    ensures PermsOnly(b)
    ensures r.Done? ==> forall x ::
      Fine(b.s.g, env, b.s.pm, x) <==> BelowAny(b.s.g, nodes, |nodes|, x) || Fine(b.s.g, env, old(b.s.pm), x)
    ensures Loosened(b.s.g, env, old(b.s.pm), g0, pm0) ==> !r.Conflict? && !r.ReadOnly?
  {
    var g := b.s.g;
    var list := RefreshList(g, nodes);
    r := DoRefreshPerms(b, env, list, g0, pm0);
    if r.Done? {
      forall x | x in list ensures Fine(g, env, b.s.pm, x) {
        var k :| 0 <= k < |list| && list[k] == x;
      }
      forall x | x !in list ensures Fine(g, env, b.s.pm, x) <==> Fine(g, env, old(b.s.pm), x) {
        UnlistedStays(g, env, old(b.s.pm), b.s.pm, list, x);
      }
    }
  }

  /** block.c:2699-2718 in the caller's transaction. */
  method RefreshSubtree(b: BlockLayer, env: Env, v: Node, ghost g0: Graph, ghost pm0: PermMap) returns (r: Outcome)
    requires b.Valid() && Acyclic(b.s.g) && v in b.s.g.nodes
    modifies b
    ensures PermsOnly(b)
    ensures r.Done? ==> forall x ::
      Fine(b.s.g, env, b.s.pm, x) <==> Reaches(b.s.g, v, x) || Fine(b.s.g, env, old(b.s.pm), x)
    ensures Loosened(b.s.g, env, old(b.s.pm), g0, pm0) ==> !r.Conflict? && !r.ReadOnly?
  {
    var nodes := [v];
    r := ListRefreshPerms(b, env, nodes, g0, pm0);
    if r.Done? {
      forall x ensures BelowAny(b.s.g, nodes, |nodes|, x) <==> Reaches(b.s.g, v, x) {
        assert nodes[0] == v;
      }
    }
  }

  /** tran_finalize */
  method Finalize(b: BlockLayer, r: Outcome)
    requires b.Valid() && ToFree(b.log) == {}
    modifies b
    ensures b.Valid() && b.log == Nil && b.refs.external == old(b.refs.external)
    ensures b.s == if r.Done? then old(b.s) else old(b.Origin())
  {
    if r.Done? {
      b.Commit();
      assert old(b.s.g.owner) - {} == old(b.s.g.owner) && old(b.s.pm) - {} == old(b.s.pm);
    } else {
      b.Abort();
    }
  }

  lemma FreedLoosens(s: Block, env: Env, r: Edge)
    requires InOrder(s.g, env, s.pm) && Monotone(env) && Acyclic(s.g)
    ensures EdgeRemoved(s.g, Freed(s, r).g, r) && Acyclic(Freed(s, r).g)
    ensures Loosened(Freed(s, r).g, env, Freed(s, r).pm, s.g, s.pm)
  {
    RemovedSubGraph(s.g, Freed(s, r).g, r);
  }

  /** The edge of a node gone, its reference is one to be dropped. */
  lemma UnrefSound(s: Block, refs: Refs, r: Edge)
    requires Sound(s, Nil, refs) && r in s.g.bs
    ensures Sound(Freed(s, r), Nil, ScheduleUnref(refs, Bs(s.g, r)))
  {
    var g' := Freed(s, r).g;
    var refs' := ScheduleUnref(refs, Bs(s.g, r));
    forall v | v in g'.nodes ensures Balanced(g', Nil, refs', v) {
      assert Balanced(s.g, Nil, refs, v);
      ParentsMove(s.g, r, None, v);
      assert Parents(g', v) == Parents(WithBs(s.g, r, None), v);
    }
  }

  /** block.c:3331-3332 and 3350: the edge goes, the reference it held is scheduled to be dropped. */
  method DetachAndFree(b: BlockLayer, r: Edge) returns (v: Node)
    requires b.Valid() && b.log == Nil && r in b.s.g.bs
    modifies b
    ensures b.Valid() && b.log == Nil && v == old(b.s.g.bs[r]) && b.s == Freed(old(b.s), r)
    ensures b.refs == ScheduleUnref(old(b.refs), Some(v))
  {
    v := b.s.g.bs[r];
    UnrefSound(b.s, b.refs, r);
    b.refs := ScheduleUnref(b.refs, Some(v));
    b.s := Freed(b.s, r);
  }

  /** block.c:3326-3351 without the AioContext.  Taking a parent away never makes a conflict and never
      makes a node need write access it cannot have; unless a driver or the size check refuses, the
      graph is in order again. */
  method RootUnrefChild(b: BlockLayer, env: Env, r: Edge) returns (o: Outcome)
    requires b.Valid() && b.log == Nil && r in b.s.g.bs
    requires InOrder(b.s.g, env, b.s.pm) && Monotone(env) && Acyclic(b.s.g)
    modifies b
    ensures b.Valid() && b.log == Nil && b.s.g == Freed(old(b.s), r).g
    ensures b.refs.external == old(b.refs.external)
    ensures o.Done? || o.Unaligned? || o.Refused?
    ensures o.Done? ==> InOrder(b.s.g, env, b.s.pm)
    ensures !o.Done? ==> b.s == Freed(old(b.s), r)
  {
    ghost var g0, pm0 := b.s.g, b.s.pm;
    FreedLoosens(b.s, env, r);
    var v := DetachAndFree(b, r);
    o := RefreshSubtree(b, env, v, g0, pm0);
    if o.Done? {
      AllFineAgain(g0, b.s.g, env, pm0, b.s.pm, r);
    }
    Finalize(b, o);
  }
}
