/** Changes of the block graph as transactions: every change is recorded, newest first, in a list of
    actions that is either undone or committed as a whole.  A node's reference count is accounted for
    at every step. */
module GraphTransaction {
  import opened BlockGraph
  import opened Common
  import opened Permissions

  type PermMap = map<Edge, Access>

  datatype Action =
    | SetPerm(e: Edge, access: Access)            // the permissions before
    | ReplaceChild(e: Edge, oldBs: Option<Node>)  // the node before, with its reference
    | AttachChild(e: Edge)
    | RemoveChild(e: Edge)

  /** The list of util/transactions.c: tran_add puts an action at its head. */
  datatype Actions = Nil | Cons(head: Action, next: Actions)

  /** What a transaction can roll back.  The keys of `pm` are the edges that exist. */
  datatype Block = Block(g: Graph, pm: PermMap)

  function Bs(g: Graph, e: Edge): Option<Node> {
    if e in g.bs then Some(g.bs[e]) else None
  }

  /** bdrv_replace_child_noperm (block.c:2946-3007) */
  function WithBs(g: Graph, e: Edge, b: Option<Node>): Graph {
    g.(bs := if b.Some? then g.bs[e := b.value] else g.bs - {e})
  }

  function Freed(s: Block, e: Edge): Block {
    Block(g := s.g.(owner := s.g.owner - {e}, bs := s.g.bs - {e}), pm := s.pm - {e})
  }

  /** The abort callback of an action: block.c:2343-2351, 2444-2470, 3033-3068. */
  function Undo(s: Block, a: Action): Block {
    match a
    case SetPerm(e, access) => s.(pm := s.pm[e := access])
    case ReplaceChild(e, oldBs) => s.(g := WithBs(s.g, e, oldBs))
    case AttachChild(e) => Freed(s, e)
    case RemoveChild(e) => s
  }

  function Undone(s: Block, l: Actions): Block
    decreases l
  {
    if l.Nil? then s else Undone(Undo(s, l.head), l.next)
  }

  /** What the abort callback asserts or dereferences. */
  predicate CanUndo(s: Block, a: Action) {
    match a
    case SetPerm(e, _) => e in s.pm
    case ReplaceChild(e, oldBs) => e in s.pm && Bs(s.g, e) != oldBs
    case AttachChild(e) => e in s.g.bs
    case RemoveChild(e) => true
  }

  predicate CanAbort(s: Block, l: Actions)
    decreases l
  {
    l.Nil? || (CanUndo(s, l.head) && CanAbort(Undo(s, l.head), l.next))
  }

  /** The edges that a commit frees. */
  function ToFree(l: Actions): set<Edge> {
    match l
    case Nil => {}
    case Cons(a, next) => ToFree(next) + if a.RemoveChild? then {a.e} else {}
  }

  /** Nothing happens to an edge once it has been removed. */
  predicate NoneAfterRemoval(l: Actions) {
    l.Nil? || (l.head.e !in ToFree(l.next) && NoneAfterRemoval(l.next))
  }

  /** The nodes that saved references belong to exist. */
  predicate SavedNodesExist(nodes: set<Node>, l: Actions) {
    l.Nil? ||
    ((l.head.ReplaceChild? && l.head.oldBs.Some? ==> l.head.oldBs.value in nodes) && SavedNodesExist(nodes, l.next))
  }

  /** The edges to free exist and are detached, as bdrv_child_free asserts. */
  ghost predicate Shape(s: Block, l: Actions) {
    && WellFormed(s.g) && s.g.bs.Keys <= s.pm.Keys && s.g.owner.Keys <= s.pm.Keys
    && NoneAfterRemoval(l) && SavedNodesExist(s.g.nodes, l)
    && (forall e :: e in ToFree(l) ==> e in s.pm && e !in s.g.bs)
  }

  lemma UndoKeepsShape(s: Block, l: Actions)
    requires Shape(s, l) && CanAbort(s, l) && l.Cons?
    ensures Shape(Undo(s, l.head), l.next)
  {
    match l.head {
      case SetPerm(_, _) => case ReplaceChild(_, _) => case AttachChild(_) => case RemoveChild(_) =>
    }
  }

  function Attached(s: Block, e: Edge, owner: Option<Node>, child: Node, access: Access): Block {
    Block(Graph(s.g.nodes, if owner.Some? then s.g.owner[e := owner.value] else s.g.owner, s.g.bs[e := child]),
          s.pm[e := access])
  }

  lemma AttachedShape(s: Block, l: Actions, e: Edge, owner: Option<Node>, child: Node, access: Access)
    requires Shape(s, l) && e !in s.pm && child in s.g.nodes && (owner.Some? ==> owner.value in s.g.nodes)
    ensures Undo(Attached(s, e, owner, child, access), AttachChild(e)) == s
    ensures Shape(Attached(s, e, owner, child, access), Cons(AttachChild(e), l))
  {
    var s' := Attached(s, e, owner, child, access);
    assert s'.g.owner - {e} == s.g.owner;
    assert s'.g.bs - {e} == s.g.bs;
    assert s'.pm - {e} == s.pm;
  }

  lemma FreeOneOf<V>(m: map<Edge, V>, e: Edge, rest: set<Edge>)
    ensures (m - {e}) - rest == m - (rest + {e})
  {}

  lemma WithBsBack(g: Graph, e: Edge, b: Option<Node>)
    ensures WithBs(WithBs(g, e, b), e, Bs(g, e)) == g
  {
    assert WithBs(WithBs(g, e, b), e, Bs(g, e)).bs == g.bs;
  }

  // ----- The reference ledger -----

  /** The references to `v` that are kept in the actions: a replaced child's reference to its old node. */
  function Saved(l: Actions, v: Node): nat {
    match l
    case Nil => 0
    case Cons(a, next) => Saved(next, v) + if a.ReplaceChild? && a.oldBs == Some(v) then 1 else 0
  }

  /** The counts themselves, the references that are scheduled to be dropped, and those held by users
      outside of the graph. */
  datatype Refs = Refs(refcnt: map<Node, int>, scheduled: multiset<Node>, external: map<Node, nat>)

  /** Every reference to `v` is an edge, is saved in an action, is about to be dropped, or is held from
      outside the graph. */
  ghost predicate Balanced(g: Graph, l: Actions, r: Refs, v: Node)
    requires v in r.refcnt && v in r.external
  {
    r.refcnt[v] == |Parents(g, v)| + Saved(l, v) + r.scheduled[v] + r.external[v]
  }

  ghost predicate Ledger(g: Graph, l: Actions, r: Refs) {
    && r.refcnt.Keys == g.nodes == r.external.Keys
    && (forall v :: v in r.scheduled ==> v in g.nodes)
    && (forall v {:trigger Balanced(g, l, r, v)} :: v in g.nodes ==> Balanced(g, l, r, v))
  }

  function Ref(r: Refs, b: Option<Node>): Refs
    requires b.Some? ==> b.value in r.refcnt
  {
    if b.Some? then r.(refcnt := r.refcnt[b.value := r.refcnt[b.value] + 1]) else r
  }

  /** bdrv_unref (block.c:7162-7172): its assertion is the precondition. */
  function Unref(r: Refs, b: Option<Node>): Refs
    requires b.Some? ==> b.value in r.refcnt && r.refcnt[b.value] > 0
  {
    if b.Some? then r.(refcnt := r.refcnt[b.value := r.refcnt[b.value] - 1]) else r
  }

  /** bdrv_schedule_unref (block.c:7189-7195) */
  function ScheduleUnref(r: Refs, b: Option<Node>): Refs {
    if b.Some? then r.(scheduled := r.scheduled + multiset{b.value}) else r
  }

  function One(b: Option<Node>, v: Node): int {
    if b == Some(v) then 1 else 0
  }

  lemma ParentsWithout(g: Graph, e: Edge, v: Node)
    ensures |Parents(g, v)| == |Parents(g, v) - {e}| + One(Bs(g, e), v)
  {
    if e in Parents(g, v) {
      assert Parents(g, v) == (Parents(g, v) - {e}) + {e};
    } else {
      assert Parents(g, v) == Parents(g, v) - {e};
    }
  }

  lemma ParentsMove(g: Graph, e: Edge, b: Option<Node>, v: Node)
    ensures |Parents(WithBs(g, e, b), v)| == |Parents(g, v)| - One(Bs(g, e), v) + One(b, v)
  {
    var g' := WithBs(g, e, b);
    ParentsWithout(g, e, v);
    ParentsWithout(g', e, v);
    assert Parents(g', v) - {e} == Parents(g, v) - {e};
  }

  lemma ReplaceKeepsLedger(g: Graph, l: Actions, r: Refs, e: Edge, b: Option<Node>)
    requires Ledger(g, l, r) && (b.Some? ==> b.value in g.nodes)
    ensures Ledger(WithBs(g, e, b), Cons(ReplaceChild(e, Bs(g, e)), l), Ref(r, b))
  {
    var g', l', r' := WithBs(g, e, b), Cons(ReplaceChild(e, Bs(g, e)), l), Ref(r, b);
    forall v | v in g'.nodes ensures Balanced(g', l', r', v) {
      assert Balanced(g, l, r, v);
      ParentsMove(g, e, b, v);
    }
  }

  /** A node that an edge points to has a reference to drop. */
  lemma EdgeIsCounted(g: Graph, l: Actions, r: Refs, e: Edge)
    requires Ledger(g, l, r) && WellFormed(g) && e in g.bs
    ensures r.refcnt[g.bs[e]] > 0
  {
    assert Balanced(g, l, r, g.bs[e]);
    assert e in Parents(g, g.bs[e]);
  }

  /** So has one with a scheduled reference. */
  lemma ScheduledIsCounted(g: Graph, l: Actions, r: Refs, v: Node)
    requires Ledger(g, l, r) && v in r.scheduled
    ensures v in g.nodes && r.refcnt[v] > 0
  {
    assert Balanced(g, l, r, v);
  }

  lemma UndoReplaceKeepsLedger(g: Graph, l: Actions, r: Refs)
    requires Ledger(g, l, r) && l.Cons? && l.head.ReplaceChild? && WellFormed(g)
    requires l.head.oldBs.Some? ==> l.head.oldBs.value in g.nodes
    ensures l.head.e in g.bs ==> r.refcnt[g.bs[l.head.e]] > 0
    ensures Ledger(WithBs(g, l.head.e, l.head.oldBs), l.next, Unref(r, Bs(g, l.head.e)))
  {
    var e, b := l.head.e, l.head.oldBs;
    if e in g.bs {
      EdgeIsCounted(g, l, r, e);
    }
    var g', r' := WithBs(g, e, b), Unref(r, Bs(g, e));
    forall v | v in g'.nodes ensures Balanced(g', l.next, r', v) {
      assert Balanced(g, l, r, v);
      ParentsMove(g, e, b, v);
    }
  }

  lemma AttachKeepsLedger(g: Graph, g': Graph, l: Actions, r: Refs, e: Edge, child: Node)
    requires Ledger(g, l, r) && e !in g.bs && child in g.nodes
    requires g'.nodes == g.nodes && g'.bs == g.bs[e := child]
    ensures Ledger(g', Cons(AttachChild(e), l), Ref(r, Some(child)))
  {
    var r' := Ref(r, Some(child));
    forall v | v in g'.nodes ensures Balanced(g', Cons(AttachChild(e), l), r', v) {
      assert Balanced(g, l, r, v);
      ParentsMove(g, e, Some(child), v);
      assert Parents(g', v) == Parents(WithBs(g, e, Some(child)), v);
    }
  }

  lemma UndoAttachKeepsLedger(g: Graph, l: Actions, r: Refs, pm: PermMap)
    requires Ledger(g, l, r) && l.Cons? && l.head.AttachChild? && l.head.e in g.bs && WellFormed(g)
    ensures Ledger(Freed(Block(g, pm), l.head.e).g, l.next, ScheduleUnref(r, Bs(g, l.head.e)))
  {
    var g' := Freed(Block(g, pm), l.head.e).g;
    var r' := ScheduleUnref(r, Bs(g, l.head.e));
    forall v | v in g'.nodes ensures Balanced(g', l.next, r', v) {
      assert Balanced(g, l, r, v);
      ParentsMove(g, l.head.e, None, v);
      assert Parents(g', v) == Parents(WithBs(g, l.head.e, None), v);
    }
  }

  lemma CommitReplaceKeepsLedger(g: Graph, l: Actions, r: Refs)
    requires Ledger(g, l, r) && l.Cons? && l.head.ReplaceChild?
    requires l.head.oldBs.Some? ==> l.head.oldBs.value in g.nodes
    ensures Ledger(g, l.next, ScheduleUnref(r, l.head.oldBs))
  {
    var r' := ScheduleUnref(r, l.head.oldBs);
    forall v | v in g.nodes ensures Balanced(g, l.next, r', v) {
      assert Balanced(g, l, r, v);
    }
  }

  /** Edges and actions that hold no references do not count. */
  lemma SameParentsKeepLedger(g: Graph, g': Graph, l: Actions, l': Actions, r: Refs)
    requires Ledger(g, l, r) && g'.nodes == g.nodes && g'.bs == g.bs
    requires forall v :: Saved(l', v) == Saved(l, v)
    ensures Ledger(g', l', r)
  {
    forall v | v in g.nodes ensures Balanced(g', l', r, v) {
      assert Balanced(g, l, r, v);
      assert Parents(g', v) == Parents(g, v);
    }
  }

  /** A node whose count reaches zero is used by nobody: nothing can follow a pointer to it. */
  lemma UnreferencedIsUnused(g: Graph, l: Actions, r: Refs, v: Node)
    requires Ledger(g, l, r) && v in g.nodes && r.refcnt[v] == 0
    ensures Parents(g, v) == {} && Saved(l, v) == 0 && v !in r.scheduled && r.external[v] == 0
  {
    assert Balanced(g, l, r, v);
  }

  // ----- The operations -----

  /** What holds between the operations of a transaction. */
  ghost predicate Sound(s: Block, l: Actions, r: Refs) {
    Shape(s, l) && CanAbort(s, l) && Ledger(s.g, l, r)
  }

  lemma AttachSound(s: Block, s': Block, l: Actions, r: Refs, e: Edge, owner: Option<Node>, child: Node, access: Access)
    requires Sound(s, l, r)
    requires e !in s.pm && child in s.g.nodes && (owner.Some? ==> owner.value in s.g.nodes)
    requires s' == Attached(s, e, owner, child, access)
    ensures Undone(s', Cons(AttachChild(e), l)) == Undone(s, l) && ToFree(Cons(AttachChild(e), l)) == ToFree(l)
    ensures Sound(s', Cons(AttachChild(e), l), Ref(r, Some(child)))
  {
    AttachedShape(s, l, e, owner, child, access);
    AttachKeepsLedger(s.g, s'.g, l, r, e, child);
  }

  lemma ReplaceSound(s: Block, l: Actions, r: Refs, e: Edge, b: Option<Node>)
    requires Sound(s, l, r) && e in s.pm && e !in ToFree(l) && Bs(s.g, e) != b && (b.Some? ==> b.value in s.g.nodes)
    ensures var s', l' := s.(g := WithBs(s.g, e, b)), Cons(ReplaceChild(e, Bs(s.g, e)), l);
      Undone(s', l') == Undone(s, l) && ToFree(l') == ToFree(l) && Sound(s', l', Ref(r, b))
  {
    ReplaceKeepsLedger(s.g, l, r, e, b);
    WithBsBack(s.g, e, b);
    assert Undo(s.(g := WithBs(s.g, e, b)), ReplaceChild(e, Bs(s.g, e))) == s;
  }

  lemma SetPermSound(s: Block, l: Actions, r: Refs, e: Edge, access: Access)
    requires Sound(s, l, r) && e in s.g.bs
    ensures var s', l' := s.(pm := s.pm[e := access]), Cons(SetPerm(e, s.pm[e]), l);
      Undone(s', l') == Undone(s, l) && ToFree(l') == ToFree(l) && Sound(s', l', r)
  {
    assert Undo(s.(pm := s.pm[e := access]), SetPerm(e, s.pm[e])) == s;
    SameParentsKeepLedger(s.g, s.g, l, Cons(SetPerm(e, s.pm[e]), l), r);
  }

  lemma RemoveSound(s: Block, l: Actions, r: Refs, e: Edge)
    requires Sound(s, l, r) && e in s.pm && e !in s.g.bs && e !in ToFree(l)
    ensures Sound(s, Cons(RemoveChild(e), l), r) && WithBs(s.g, e, None) == s.g
  {
    SameParentsKeepLedger(s.g, s.g, l, Cons(RemoveChild(e), l), r);
    assert s.g.bs - {e} == s.g.bs;
  }

  lemma FreeShape(s: Block, l: Actions)
    requires Shape(s, l) && l.Cons? && l.head.RemoveChild?
    ensures Shape(Freed(s, l.head.e), l.next) && Freed(s, l.head.e).g.bs == s.g.bs
    ensures Freed(s, l.head.e).g.owner - ToFree(l.next) == s.g.owner - ToFree(l)
    ensures Freed(s, l.head.e).pm - ToFree(l.next) == s.pm - ToFree(l)
  {
    assert s.g.bs - {l.head.e} == s.g.bs;
    FreeOneOf(s.g.owner, l.head.e, ToFree(l.next));
    FreeOneOf(s.pm, l.head.e, ToFree(l.next));
  }

  /** The commit callback of an action: block.c:2436-2442, 5320-5324. */
  function AfterCommit(s: Block, a: Action): Block {
    if a.RemoveChild? then Freed(s, a.e) else s
  }

  function RefsAfterCommit(r: Refs, a: Action): Refs {
    if a.ReplaceChild? then ScheduleUnref(r, a.oldBs) else r
  }

  /** Committing one action of several. */
  ghost predicate CommitsTo(s: Block, l: Actions, r: Refs, s': Block, l': Actions, r': Refs) {
    && Shape(s', l') && Ledger(s'.g, l', r')
    && s'.g.nodes == s.g.nodes && s'.g.bs == s.g.bs
    && s'.g.owner - ToFree(l') == s.g.owner - ToFree(l) && s'.pm - ToFree(l') == s.pm - ToFree(l)
    && r'.external == r.external && r'.refcnt == r.refcnt
  }

  lemma CommitKeeps(s: Block, l: Actions, r: Refs)
    requires Shape(s, l) && Ledger(s.g, l, r) && l.Cons?
    ensures CommitsTo(s, l, r, AfterCommit(s, l.head), l.next, RefsAfterCommit(r, l.head))
  {
    match l.head {
      case ReplaceChild(_, _) => CommitReplaceKeeps(s, l, r);
      case RemoveChild(_) => CommitRemoveKeeps(s, l, r);
      case SetPerm(_, _) => CommitNothing(s, l, r);
      case AttachChild(_) => CommitNothing(s, l, r);
    }
  }

  lemma CommitReplaceKeeps(s: Block, l: Actions, r: Refs)
    requires Shape(s, l) && Ledger(s.g, l, r) && l.Cons? && l.head.ReplaceChild?
    ensures CommitsTo(s, l, r, s, l.next, ScheduleUnref(r, l.head.oldBs))
  {
    assert ToFree(l) == ToFree(l.next);
    CommitReplaceKeepsLedger(s.g, l, r);
  }

  lemma CommitNothing(s: Block, l: Actions, r: Refs)
    requires Shape(s, l) && Ledger(s.g, l, r) && l.Cons? && (l.head.SetPerm? || l.head.AttachChild?)
    ensures CommitsTo(s, l, r, s, l.next, r)
  {
    assert ToFree(l) == ToFree(l.next);
    SameParentsKeepLedger(s.g, s.g, l, l.next, r);
  }

  lemma CommitRemoveKeeps(s: Block, l: Actions, r: Refs)
    requires Shape(s, l) && Ledger(s.g, l, r) && l.Cons? && l.head.RemoveChild?
    ensures CommitsTo(s, l, r, Freed(s, l.head.e), l.next, r)
  {
    FreeShape(s, l);
    SameParentsKeepLedger(s.g, Freed(s, l.head.e).g, l, l.next, r);
  }

  lemma CommitsTwice(s: Block, l: Actions, r: Refs, s': Block, l': Actions, r': Refs, s'': Block, l'': Actions,
                     r'': Refs)
    requires CommitsTo(s, l, r, s', l', r') && CommitsTo(s', l', r', s'', l'', r'')
    ensures CommitsTo(s, l, r, s'', l'', r'')
  {}

  class BlockLayer {
    var s: Block
    var log: Actions
    var refs: Refs

    ghost predicate Valid()
      reads this
    {
      Sound(s, log, refs)
    }

    /** Where an abort leads. */
    ghost function Origin(): Block
      reads this
    {
      Undone(s, log)
    }

    constructor (nodes: set<Node>, external: map<Node, nat>)
      requires external.Keys == nodes
      ensures Valid() && s == Block(Graph(nodes, map[], map[]), map[]) && log == Nil
    {
      s, log := Block(Graph(nodes, map[], map[]), map[]), Nil;
      refs := Refs(external, multiset{}, external);
      new;
      forall v | v in nodes ensures Balanced(s.g, log, refs, v) {
        assert Parents(s.g, v) == {};
      }
    }

    /** block.c:2358-2374 */
    method SetPerm(e: Edge, access: Access)
      requires Valid() && e in s.g.bs
      modifies this`s, this`log
      ensures Valid() && s == old(s).(pm := old(s.pm)[e := access]) && Origin() == old(Origin())
      ensures ToFree(log) == old(ToFree(log))
    {
      SetPermSound(s, log, refs, e, access);
      log := Cons(Action.SetPerm(e, s.pm[e]), log);
      s := s.(pm := s.pm[e := access]);
    }

    /** block.c:2490-2512 */
    method ReplaceChildTran(e: Edge, newBs: Option<Node>)
      requires Valid() && e in s.pm && e !in ToFree(log) && Bs(s.g, e) != newBs
      requires newBs.Some? ==> newBs.value in s.g.nodes
      modifies this
      ensures Valid() && s == old(s).(g := WithBs(old(s.g), e, newBs)) && Origin() == old(Origin())
      ensures refs == Ref(old(refs), newBs) && ToFree(log) == old(ToFree(log))
    {
      ReplaceSound(s, log, refs, e, newBs);
      log := Cons(ReplaceChild(e, Bs(s.g, e)), log);
      refs := Ref(refs, newBs);
      s := s.(g := WithBs(s.g, e, newBs));
    }

    /** block.c:3091-3190.  The checks of activity and AioContext are left to chance. */
    method AttachChildCommon(e: Edge, owner: Option<Node>, child: Node, access: Access) returns (ok: bool)
      requires Valid() && e !in s.pm && child in s.g.nodes && (owner.Some? ==> owner.value in s.g.nodes)
      modifies this
      ensures Valid() && Origin() == old(Origin()) && ToFree(log) == old(ToFree(log))
      ensures !ok ==> s == old(s) && log == old(log) && refs == old(refs)
      ensures ok ==> s == Attached(old(s), e, owner, child, access) && refs == Ref(old(refs), Some(child))
    {
      ok := *;
      if ok {
        Attach(e, owner, child, access);
      }
    }

    /** block.c:3159-3187 */
    method Attach(e: Edge, owner: Option<Node>, child: Node, access: Access)
      requires Valid() && e !in s.pm && child in s.g.nodes && (owner.Some? ==> owner.value in s.g.nodes)
      modifies this
      ensures Valid() && Origin() == old(Origin()) && ToFree(log) == old(ToFree(log))
      ensures s == Attached(old(s), e, owner, child, access) && refs == Ref(old(refs), Some(child))
    {
      var s' := Attached(s, e, owner, child, access);
      AttachSound(s, s', log, refs, e, owner, child, access);
      s := s';
      refs, log := Ref(refs, Some(child)), Cons(AttachChild(e), log);
    }

    /** block.c:5337-5350 */
    method RemoveChild(e: Edge)
      requires Valid() && e in s.pm && e !in ToFree(log)
      modifies this
      ensures Valid() && s == old(s).(g := WithBs(old(s.g), e, None)) && Origin() == old(Origin())
      ensures ToFree(log) == old(ToFree(log)) + {e} && refs == old(refs)
    {
      if e in s.g.bs {
        ReplaceChildTran(e, None);
      }
      RemoveSound(s, log, refs, e);
      log := Cons(Action.RemoveChild(e), log);
    }

    /** tran_abort (util/transactions.c:60-79): however far the transaction has come, every edge and
        every permission is as it was before, and no callback's assertion fails. */
    method Abort()
      requires Valid()
      modifies this
      ensures Valid() && log == Nil && s == old(Origin()) && refs.external == old(refs.external)
    {
      while log.Cons?
        invariant Valid() && Origin() == old(Origin()) && refs.external == old(refs.external)
        decreases log
      {
        AbortOne();
      }
    }

    method AbortOne()
      requires Valid() && log.Cons?
      modifies this
      ensures Valid() && log == old(log.next) && Origin() == old(Origin()) && refs.external == old(refs.external)
    {
      UndoKeepsShape(s, log);
      match log.head {
        case SetPerm(e, access) =>
          SameParentsKeepLedger(s.g, s.g, log, log.next, refs);
          s := s.(pm := s.pm[e := access]);
        case ReplaceChild(e, oldBs) =>
          UndoReplaceKeepsLedger(s.g, log, refs);
          refs := Unref(refs, Bs(s.g, e));
          s := s.(g := WithBs(s.g, e, oldBs));
        case AttachChild(e) =>
          UndoAttachKeepsLedger(s.g, log, refs, s.pm);
          refs := ScheduleUnref(refs, Bs(s.g, e));
          s := Freed(s, e);
        case RemoveChild(e) =>
          SameParentsKeepLedger(s.g, s.g, log, log.next, refs);
      }
      log := log.next;
    }

    /** tran_commit (util/transactions.c:81-99): nothing moves, the references to the replaced nodes are
        scheduled to be dropped, and the removed edges, all of them detached, are freed. */
    method Commit()
      requires Valid()
      modifies this
      ensures Valid() && log == Nil && s.g.nodes == old(s.g.nodes) && s.g.bs == old(s.g.bs)
      ensures s.g.owner == old(s.g.owner) - old(ToFree(log)) && s.pm == old(s.pm) - old(ToFree(log))
      ensures refs.external == old(refs.external) && refs.refcnt == old(refs.refcnt)
      ensures forall v :: v in s.g.nodes ==> refs.scheduled[v] == old(refs.scheduled[v] + Saved(log, v))
    {
      ghost var s0, l0, r0 := s, log, refs;
      while log.Cons?
        invariant CommitsTo(s0, l0, r0, s, log, refs)
        decreases log
      {
        ghost var s1, l1, r1 := s, log, refs;
        CommitOne();
        CommitsTwice(s0, l0, r0, s1, l1, r1, s, log, refs);
      }
      assert s.g.owner - {} == s.g.owner && s.pm - {} == s.pm;
      forall v | v in s.g.nodes ensures refs.scheduled[v] == r0.scheduled[v] + Saved(l0, v) {
        assert Balanced(s0.g, l0, r0, v) && Balanced(s.g, log, refs, v);
        assert Parents(s.g, v) == Parents(s0.g, v);
      }
    }

    method CommitOne()
      requires Shape(s, log) && Ledger(s.g, log, refs) && log.Cons?
      modifies this
      ensures CommitsTo(old(s), old(log), old(refs), s, log, refs) && log == old(log.next)
    {
      CommitKeeps(s, log, refs);
      s, refs := AfterCommit(s, log.head), RefsAfterCommit(refs, log.head);
      log := log.next;
    }

    /** bdrv_schedule_unref_bh (block.c:7174-7180): a scheduled reference is dropped. */
    method RunScheduledUnref(v: Node)
      requires Valid() && v in refs.scheduled
      modifies this`refs
      ensures Valid() && v in s.g.nodes && refs.refcnt == old(refs.refcnt)[v := old(refs.refcnt[v]) - 1]
      ensures refs.scheduled == old(refs.scheduled) - multiset{v} && refs.external == old(refs.external)
    {
      ghost var r := refs;
      ScheduledIsCounted(s.g, log, refs, v);
      refs := Unref(refs, Some(v)).(scheduled := refs.scheduled - multiset{v});
      forall x | x in s.g.nodes ensures Balanced(s.g, log, refs, x) {
        assert Balanced(s.g, log, r, x);
      }
    }
  }
}
