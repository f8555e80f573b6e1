/** Moving nodes to another AioContext (block.c, blockjob.c): a recursion over the edges collects the
    nodes, jobs and backends that have to move along; only when all agree does any of them move. */
module AioContext {
  import opened BlockGraph

  type Ctx = nat

  /** What has a context.  A backend has one edge, by which it is named here. */
  datatype Entity = BlockNode(v: Node) | JobUser(j: nat) | Backend(e: Edge)

  /** `bs` is the node an edge points to, `user` what the edge belongs to.  The edges in `refuses` belong
      to users that cannot move. */
  datatype Net = Net(bs: map<Edge, Node>, user: map<Edge, Entity>, refuses: set<Edge>)

  type Contexts = map<Entity, Ctx>

  predicate Touches(net: Net, e: Edge, x: Entity) {
    e in net.bs && e in net.user && (x == BlockNode(net.bs[e]) || x == net.user[e])
  }

  ghost predicate ValidNet(net: Net, ctx: Contexts) {
    && net.user.Keys == net.bs.Keys
    && (forall e :: e in net.user && net.user[e].Backend? ==> net.user[e].e == e)
    && (forall e :: e in net.refuses && e in net.user ==> net.user[e].Backend?)
    && (forall e, x :: Touches(net, e, x) ==> x in ctx)
  }

  /** A node that is where the others are to go. */
  predicate There(ctx: Contexts, to: Ctx, x: Entity) {
    x.BlockNode? && x in ctx && ctx[x] == to
  }

  // ----- What has to move -----

  ghost predicate Linked(net: Net, ignored: set<Edge>, x: Entity, y: Entity) {
    exists e :: e !in ignored && Touches(net, e, x) && Touches(net, e, y)
  }

  /** A walk over edges that are not ignored, which does not go on from a node that is there already. */
  ghost predicate Walk(net: Net, ignored: set<Edge>, ctx: Contexts, to: Ctx, p: seq<Entity>) {
    |p| > 0 && forall i :: 0 <= i < |p| - 1 ==> !There(ctx, to, p[i]) && Linked(net, ignored, p[i], p[i + 1])
  }

  ghost predicate WalkFrom(net: Net, ignored: set<Edge>, ctx: Contexts, to: Ctx, p: seq<Entity>, x: Entity, y: Entity) {
    Walk(net, ignored, ctx, to, p) && p[0] == x && p[|p| - 1] == y
  }

  /** `y` has to move when `x` moves. */
  ghost predicate Moves(net: Net, ignored: set<Edge>, ctx: Contexts, to: Ctx, x: Entity, y: Entity) {
    !There(ctx, to, y) && exists p :: WalkFrom(net, ignored, ctx, to, p, x, y)
  }

  lemma MovesSelf(net: Net, ignored: set<Edge>, ctx: Contexts, to: Ctx, x: Entity)
    requires !There(ctx, to, x)
    ensures Moves(net, ignored, ctx, to, x, x)
  {
    assert WalkFrom(net, ignored, ctx, to, [x], x, x);
  }

  lemma MovesOn(net: Net, ignored: set<Edge>, ctx: Contexts, to: Ctx, x: Entity, y: Entity, e: Edge, z: Entity)
    requires Moves(net, ignored, ctx, to, x, y) && !There(ctx, to, z)
    requires e !in ignored && Touches(net, e, y) && Touches(net, e, z)
    ensures Moves(net, ignored, ctx, to, x, z)
  {
    var p :| WalkFrom(net, ignored, ctx, to, p, x, y);
    var q := p + [z];
    assert Linked(net, ignored, y, z);
    forall i | 0 <= i < |q| - 1 ensures !There(ctx, to, q[i]) && Linked(net, ignored, q[i], q[i + 1]) {
      if i < |p| - 1 {
        assert Linked(net, ignored, p[i], p[i + 1]);
      }
    }
    assert WalkFrom(net, ignored, ctx, to, q, x, z);
  }

  /** A set that holds `x` and, with each member, all linked things that are not there holds all that
      has to move. */
  lemma {:induction false} ClosedWalk(net: Net, ignored: set<Edge>, ctx: Contexts, to: Ctx, s: seq<Entity>,
                                      p: seq<Entity>)
    requires Walk(net, ignored, ctx, to, p) && p[0] in s && !There(ctx, to, p[|p| - 1])
    requires forall x, y :: x in s && Linked(net, ignored, x, y) && !There(ctx, to, y) ==> y in s
    ensures p[|p| - 1] in s
  {
    if |p| > 1 {
      assert Linked(net, ignored, p[0], p[1]);
      var q := p[1..];
      forall i | 0 <= i < |q| - 1 ensures !There(ctx, to, q[i]) && Linked(net, ignored, q[i], q[i + 1]) {
        assert Linked(net, ignored, p[i + 1], p[i + 2]);
      }
      ClosedWalk(net, ignored, ctx, to, s, q);
    }
  }

  // ----- The recursion -----

  /** What is known between the calls.  `open` is what the calls in progress are collecting: both ends
      of a visited edge have been collected, are being collected or are there already, and what has been
      collected has all its edges visited. */
  ghost predicate Progress(net: Net, ignored: set<Edge>, ctx: Contexts, to: Ctx, visited: set<Edge>,
                           log: seq<Entity>, open: set<Entity>) {
    && ignored <= visited
    && (forall e, x :: e in visited && e !in ignored && Touches(net, e, x) ==>
          x in log || x in open || There(ctx, to, x))
    && (forall e, x :: x in log && Touches(net, e, x) ==> e in visited)
  }

  lemma Close(net: Net, ignored: set<Edge>, ctx: Contexts, to: Ctx, visited: set<Edge>, log: seq<Entity>,
              open: set<Entity>, x: Entity)
    requires Progress(net, ignored, ctx, to, visited, log, open + {x})
    requires forall e :: Touches(net, e, x) ==> e in visited
    ensures Progress(net, ignored, ctx, to, visited, [x] + log, open)
  {}

  /** The parts of the recursion that do not change. */
  datatype Task = Task(net: Net, ignored: set<Edge>, ctx: Contexts, to: Ctx, start: Entity) {
    ghost predicate Valid() {
      ValidNet(net, ctx)
    }

    ghost predicate Has(x: Entity) {
      Moves(net, ignored, ctx, to, start, x)
    }

    /** Somebody who has to move refuses. */
    ghost predicate Blocked() {
      exists e :: e in net.bs && e !in ignored && e in net.refuses && Has(BlockNode(net.bs[e]))
    }

    /** No edge that was asked and is not ignored refuses. */
    ghost predicate Agreed(visited: set<Edge>) {
      forall e :: e in visited && e !in ignored && e in net.bs ==> e !in net.refuses
    }

    ghost predicate State(visited: set<Edge>, log: seq<Entity>, open: set<Entity>) {
      && Progress(net, ignored, ctx, to, visited, log, open)
      && Agreed(visited)
      && (forall x :: x in log ==> Has(x))
    }
  }

  class Change {
    var visited: set<Edge>
    var log: seq<Entity>         // the transaction: what is to move, latest first

    constructor (ignored: set<Edge>)
      ensures visited == ignored && log == []
    {
      visited, log := ignored, [];
    }

    /** The state has grown: nothing that was collected or visited is forgotten. */
    twostate predicate Grown()
      reads this
    {
      old(visited) <= visited && forall x :: x in old(log) ==> x in log
    }

    /** block.c:7653-7688 */
    method ChangeNode(t: Task, v: Node, ghost open: set<Entity>) returns (ok: bool)
      requires t.Valid() && t.State(visited, log, open + {BlockNode(v)})
      requires !There(t.ctx, t.to, BlockNode(v)) ==> t.Has(BlockNode(v))
      requires BlockNode(v) in t.ctx
      modifies this
      ensures Grown()
      ensures ok ==> t.State(visited, log, open) && (BlockNode(v) in log || There(t.ctx, t.to, BlockNode(v)))
      ensures !ok ==> t.Blocked()
      decreases t.net.bs.Keys - visited, 3
    {
      var x := BlockNode(v);
      if t.ctx[x] == t.to {
        return true;
      }
      ghost var open' := open + {x};
      var parents := set e | e in t.net.bs && t.net.bs[e] == v;
      while parents != {}
        invariant forall e :: e in parents ==> e in t.net.bs && t.net.bs[e] == v
        invariant Grown() && t.State(visited, log, open')
        invariant forall e :: e in t.net.bs && t.net.bs[e] == v && e !in parents ==> e in visited
        decreases parents
      {
        var e :| e in parents;
        ok := ParentChange(t, e, open');
        if !ok {
          return;
        }
        parents := parents - {e};
      }
      ok := ChangeChildren(t, v, open);
      if ok {
        Close(t.net, t.ignored, t.ctx, t.to, visited, log, open, x);
        log := [x] + log;
      }
    }

    /** The second loop of block.c:7672-7676. */
    method ChangeChildren(t: Task, v: Node, ghost open: set<Entity>) returns (ok: bool)
      requires t.Valid() && t.State(visited, log, open + {BlockNode(v)}) && t.Has(BlockNode(v))
      modifies this
      ensures Grown()
      ensures ok ==> t.State(visited, log, open + {BlockNode(v)})
      ensures ok ==> forall e :: e in t.net.user && t.net.user[e] == BlockNode(v) ==> e in visited
      ensures !ok ==> t.Blocked()
      decreases t.net.bs.Keys - visited, 2
    {
      ghost var open' := open + {BlockNode(v)};
      var children := set e | e in t.net.user && t.net.user[e] == BlockNode(v);
      while children != {}
        invariant forall e :: e in children ==> e in t.net.user && t.net.user[e] == BlockNode(v)
        invariant Grown() && t.State(visited, log, open')
        invariant forall e :: e in t.net.user && t.net.user[e] == BlockNode(v) && e !in children ==> e in visited
        decreases children
      {
        var e :| e in children;
        ok := ChildChange(t, e, open');
        if !ok {
          return;
        }
        children := children - {e};
      }
      ok := true;
    }

    /** block.c:7569-7596 with the handlers of block.c:1231-1237, blockjob.c:147-171 and
        block/block-backend.c:2462-2491. */
    method ParentChange(t: Task, e: Edge, ghost open: set<Entity>) returns (ok: bool)
      requires t.Valid() && t.State(visited, log, open) && e in t.net.bs
      requires BlockNode(t.net.bs[e]) in open && t.Has(BlockNode(t.net.bs[e]))
      modifies this
      ensures Grown() && (ok ==> e in visited && t.State(visited, log, open))
      ensures !ok ==> t.Blocked()
      decreases t.net.bs.Keys - visited, 1
    {
      if e in visited {
        return true;
      }
      visited := visited + {e};
      if e in t.net.refuses {
        return false;
      }
      var x := t.net.user[e];
      assert Touches(t.net, e, x) && Touches(t.net, e, BlockNode(t.net.bs[e]));
      if !There(t.ctx, t.to, x) {
        MovesOn(t.net, t.ignored, t.ctx, t.to, t.start, BlockNode(t.net.bs[e]), e, x);
      }
      match x {
        case BlockNode(u) =>
          ok := ChangeNode(t, u, open);
        case JobUser(j) =>
          ok := ChangeJob(t, j, open);
        case Backend(_) =>
          Close(t.net, t.ignored, t.ctx, t.to, visited, log, open, x);
          log := [x] + log;
          ok := true;
      }
    }

    /** block.c:7609-7618 */
    method ChildChange(t: Task, e: Edge, ghost open: set<Entity>) returns (ok: bool)
      requires t.Valid() && t.State(visited, log, open) && e in t.net.bs
      requires t.net.user[e] in open && t.Has(t.net.user[e]) && !t.net.user[e].Backend?
      modifies this
      ensures Grown() && (ok ==> e in visited && t.State(visited, log, open))
      ensures !ok ==> t.Blocked()
      decreases t.net.bs.Keys - visited, 1
    {
      if e in visited {
        return true;
      }
      visited := visited + {e};
      var x := BlockNode(t.net.bs[e]);
      assert Touches(t.net, e, x) && Touches(t.net, e, t.net.user[e]);
      if !There(t.ctx, t.to, x) {
        MovesOn(t.net, t.ignored, t.ctx, t.to, t.start, t.net.user[e], e, x);
      }
      ok := ChangeNode(t, t.net.bs[e], open);
    }

    /** blockjob.c:147-171: all nodes of the job move with it. */
    method ChangeJob(t: Task, j: nat, ghost open: set<Entity>) returns (ok: bool)
      requires t.Valid() && t.State(visited, log, open + {JobUser(j)}) && t.Has(JobUser(j))
      modifies this
      ensures Grown() && (ok ==> t.State(visited, log, open) && JobUser(j) in log)
      ensures !ok ==> t.Blocked()
      decreases t.net.bs.Keys - visited, 2
    {
      ghost var open' := open + {JobUser(j)};
      var siblings := set e | e in t.net.user && t.net.user[e] == JobUser(j);
      while siblings != {}
        invariant forall e :: e in siblings ==> e in t.net.user && t.net.user[e] == JobUser(j)
        invariant Grown() && t.State(visited, log, open')
        invariant forall e :: e in t.net.user && t.net.user[e] == JobUser(j) && e !in siblings ==> e in visited
        decreases siblings
      {
        var e :| e in siblings;
        ok := ChildChange(t, e, open');
        if !ok {
          return;
        }
        siblings := siblings - {e};
      }
      Close(t.net, t.ignored, t.ctx, t.to, visited, log, open, JobUser(j));
      log := [JobUser(j)] + log;
      ok := true;
    }
  }

  // ----- The whole change -----

  predicate Free(net: Net, x: Entity) {
    x.Backend? ==> x.e !in net.bs
  }

  /** Exactly what has to move has moved. */
  ghost predicate Moved(t: Task, ctx': Contexts) {
    && ctx'.Keys == t.ctx.Keys
    && forall x :: x in t.ctx ==> ctx'[x] == if t.Has(x) then t.to else t.ctx[x]
  }

  lemma Collected(t: Task, visited: set<Edge>, log: seq<Entity>)
    requires t.Valid() && t.State(visited, log, {}) && (t.start in log || There(t.ctx, t.to, t.start))
    ensures forall x :: x in log <==> t.Has(x)
  {
    forall x | t.Has(x) ensures x in log {
      var p :| WalkFrom(t.net, t.ignored, t.ctx, t.to, p, t.start, x);
      assert |p| > 1 ==> !There(t.ctx, t.to, p[0]);
      ClosedWalk(t.net, t.ignored, t.ctx, t.to, log, p);
    }
  }

  /** tran_commit: block.c:7627-7636 and blockjob.c:134-140 for every action. */
  method Commit(ctx: Contexts, log: seq<Entity>, to: Ctx) returns (ctx': Contexts)
    requires forall x :: x in log ==> x in ctx
    ensures ctx'.Keys == ctx.Keys
    ensures forall x :: x in ctx ==> ctx'[x] == if x in log then to else ctx[x]
  {
    ctx' := ctx;
    for i := 0 to |log|
      invariant ctx'.Keys == ctx.Keys
      invariant forall x :: x in ctx ==> ctx'[x] == if x in log[..i] then to else ctx[x]
    {
      assert log[..i + 1] == log[..i] + [log[i]];
      ctx' := ctx'[log[i] := to];
    }
    assert log[..|log|] == log;
  }

  /** block.c:7702-7739.  Either all that has to move moves, or nobody does; and it is nobody exactly if
      a user that has to move refuses. */
  method TryChangeAioContext(net: Net, ctx: Contexts, v: Node, to: Ctx, ignored: set<Edge>)
    returns (ok: bool, ctx': Contexts)
    requires ValidNet(net, ctx) && BlockNode(v) in ctx
    ensures ok <==> !Task(net, ignored, ctx, to, BlockNode(v)).Blocked()
    ensures ok ==> Moved(Task(net, ignored, ctx, to, BlockNode(v)), ctx')
    ensures !ok ==> ctx' == ctx
  {
    ok, ctx' := TryChange(net, ctx, BlockNode(v), to, ignored);
  }

  /** The same for the user of an edge that is not attached: a backend has no other edge. */
  method TryChange(net: Net, ctx: Contexts, x: Entity, to: Ctx, ignored: set<Edge>)
    returns (ok: bool, ctx': Contexts)
    requires ValidNet(net, ctx) && x in ctx && Free(net, x)
    ensures ok <==> !Task(net, ignored, ctx, to, x).Blocked()
    ensures ok ==> Moved(Task(net, ignored, ctx, to, x), ctx')
    ensures !ok ==> ctx' == ctx
  {
    var t := Task(net, ignored, ctx, to, x);
    var c := new Change(ignored);
    if !There(ctx, to, x) {
      MovesSelf(net, ignored, ctx, to, x);
    }
    match x {
      case BlockNode(v) =>
        ok := c.ChangeNode(t, v, {});
      case JobUser(j) =>
        ok := c.ChangeJob(t, j, {});
      case Backend(_) =>
        Close(net, ignored, ctx, to, c.visited, c.log, {}, x);
        c.log := [x] + c.log;
        ok := true;
    }
    if !ok {
      return false, ctx;
    }
    Collected(t, c.visited, c.log);
    MoversKnown(t, c.log);
    ctx' := Commit(ctx, c.log, to);
    if t.Blocked() {
      var e :| e in net.bs && e !in ignored && e in net.refuses && t.Has(BlockNode(net.bs[e]));
      assert Touches(net, e, BlockNode(net.bs[e]));
    }
  }

  lemma MoversKnown(t: Task, log: seq<Entity>)
    requires t.Valid() && t.start in t.ctx && forall x :: x in log ==> t.Has(x)
    ensures forall x :: x in log ==> x in t.ctx
  {
    forall x | x in log ensures x in t.ctx {
      var p :| WalkFrom(t.net, t.ignored, t.ctx, t.to, p, t.start, x);
      if |p| > 1 {
        assert Linked(t.net, t.ignored, p[|p| - 2], p[|p| - 1]);
      }
    }
  }

  // ----- Graphs in which linked things share a context -----

  ghost predicate Uniform(net: Net, ctx: Contexts, ignored: set<Edge>) {
    forall e, x, y :: e !in ignored && Touches(net, e, x) && Touches(net, e, y) && x in ctx && y in ctx ==>
      ctx[x] == ctx[y]
  }

  ghost predicate Connected(net: Net, ignored: set<Edge>, p: seq<Entity>) {
    |p| > 0 && forall i :: 0 <= i < |p| - 1 ==> Linked(net, ignored, p[i], p[i + 1])
  }

  /** If linked things share a context, everything connected to the start has to move. */
  lemma {:induction false} ConnectedHas(t: Task, p: seq<Entity>)
    requires t.Valid() && Uniform(t.net, t.ctx, t.ignored) && t.start in t.ctx
    requires Connected(t.net, t.ignored, p) && p[0] == t.start
    ensures p[|p| - 1] in t.ctx && t.ctx[p[|p| - 1]] == t.ctx[t.start]
    ensures t.ctx[t.start] != t.to ==> t.Has(p[|p| - 1])
  {
    var n := |p| - 1;
    if n == 0 {
      if t.ctx[t.start] != t.to {
        MovesSelf(t.net, t.ignored, t.ctx, t.to, t.start);
      }
    } else {
      var q := p[..n];
      forall i | 0 <= i < |q| - 1 ensures Linked(t.net, t.ignored, q[i], q[i + 1]) {
        assert Linked(t.net, t.ignored, p[i], p[i + 1]);
      }
      ConnectedHas(t, q);
      assert Linked(t.net, t.ignored, p[n - 1], p[n]);
      var e :| e !in t.ignored && Touches(t.net, e, p[n - 1]) && Touches(t.net, e, p[n]);
      if t.ctx[t.start] != t.to {
        MovesOn(t.net, t.ignored, t.ctx, t.to, t.start, p[n - 1], e, p[n]);
      }
    }
  }

  /** Then after a change everything connected to the start has the new context, and linked things share a
      context again. */
  lemma ConnectedMoves(t: Task, ctx': Contexts, p: seq<Entity>)
    requires t.Valid() && Uniform(t.net, t.ctx, t.ignored) && Moved(t, ctx') && t.start in t.ctx
    requires Connected(t.net, t.ignored, p) && p[0] == t.start
    ensures p[|p| - 1] in t.ctx && t.ctx[p[|p| - 1]] == t.ctx[t.start] && ctx'[p[|p| - 1]] == t.to
    ensures t.ctx[t.start] != t.to ==> t.Has(p[|p| - 1])
  {
    ConnectedHas(t, p);
  }

  lemma UniformStays(t: Task, ctx': Contexts)
    requires t.Valid() && Uniform(t.net, t.ctx, t.ignored) && Moved(t, ctx')
    ensures Uniform(t.net, ctx', t.ignored)
  {
    forall e, x, y | e !in t.ignored && Touches(t.net, e, x) && Touches(t.net, e, y) && x in ctx' && y in ctx'
      ensures ctx'[x] == ctx'[y]
    {
      if t.Has(x) && t.ctx[y] != t.to {
        MovesOn(t.net, t.ignored, t.ctx, t.to, t.start, x, e, y);
      }
      if t.Has(y) && t.ctx[x] != t.to {
        MovesOn(t.net, t.ignored, t.ctx, t.to, t.start, y, e, x);
      }
    }
  }

  // ----- Attaching an edge, and undoing it -----

  /** What moved can move back, and then everything is where it was. */
  lemma MovesBack(t: Task, ctx': Contexts)
    requires t.Valid() && t.start in t.ctx && t.ctx[t.start] != t.to && Uniform(t.net, t.ctx, t.ignored)
    requires !t.Blocked() && Moved(t, ctx')
    ensures var back := Task(t.net, t.ignored, ctx', t.ctx[t.start], t.start);
      !back.Blocked() && forall ctx'' :: Moved(back, ctx'') ==> ctx'' == t.ctx
  {
    var back := Task(t.net, t.ignored, ctx', t.ctx[t.start], t.start);
    UniformStays(t, ctx');
    MovesSelf(t.net, t.ignored, t.ctx, t.to, t.start);
    forall x ensures back.Has(x) <==> t.Has(x) {
      SameMovers(t, ctx', x);
    }
    forall x | t.Has(x) ensures x in t.ctx && t.ctx[x] == t.ctx[t.start] {
      MoverContext(t, x);
    }
  }

  lemma MoverContext(t: Task, x: Entity)
    requires t.Valid() && t.start in t.ctx && Uniform(t.net, t.ctx, t.ignored) && t.Has(x)
    ensures x in t.ctx && t.ctx[x] == t.ctx[t.start]
  {
    var p :| WalkFrom(t.net, t.ignored, t.ctx, t.to, p, t.start, x);
    ConnectedHas(t, p);
  }

  lemma SameMovers(t: Task, ctx': Contexts, x: Entity)
    requires t.Valid() && t.start in t.ctx && t.ctx[t.start] != t.to && Uniform(t.net, t.ctx, t.ignored)
    requires Moved(t, ctx') && Uniform(t.net, ctx', t.ignored) && ctx'[t.start] == t.to
    ensures Task(t.net, t.ignored, ctx', t.ctx[t.start], t.start).Has(x) <==> t.Has(x)
  {
    var back := Task(t.net, t.ignored, ctx', t.ctx[t.start], t.start);
    if t.Has(x) {
      var p :| WalkFrom(t.net, t.ignored, t.ctx, t.to, p, t.start, x);
      ConnectedHas(back, p);
    }
    if back.Has(x) {
      var p :| WalkFrom(t.net, t.ignored, ctx', back.to, p, t.start, x);
      ConnectedHas(t, p);
    }
  }

  /** The parent and the child of an edge that is to be attached.  `mayMove` says whether the parent's kind of
      edge has a handler and a backend agrees. */
  datatype Attach = Attach(net: Net, parent: Entity, child: Node, mayMove: bool) {
    ghost predicate Valid(ctx: Contexts) {
      && ValidNet(net, ctx) && Uniform(net, ctx, {})
      && parent in ctx && BlockNode(child) in ctx && Free(net, parent)
    }

    function ChildMoves(ctx: Contexts): Task
      requires parent in ctx
    {
      Task(net, {}, ctx, ctx[parent], BlockNode(child))
    }

    function ParentMoves(ctx: Contexts): Task
      requires BlockNode(child) in ctx
    {
      Task(net, {}, ctx, ctx[BlockNode(child)], parent)
    }

    /** What attaching may have done to the contexts. */
    ghost predicate Matched(ctx: Contexts, ctx': Contexts)
      requires Valid(ctx)
    {
      if ctx[parent] == ctx[BlockNode(child)] then ctx' == ctx
      else if !ChildMoves(ctx).Blocked() then Moved(ChildMoves(ctx), ctx')
      else mayMove && !ParentMoves(ctx).Blocked() && Moved(ParentMoves(ctx), ctx')
    }
  }

  /** block.c:3130-3165: the child moves to the parent, or else the parent to the child. */
  method MatchContexts(a: Attach, ctx: Contexts) returns (ok: bool, ctx': Contexts)
    requires a.Valid(ctx)
    ensures ok <==> || ctx[a.parent] == ctx[BlockNode(a.child)] || !a.ChildMoves(ctx).Blocked()
                    || (a.mayMove && !a.ParentMoves(ctx).Blocked())
    ensures if ok then a.Matched(ctx, ctx') else ctx' == ctx
  {
    ok, ctx' := true, ctx;
    if ctx[BlockNode(a.child)] != ctx[a.parent] {
      ok, ctx' := TryChangeAioContext(a.net, ctx, a.child, ctx[a.parent], {});
      if !ok && a.mayMove {
        ok, ctx' := TryChange(a.net, ctx, a.parent, ctx[BlockNode(a.child)], {});
      }
    }
  }

  /** Afterwards the two ends share a context, and all else that is linked still does. */
  lemma MatchedUniform(a: Attach, ctx: Contexts, ctx': Contexts)
    requires a.Valid(ctx) && a.Matched(ctx, ctx')
    ensures a.Valid(ctx') && ctx'[a.parent] == ctx'[BlockNode(a.child)]
    ensures ctx'[a.parent] == ctx[a.parent] || ctx'[BlockNode(a.child)] == ctx[BlockNode(a.child)]
  {
    if ctx[a.parent] != ctx[BlockNode(a.child)] {
      var t := if a.ChildMoves(ctx).Blocked() then a.ParentMoves(ctx) else a.ChildMoves(ctx);
      UniformStays(t, ctx');
      MovesSelf(t.net, t.ignored, t.ctx, t.to, t.start);
      var other := if a.ChildMoves(ctx).Blocked() then BlockNode(a.child) else a.parent;
      if t.Has(other) {
        MoverContext(t, other);
      }
    }
  }

  /** block.c:3044-3066, after the edge has been detached: neither of the two moves back can fail, and
      everything is where it was before. */
  method UnmatchContexts(a: Attach, ctx': Contexts, oldParent: Ctx, oldChild: Ctx, ghost ctx: Contexts)
    returns (ctx'': Contexts)
    requires a.Valid(ctx) && a.Matched(ctx, ctx') && oldParent == ctx[a.parent] && oldChild == ctx[BlockNode(a.child)]
    ensures ctx'' == ctx
  {
    MatchedUniform(a, ctx, ctx');
    ctx'' := ctx';
    if ctx''[BlockNode(a.child)] != oldChild {
      var ok;
      MovesBack(a.ChildMoves(ctx), ctx');
      ok, ctx'' := TryChangeAioContext(a.net, ctx'', a.child, oldChild, {});
      assert ok;
    }
    if ctx''[a.parent] != oldParent {
      var ok;
      MovesBack(a.ParentMoves(ctx), ctx');
      ok, ctx'' := TryChange(a.net, ctx'', a.parent, oldParent, {});
      assert ok;
    }
  }
}
