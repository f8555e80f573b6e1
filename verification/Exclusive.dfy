/** The exclusive-section protocol of cpu-common.c.

    Every virtual CPU is one thread.  A thread is either executing guest code, between
    cpu_exec_start and cpu_exec_end, or it is outside and may ask for an exclusive section with
    start_exclusive.  The protocol is a Dekker-style handshake between the per-CPU flag `running`
    and the counter `pending`, helped by a mutex and two condition variables.

    Each constructor of `Pc` is a point between two shared-memory accesses, so one step is one
    atomic access under sequential consistency (the source's full barriers justify that order).
    Condition variables may wake up spuriously.
 */
module Exclusive {
  import opened Common

  type Cpu = nat

  datatype Pc =
    | Outside
    // start_exclusive
    | StartLock                                // about to take the list lock
    | StartIdle                                // exclusive_idle: about to test `pending`
    | StartIdleWait                            // asleep on exclusive_resume, not yet notified
    | StartIdleWoken                           // notified, about to retake the lock
    | StartSet                                 // about to set `pending` to 1
    | StartScan(todo: set<Cpu>, count: nat)    // CPU_FOREACH: CPUs still to look at, CPUs counted
    | StartCheck                               // about to test `pending > 1`
    | StartCondWait                            // asleep on exclusive_cond, not yet notified
    | StartCondWoken                           // notified, about to retake the lock
    | StartUnlock                              // about to release the lock
    | StartMark                                // about to set exclusive_context_count to 1
    // end_exclusive
    | EndLock
    | EndReset                                 // about to set `pending` to 0
    | EndBroadcast                             // about to broadcast exclusive_resume
    | EndUnlock
    // cpu_exec_start
    | ExecMark                                 // about to set `running`
    | ExecRead                                 // about to read `pending`
    | ExecLock
    | ExecCheck                                // about to test has_waiter
    | ExecIdle                                 // exclusive_idle: about to test `pending`
    | ExecIdleWait
    | ExecIdleWoken
    | ExecRemark                               // about to set `running` again
    | ExecUnlock
    | Executing                                // returned from cpu_exec_start
    // cpu_exec_end
    | ExitRead                                 // `running` cleared, about to read `pending`
    | ExitLock
    | ExitCheck                                // about to test has_waiter
    | ExitUnlock

  /** What is private to a CPU's thread, and its flag `running`, which only the thread writes;
      `depth` is exclusive_context_count. */
  datatype Thread = Thread(pc: Pc, depth: nat, running: bool)

  /** `waiters` are the CPUs whose has_waiter is set. */
  datatype State = State(pending: int, lock: Option<Cpu>, waiters: set<Cpu>, cpu: map<Cpu, Thread>)

  ghost predicate WellFormed(s: State) {
    s.waiters <= s.cpu.Keys && (s.lock.Some? ==> s.lock.value in s.cpu)
  }

  ghost predicate Init(s: State) {
    && s.pending == 0
    && s.lock == None
    && s.waiters == {}
    && (forall c :: c in s.cpu ==> s.cpu[c] == Thread(Outside, 0, false))
  }

  // ----- The steps -----

  function Goto(s: State, c: Cpu, p: Pc): State
    requires c in s.cpu
  {
    s.(cpu := s.cpu[c := s.cpu[c].(pc := p)])
  }

  /** Sets or clears `running` and moves on. */
  function Mark(s: State, c: Cpu, running: bool, p: Pc): State
    requires c in s.cpu
  {
    s.(cpu := s.cpu[c := s.cpu[c].(pc := p, running := running)])
  }

  /** Thread `c` takes the lock, which is free. */
  ghost predicate Acquire(s: State, s': State, c: Cpu, p: Pc)
    requires c in s.cpu
  {
    s.lock == None && s' == Goto(s.(lock := Some(c)), c, p)
  }

  function Release(s: State, c: Cpu, p: Pc): State
    requires c in s.cpu
  {
    Goto(s.(lock := None), c, p)
  }

  /** What qemu_cond_broadcast(&exclusive_resume) does to a thread. */
  function Resumed(t: Thread): Thread {
    if t.pc == StartIdleWait then t.(pc := StartIdleWoken)
    else if t.pc == ExecIdleWait then t.(pc := ExecIdleWoken)
    else t
  }

  /** qemu_cond_signal(&exclusive_cond): one sleeper, if there is any, is notified. */
  ghost predicate Signal(s: State, s': State) {
    if exists w :: w in s.cpu && s.cpu[w].pc == StartCondWait then
      exists w :: w in s.cpu && s.cpu[w].pc == StartCondWait && s' == Goto(s, w, StartCondWoken)
    else
      s' == s
  }

  /** The CPU_FOREACH iteration that looks at CPU `d`. */
  function Scanned(s: State, c: Cpu, d: Cpu): State
    requires c in s.cpu && d in s.cpu && s.cpu[c].pc.StartScan?
  {
    var StartScan(todo, count) := s.cpu[c].pc;
    if s.cpu[d].running
    then Goto(s.(waiters := s.waiters + {d}), c, StartScan(todo - {d}, count + 1))
    else Goto(s, c, StartScan(todo - {d}, count))
  }

  /** has_waiter cleared and `pending` decremented in cpu_exec_end. */
  function Decremented(s: State, c: Cpu): State
    requires c in s.cpu
  {
    Goto(s.(waiters := s.waiters - {c}, pending := s.pending - 1), c, ExitUnlock)
  }

  /** cpu-common.c:192-233 */
  ghost predicate StartStep(s: State, s': State, c: Cpu)
    requires c in s.cpu
  {
    match s.cpu[c].pc
    case StartLock => Acquire(s, s', c, StartIdle)
    case StartIdle => s' == if s.pending != 0 then Release(s, c, StartIdleWait) else Goto(s, c, StartSet)
    case StartIdleWait => s' == Goto(s, c, StartIdleWoken)
    case StartIdleWoken => Acquire(s, s', c, StartIdle)
    case StartSet => s' == Goto(s.(pending := 1), c, StartScan(s.cpu.Keys, 0))
    case StartScan(todo, count) =>
      if todo == {} then s' == Goto(s.(pending := count + 1), c, StartCheck)
      else exists d :: d in todo && d in s.cpu && s' == Scanned(s, c, d)
    case StartCheck => s' == if s.pending > 1 then Release(s, c, StartCondWait) else Goto(s, c, StartUnlock)
    case StartCondWait => s' == Goto(s, c, StartCondWoken)
    case StartCondWoken => Acquire(s, s', c, StartCheck)
    case StartUnlock => s' == Release(s, c, StartMark)
    case StartMark => s' == s.(cpu := s.cpu[c := s.cpu[c].(pc := Outside, depth := 1)])
    case _ => false
  }

  /** cpu-common.c:236-247 */
  ghost predicate EndStep(s: State, s': State, c: Cpu)
    requires c in s.cpu
  {
    match s.cpu[c].pc
    case EndLock => Acquire(s, s', c, EndReset)
    case EndReset => s' == Goto(s.(pending := 0), c, EndBroadcast)
    case EndBroadcast =>
      s' == s.(cpu := map d | d in s.cpu :: if d == c then s.cpu[c].(pc := EndUnlock) else Resumed(s.cpu[d]))
    case EndUnlock => s' == Release(s, c, Outside)
    case _ => false
  }

  /** cpu-common.c:250-289 */
  ghost predicate ExecStep(s: State, s': State, c: Cpu)
    requires c in s.cpu
  {
    match s.cpu[c].pc
    case ExecMark => s' == Mark(s, c, true, ExecRead)
    case ExecRead => s' == if s.pending != 0 then Goto(s, c, ExecLock) else Goto(s, c, Executing)
    case ExecLock => Acquire(s, s', c, ExecCheck)
    case ExecCheck => s' == if c in s.waiters then Goto(s, c, ExecUnlock) else Mark(s, c, false, ExecIdle)
    case ExecIdle => s' == if s.pending != 0 then Release(s, c, ExecIdleWait) else Goto(s, c, ExecRemark)
    case ExecIdleWait => s' == Goto(s, c, ExecIdleWoken)
    case ExecIdleWoken => Acquire(s, s', c, ExecIdle)
    case ExecRemark => s' == Mark(s, c, true, ExecUnlock)
    case ExecUnlock => s' == Release(s, c, Executing)
    case _ => false
  }

  /** cpu-common.c:292-325 */
  ghost predicate ExitStep(s: State, s': State, c: Cpu)
    requires c in s.cpu
  {
    match s.cpu[c].pc
    case Executing => s' == Mark(s, c, false, ExitRead)
    case ExitRead => s' == if s.pending != 0 then Goto(s, c, ExitLock) else Goto(s, c, Outside)
    case ExitLock => Acquire(s, s', c, ExitCheck)
    case ExitCheck =>
      if c in s.waiters then
        var t := Decremented(s, c);
        if t.pending == 1 then Signal(t, s') else s' == t
      else
        s' == Goto(s, c, ExitUnlock)
    case ExitUnlock => s' == Release(s, c, Outside)
    case _ => false
  }

  /** What a thread outside the protocol may call next.  A nested start_exclusive, and an
      end_exclusive that is not the outermost one, only touch the thread's own counter. */
  ghost predicate CallStep(s: State, s': State, c: Cpu)
    requires c in s.cpu
  {
    s.cpu[c].pc == Outside &&
    var n := s.cpu[c].depth;
    || s' == (if n > 0 then s.(cpu := s.cpu[c := s.cpu[c].(depth := n + 1)]) else Goto(s, c, StartLock))
    || (n > 0 && s' == s.(cpu := s.cpu[c := s.cpu[c].(depth := n - 1, pc := if n > 1 then Outside else EndLock)]))
    || s' == Goto(s, c, ExecMark)
  }

  ghost predicate ThreadStep(s: State, s': State, c: Cpu)
    requires c in s.cpu
  {
    CallStep(s, s', c) || StartStep(s, s', c) || EndStep(s, s', c) || ExecStep(s, s', c) || ExitStep(s, s', c)
  }

  ghost predicate Next(s: State, s': State) {
    exists c :: c in s.cpu && ThreadStep(s, s', c)
  }

  /** A run from an initial state in which any threads take any steps in any order. */
  ghost predicate Run(tr: seq<State>) {
    && |tr| > 0
    && Init(tr[0])
    && (forall i :: 0 < i < |tr| ==> Next(tr[i - 1], tr[i]))
  }

  // ----- What the protocol promises -----

  /** The thread is between the return from its outermost start_exclusive and the reset in
      end_exclusive. */
  predicate InExclusive(t: Thread) {
    t.depth > 0 || t.pc.StartUnlock? || t.pc.StartMark? || t.pc.EndLock? || t.pc.EndReset?
  }

  /** No CPU executes while a thread is in an exclusive section, and sections exclude each other. */
  ghost predicate Safe(s: State) {
    forall c :: c in s.cpu && InExclusive(s.cpu[c]) ==>
      && (forall d :: d in s.cpu ==> s.cpu[d].pc != Executing)
      && (forall d :: d in s.cpu && InExclusive(s.cpu[d]) ==> d == c)
  }

  /** A CPU with has_waiter set is on its way to the decrement in cpu_exec_end: none of these points
      is inside exclusive_idle. */
  predicate OnTheWay(p: Pc) {
    p.ExecRead? || p.ExecLock? || p.ExecCheck? || p.ExecUnlock? || p.Executing?
    || p.ExitRead? || p.ExitLock? || p.ExitCheck?
  }

  /** With the lock free, `pending` is 0 and nobody is counted, or it is 1 plus the counted CPUs;
      counted CPUs are on their way to the decrement; and nobody sleeps un-notified on a condition
      that already holds. */
  ghost predicate Accounted(s: State) {
    s.waiters <= s.cpu.Keys &&
    (s.lock == None ==>
       && ((s.pending == 0 && s.waiters == {}) || s.pending == 1 + |s.waiters|)
       && (forall c :: c in s.waiters ==> OnTheWay(s.cpu[c].pc))
       && (forall c :: c in s.cpu && s.cpu[c].pc == StartCondWait ==> s.pending > 1)
       && (forall c :: c in s.cpu && (s.cpu[c].pc == StartIdleWait || s.cpu[c].pc == ExecIdleWait) ==> s.pending != 0))
  }

  // ----- The inductive invariant -----

  /** The invariant of one thread, point by point: does it hold the lock; is its `running` set; may
      its has_waiter be set; has it set `pending` already; may it be inside an outer exclusive
      section. */
  datatype Point = Point(holds: bool, running: bool, countable: bool, owns: bool, nests: bool)

  function At(p: Pc): Point {
    match p
    case Outside => Point(false, false, false, false, true)
    case StartLock => Point(false, false, false, false, false)
    case StartIdle => Point(true, false, false, false, false)
    case StartIdleWait => Point(false, false, false, false, false)
    case StartIdleWoken => Point(false, false, false, false, false)
    case StartSet => Point(true, false, false, false, false)
    case StartScan(_, _) => Point(true, false, false, true, false)
    case StartCheck => Point(true, false, false, true, false)
    case StartCondWait => Point(false, false, false, true, false)
    case StartCondWoken => Point(false, false, false, true, false)
    case StartUnlock => Point(true, false, false, true, false)
    case StartMark => Point(false, false, false, true, false)
    case EndLock => Point(false, false, false, true, false)
    case EndReset => Point(true, false, false, true, false)
    case EndBroadcast => Point(true, false, false, false, false)
    case EndUnlock => Point(true, false, false, false, false)
    case ExecMark => Point(false, false, false, false, true)
    case ExecRead => Point(false, true, true, false, true)
    case ExecLock => Point(false, true, true, false, true)
    case ExecCheck => Point(true, true, true, false, true)
    case ExecIdle => Point(true, false, false, false, true)
    case ExecIdleWait => Point(false, false, false, false, true)
    case ExecIdleWoken => Point(false, false, false, false, true)
    case ExecRemark => Point(true, false, false, false, false)
    case ExecUnlock => Point(true, true, true, false, false)
    case Executing => Point(false, true, true, false, false)
    case ExitRead => Point(false, false, true, false, false)
    case ExitLock => Point(false, false, true, false, false)
    case ExitCheck => Point(true, false, true, false, false)
    case ExitUnlock => Point(true, false, false, false, false)
  }

  /** The CPUs the owner's scan has not looked at yet. */
  function Todo(p: Pc): set<Cpu> {
    if p.StartScan? then p.todo else {}
  }

  /** All that the invariant says of one thread depends on this view of it: the thread itself,
      whether it holds the lock and has has_waiter set, whether it owns `pending`, whether anybody
      does, whether the owner's scan has yet to look at it, and whether a broadcast of
      exclusive_resume is about to happen. */
  datatype View = View(t: Thread, holds: bool, counted: bool, owns: bool, owned: bool, unseen: bool, resuming: bool)

  ghost function ViewOf(s: State, owner: Option<Cpu>, c: Cpu): View
    requires WellFormed(s) && c in s.cpu
    requires owner.Some? ==> owner.value in s.cpu
  {
    View(s.cpu[c], s.lock == Some(c), c in s.waiters, owner == Some(c), owner.Some?,
         owner.Some? && c in Todo(s.cpu[owner.value].pc),
         s.lock.Some? && s.cpu[s.lock.value].pc.EndBroadcast?)
  }

  predicate Local(v: View) {
    var p := v.t.pc;
    var at := At(p);
    && v.holds == at.holds
    && v.t.running == at.running
    && (v.counted ==> at.countable && !v.unseen)
    && v.owns == (at.owns || v.t.depth > 0)
    && (v.t.depth > 0 ==> at.nests)
    && (v.owned ==> !p.StartSet? && !p.ExecRemark?)
    && (p.StartIdleWait? || p.ExecIdleWait? ==> v.owned || v.resuming)
    && (v.owned && (p.ExecUnlock? || p.Executing?) ==> v.counted || v.unseen)
  }

  /** What the invariant says of the shared counter while thread `t` owns it. */
  predicate Counter(pending: int, waiters: set<Cpu>, t: Thread) {
    && pending == 1 + (if t.pc.StartScan? then 0 else |waiters|)
    && (t.pc.StartScan? ==> t.pc.count == |waiters|)
    && (InExclusive(t) ==> pending == 1)
    && (t.pc.StartCondWait? ==> pending > 1)
  }

  ghost predicate InvWith(s: State, owner: Option<Cpu>) {
    && WellFormed(s)
    && (match owner
        case None => s.pending == 0 && s.waiters == {}
        case Some(o) => o in s.cpu && Todo(s.cpu[o].pc) <= s.cpu.Keys && Counter(s.pending, s.waiters, s.cpu[o]))
    && (forall c {:trigger Local(ViewOf(s, owner, c))} :: c in s.cpu ==> Local(ViewOf(s, owner, c)))
  }

  ghost predicate Inv(s: State) {
    exists owner :: InvWith(s, owner)
  }

  lemma InitInv(s: State)
    requires Init(s)
    ensures Inv(s)
  {
    assert InvWith(s, None);
  }

  /** `s'` differs from `s` only in what belongs to thread `c`, and `c` neither scans nor broadcasts. */
  ghost predicate OwnStep(s: State, s': State, c: Cpu)
    requires c in s.cpu
  {
    && c in s'.cpu && s'.cpu == s.cpu[c := s'.cpu[c]]
    && (s'.lock == s.lock || (s'.lock == None && s.lock == Some(c)) || (s'.lock == Some(c) && s.lock == None))
    && s'.waiters == s.waiters
    && s'.pending == s.pending
    && !s.cpu[c].pc.StartScan? && !s'.cpu[c].pc.StartScan?
    && !s.cpu[c].pc.EndBroadcast? && !s'.cpu[c].pc.EndBroadcast?
  }

  /** Such a step keeps the invariant when it keeps it for `c` and for the counter. */
  lemma Advance(s: State, s': State, c: Cpu, owner: Option<Cpu>)
    requires InvWith(s, owner) && c in s.cpu && OwnStep(s, s', c)
    requires Local(ViewOf(s, owner, c).(t := s'.cpu[c], holds := s'.lock == Some(c)))
    requires owner == Some(c) ==> Counter(s.pending, s.waiters, s'.cpu[c])
    ensures InvWith(s', owner)
  {
    forall d | d in s.cpu && d != c ensures ViewOf(s', owner, d) == ViewOf(s, owner, d) {}
  }

  lemma CallKeepsInv(s: State, s': State, c: Cpu, owner: Option<Cpu>)
    requires InvWith(s, owner) && c in s.cpu && CallStep(s, s', c)
    ensures InvWith(s', owner)
  {
    assert Local(ViewOf(s, owner, c));
    Advance(s, s', c, owner);
  }

  /** A CPU seen running is counted; one seen not running has not passed its read of `pending`. */
  lemma ScanKeepsInv(s: State, c: Cpu, d: Cpu)
    requires InvWith(s, Some(c)) && s.cpu[c].pc.StartScan? && d in s.cpu[c].pc.todo && d in s.cpu
    ensures InvWith(Scanned(s, c, d), Some(c))
  {
    var s' := Scanned(s, c, d);
    assert Local(ViewOf(s, Some(c), c));
    assert Local(ViewOf(s, Some(c), d));
    forall e | e in s.cpu ensures Local(ViewOf(s', Some(c), e)) {
      assert Local(ViewOf(s, Some(c), e));
      if e != c && e != d {
        assert ViewOf(s', Some(c), e) == ViewOf(s, Some(c), e);
      }
    }
  }

  /** Setting `pending` to 1 makes the thread the owner; every CPU is still to be looked at. */
  lemma SetKeepsInv(s: State, s': State, c: Cpu, owner: Option<Cpu>)
    requires InvWith(s, owner) && c in s.cpu && s.cpu[c].pc.StartSet? && StartStep(s, s', c)
    ensures InvWith(s', Some(c))
  {
    assert Local(ViewOf(s, owner, c)) && owner == None;
    forall e | e in s.cpu ensures Local(ViewOf(s', Some(c), e)) {
      assert Local(ViewOf(s, owner, e));
      assert e != c ==> ViewOf(s', Some(c), e) == ViewOf(s, owner, e).(owned := true, unseen := true);
    }
  }

  /** The end of the scan: `pending` becomes 1 plus the number of CPUs counted. */
  lemma CountKeepsInv(s: State, s': State, c: Cpu, owner: Option<Cpu>)
    requires InvWith(s, owner) && c in s.cpu && StartStep(s, s', c)
    requires s.cpu[c].pc.StartScan? && s.cpu[c].pc.todo == {}
    ensures InvWith(s', owner)
  {
    assert Local(ViewOf(s, owner, c));
    forall e | e in s.cpu ensures Local(ViewOf(s', owner, e)) {
      assert Local(ViewOf(s, owner, e));
      assert e != c ==> ViewOf(s', owner, e) == ViewOf(s, owner, e);
    }
  }

  lemma StartKeepsInv(s: State, s': State, c: Cpu, owner: Option<Cpu>)
    requires InvWith(s, owner) && c in s.cpu && StartStep(s, s', c)
    requires !s.cpu[c].pc.StartScan? && !s.cpu[c].pc.StartSet? && !s.cpu[c].pc.StartIdle? && !s.cpu[c].pc.StartCheck?
    ensures InvWith(s', owner)
  {
    assert Local(ViewOf(s, owner, c));
    Advance(s, s', c, owner);
  }

  /** The loop tests of exclusive_idle and start_exclusive. */
  lemma StartTestKeepsInv(s: State, s': State, c: Cpu, owner: Option<Cpu>)
    requires InvWith(s, owner) && c in s.cpu && StartStep(s, s', c)
    requires s.cpu[c].pc.StartIdle? || s.cpu[c].pc.StartCheck?
    ensures InvWith(s', owner)
  {
    assert Local(ViewOf(s, owner, c));
    Advance(s, s', c, owner);
  }

  lemma ResetKeepsInv(s: State, s': State, c: Cpu, owner: Option<Cpu>)
    requires InvWith(s, owner) && c in s.cpu && s.cpu[c].pc.EndReset? && EndStep(s, s', c)
    ensures InvWith(s', None)
  {
    assert Local(ViewOf(s, owner, c)) && owner == Some(c);
    forall e | e in s.cpu ensures Local(ViewOf(s', None, e)) {
      assert Local(ViewOf(s, owner, e));
      assert e != c ==> ViewOf(s', None, e) == ViewOf(s, owner, e).(owned := false, unseen := false, resuming := true);
    }
  }

  /** A broadcast changes nothing the invariant says of a thread that is not asleep. */
  lemma ResumedLocal(v: View)
    requires Local(v)
    ensures Local(v.(t := Resumed(v.t), resuming := false))
  {
  }

  lemma BroadcastKeepsInv(s: State, s': State, c: Cpu, owner: Option<Cpu>)
    requires InvWith(s, owner) && c in s.cpu && s.cpu[c].pc.EndBroadcast? && EndStep(s, s', c)
    ensures InvWith(s', owner)
  {
    assert Local(ViewOf(s, owner, c));
    assert s'.cpu.Keys == s.cpu.Keys;
    assert owner.Some? ==> Todo(s'.cpu[owner.value].pc) == Todo(s.cpu[owner.value].pc);
    assert owner.Some? ==> Counter(s'.pending, s'.waiters, s'.cpu[owner.value]);
    forall e | e in s.cpu ensures Local(ViewOf(s', owner, e)) {
      BroadcastKeepsLocal(s, s', c, owner, e);
    }
  }

  lemma BroadcastKeepsLocal(s: State, s': State, c: Cpu, owner: Option<Cpu>, e: Cpu)
    requires InvWith(s, owner) && c in s.cpu && s.cpu[c].pc.EndBroadcast? && EndStep(s, s', c) && e in s.cpu
    ensures WellFormed(s') && Local(ViewOf(s', owner, e))
  {
    assert Local(ViewOf(s, owner, c));
    assert Local(ViewOf(s, owner, e));
    assert s'.cpu.Keys == s.cpu.Keys;
    if e != c {
      assert ViewOf(s', owner, e) == ViewOf(s, owner, e).(t := Resumed(s.cpu[e]), resuming := false);
      ResumedLocal(ViewOf(s, owner, e));
    }
  }

  lemma EndKeepsInv(s: State, s': State, c: Cpu, owner: Option<Cpu>)
    requires InvWith(s, owner) && c in s.cpu && EndStep(s, s', c)
    requires !s.cpu[c].pc.EndReset? && !s.cpu[c].pc.EndBroadcast?
    ensures InvWith(s', owner)
  {
    assert Local(ViewOf(s, owner, c));
    Advance(s, s', c, owner);
  }

  lemma ExecKeepsInv(s: State, s': State, c: Cpu, owner: Option<Cpu>)
    requires InvWith(s, owner) && c in s.cpu && ExecStep(s, s', c)
    requires s.cpu[c].pc.ExecIdleWait? || s.cpu[c].pc.ExecUnlock?
    ensures InvWith(s', owner)
  {
    assert Local(ViewOf(s, owner, c));
    Advance(s, s', c, owner);
  }

  /** The points of cpu_exec_start that take the lock. */
  lemma ExecLockKeepsInv(s: State, s': State, c: Cpu, owner: Option<Cpu>)
    requires InvWith(s, owner) && c in s.cpu && ExecStep(s, s', c)
    requires s.cpu[c].pc.ExecLock? || s.cpu[c].pc.ExecIdleWoken?
    ensures InvWith(s', owner)
  {
    assert Local(ViewOf(s, owner, c));
    Advance(s, s', c, owner);
  }

  /** The points of cpu_exec_start that set `running`. */
  lemma ExecMarkKeepsInv(s: State, s': State, c: Cpu, owner: Option<Cpu>)
    requires InvWith(s, owner) && c in s.cpu && ExecStep(s, s', c)
    requires s.cpu[c].pc.ExecMark? || s.cpu[c].pc.ExecRemark?
    ensures InvWith(s', owner)
  {
    assert Local(ViewOf(s, owner, c));
    Advance(s, s', c, owner);
  }

  /** The points of cpu_exec_start that test `pending`. */
  lemma ExecTestKeepsInv(s: State, s': State, c: Cpu, owner: Option<Cpu>)
    requires InvWith(s, owner) && c in s.cpu && ExecStep(s, s', c)
    requires s.cpu[c].pc.ExecIdle? || s.cpu[c].pc.ExecRead?
    ensures InvWith(s', owner)
  {
    assert Local(ViewOf(s, owner, c));
    Advance(s, s', c, owner);
  }

  /** A CPU that is counted goes on; one that is not gives way. */
  lemma ExecCheckKeepsInv(s: State, s': State, c: Cpu, owner: Option<Cpu>)
    requires InvWith(s, owner) && c in s.cpu && ExecStep(s, s', c) && s.cpu[c].pc.ExecCheck?
    ensures InvWith(s', owner)
  {
    assert Local(ViewOf(s, owner, c));
    Advance(s, s', c, owner);
  }

  /** The last decrement finds the owner asleep on exclusive_cond, and wakes it, or already notified. */
  lemma LastDecrementWakesOwner(s: State, s': State, c: Cpu, o: Cpu)
    requires InvWith(s, Some(o)) && c in s.cpu && s.cpu[c].pc.ExitCheck? && c in s.waiters && ExitStep(s, s', c)
    ensures o != c && s' == if s.pending == 2 && s.cpu[o].pc == StartCondWait
                            then Goto(Decremented(s, c), o, StartCondWoken)
                            else Decremented(s, c)
  {
    assert Local(ViewOf(s, Some(o), c));
    assert Local(ViewOf(s, Some(o), o));
    forall w | w in s.cpu && s.cpu[w].pc == StartCondWait ensures w == o {
      assert Local(ViewOf(s, Some(o), w));
    }
  }

  lemma DecrementKeepsCounter(s: State, s': State, c: Cpu, o: Cpu)
    requires InvWith(s, Some(o)) && c in s.cpu && s.cpu[c].pc.ExitCheck? && c in s.waiters && ExitStep(s, s', c)
    ensures o in s'.cpu && Todo(s'.cpu[o].pc) == {} && Counter(s'.pending, s'.waiters, s'.cpu[o])
  {
    LastDecrementWakesOwner(s, s', c, o);
    assert Local(ViewOf(s, Some(o), c));
    assert Local(ViewOf(s, Some(o), o));
  }

  /** The state after the decrement: the owner is notified if it sleeps and is not to wait any longer. */
  function AfterDecrement(s: State, c: Cpu, o: Cpu): State
    requires c in s.cpu && o in s.cpu
  {
    if s.pending == 2 && s.cpu[o].pc == StartCondWait then Goto(Decremented(s, c), o, StartCondWoken)
    else Decremented(s, c)
  }

  lemma DecrementView(s: State, c: Cpu, o: Cpu, e: Cpu)
    requires InvWith(s, Some(o)) && c in s.cpu && o != c && s.cpu[c].pc.ExitCheck? && c in s.waiters && e in s.cpu
    ensures var s' := AfterDecrement(s, c, o);
      && WellFormed(s') && o in s'.cpu && e in s'.cpu
      && ViewOf(s', Some(o), e) == ViewOf(s, Some(o), e).(t := s'.cpu[e], counted := e in s'.waiters)
  {
    assert Local(ViewOf(s, Some(o), o));
    assert Local(ViewOf(s, Some(o), c));
  }

  lemma DecrementKeepsLocal(s: State, c: Cpu, o: Cpu, e: Cpu)
    requires InvWith(s, Some(o)) && c in s.cpu && o != c && s.cpu[c].pc.ExitCheck? && c in s.waiters && e in s.cpu
    ensures var s' := AfterDecrement(s, c, o);
      WellFormed(s') && o in s'.cpu && e in s'.cpu && Local(ViewOf(s', Some(o), e))
  {
    assert Local(ViewOf(s, Some(o), e));
    DecrementView(s, c, o, e);
  }

  lemma DecrementKeepsInv(s: State, s': State, c: Cpu, o: Cpu)
    requires InvWith(s, Some(o)) && c in s.cpu && s.cpu[c].pc.ExitCheck? && c in s.waiters && ExitStep(s, s', c)
    ensures InvWith(s', Some(o))
  {
    LastDecrementWakesOwner(s, s', c, o);
    DecrementKeepsCounter(s, s', c, o);
    assert s' == AfterDecrement(s, c, o);
    forall e | e in s'.cpu ensures Local(ViewOf(s', Some(o), e)) {
      DecrementKeepsLocal(s, c, o, e);
    }
  }

  lemma ExitKeepsInv(s: State, s': State, c: Cpu, owner: Option<Cpu>)
    requires InvWith(s, owner) && c in s.cpu && ExitStep(s, s', c)
    requires s.cpu[c].pc.Executing? || s.cpu[c].pc.ExitRead?
    ensures InvWith(s', owner)
  {
    assert Local(ViewOf(s, owner, c));
    Advance(s, s', c, owner);
  }

  /** The points of cpu_exec_end with the lock, when the CPU is not counted. */
  lemma ExitLockedKeepsInv(s: State, s': State, c: Cpu, owner: Option<Cpu>)
    requires InvWith(s, owner) && c in s.cpu && ExitStep(s, s', c)
    requires s.cpu[c].pc.ExitLock? || s.cpu[c].pc.ExitUnlock? || (s.cpu[c].pc.ExitCheck? && c !in s.waiters)
    ensures InvWith(s', owner)
  {
    assert Local(ViewOf(s, owner, c));
    Advance(s, s', c, owner);
  }

  lemma StepKeepsInv(s: State, s': State)
    requires Inv(s) && Next(s, s')
    ensures Inv(s')
  {
    var owner :| InvWith(s, owner);
    var c :| c in s.cpu && ThreadStep(s, s', c);
    var p := s.cpu[c].pc;
    if CallStep(s, s', c) {
      CallKeepsInv(s, s', c, owner);
    } else if StartStep(s, s', c) {
      if p.StartSet? {
        SetKeepsInv(s, s', c, owner);
      } else if p.StartScan? && p.todo != {} {
        assert Local(ViewOf(s, owner, c));
        var d :| d in p.todo && d in s.cpu && s' == Scanned(s, c, d);
        ScanKeepsInv(s, c, d);
      } else if p.StartScan? {
        CountKeepsInv(s, s', c, owner);
      } else if p.StartIdle? || p.StartCheck? {
        StartTestKeepsInv(s, s', c, owner);
      } else {
        StartKeepsInv(s, s', c, owner);
      }
    } else if EndStep(s, s', c) {
      if p.EndReset? {
        ResetKeepsInv(s, s', c, owner);
      } else if p.EndBroadcast? {
        BroadcastKeepsInv(s, s', c, owner);
      } else {
        EndKeepsInv(s, s', c, owner);
      }
    } else if ExecStep(s, s', c) {
      if p.ExecIdle? || p.ExecRead? {
        ExecTestKeepsInv(s, s', c, owner);
      } else if p.ExecCheck? {
        ExecCheckKeepsInv(s, s', c, owner);
      } else if p.ExecLock? || p.ExecIdleWoken? {
        ExecLockKeepsInv(s, s', c, owner);
      } else if p.ExecMark? || p.ExecRemark? {
        ExecMarkKeepsInv(s, s', c, owner);
      } else {
        ExecKeepsInv(s, s', c, owner);
      }
    } else if p.ExitCheck? && c in s.waiters {
      DecrementKeepsInv(s, s', c, owner.value);
    } else if p.Executing? || p.ExitRead? {
      ExitKeepsInv(s, s', c, owner);
    } else {
      ExitLockedKeepsInv(s, s', c, owner);
    }
  }

  lemma {:induction false} RunInv(tr: seq<State>)
    requires Run(tr)
    ensures Inv(tr[|tr| - 1])
  {
    var n := |tr| - 1;
    if n == 0 {
      InitInv(tr[0]);
    } else {
      RunInv(tr[..n]);
      assert tr[..n][n - 1] == tr[n - 1];
      StepKeepsInv(tr[n - 1], tr[n]);
    }
  }

  // ----- The theorems -----

  lemma InvSafe(s: State)
    requires Inv(s)
    ensures Safe(s)
  {
    var owner :| InvWith(s, owner);
    forall c, d | c in s.cpu && InExclusive(s.cpu[c]) && d in s.cpu
      ensures s.cpu[d].pc != Executing && (InExclusive(s.cpu[d]) ==> d == c)
    {
      assert Local(ViewOf(s, owner, c));
      assert Local(ViewOf(s, owner, d));
      assert s.waiters == {};
    }
  }

  lemma InvAccounted(s: State)
    requires Inv(s)
    ensures Accounted(s)
  {
    var owner :| InvWith(s, owner);
    if owner.Some? {
      assert Local(ViewOf(s, owner, owner.value));
    }
    forall c | c in s.cpu
      ensures c in s.waiters ==> OnTheWay(s.cpu[c].pc)
      ensures s.cpu[c].pc == StartCondWait ==> s.pending > 1
      ensures s.lock == None && (s.cpu[c].pc == StartIdleWait || s.cpu[c].pc == ExecIdleWait) ==> s.pending != 0
    {
      assert Local(ViewOf(s, owner, c));
    }
  }

  /** Exclusive safety, in every state of every interleaving over any number of CPUs. */
  lemma ExclusiveSafety(tr: seq<State>, i: nat)
    requires Run(tr) && i < |tr|
    ensures Safe(tr[i])
  {
    RunInv(tr[..i + 1]);
    InvSafe(tr[i]);
  }

  /** The accounting of `pending` is exact whenever the lock is free, and no wake-up is lost. */
  lemma ExclusiveAccounting(tr: seq<State>, i: nat)
    requires Run(tr) && i < |tr|
    ensures Accounted(tr[i])
  {
    RunInv(tr[..i + 1]);
    InvAccounted(tr[i]);
  }

  // ----- Counted CPUs reach the decrement -----

  /** How many of its own steps a counted CPU is away from the decrement. */
  function Rank(p: Pc): nat {
    match p
    case ExecRead => 8
    case ExecLock => 7
    case ExecCheck => 6
    case ExecUnlock => 5
    case Executing => 4
    case ExitRead => 3
    case ExitLock => 2
    case ExitCheck => 1
    case _ => 0
  }

  /** Every step of a counted CPU brings it closer to the decrement, which is how it stops being
      counted. */
  lemma CountedProgress(s: State, s': State, c: Cpu)
    requires Inv(s) && c in s.waiters && c in s.cpu && ThreadStep(s, s', c)
    ensures c in s'.cpu
    ensures c in s'.waiters ==> Rank(s'.cpu[c].pc) < Rank(s.cpu[c].pc)
    ensures c !in s'.waiters ==> s.cpu[c].pc == ExitCheck && s'.pending == s.pending - 1
  {
    var owner :| InvWith(s, owner);
    assert Local(ViewOf(s, owner, c));
  }

  /** What a step of thread `d` does to another: nothing, or it notifies one that sleeps; and it uncounts
      none but its own CPU. */
  ghost predicate OnlyNotifies(s: State, s': State, d: Cpu, c: Cpu)
    requires c in s.cpu
  {
    && c in s'.cpu && (c in s.waiters ==> c in s'.waiters)
    && (s'.cpu[c] == s.cpu[c] || s.cpu[c].pc.StartIdleWait? || s.cpu[c].pc.ExecIdleWait? || s.cpu[c].pc.StartCondWait?)
  }

  lemma StartOnlyNotifies(s: State, s': State, d: Cpu, c: Cpu)
    requires d in s.cpu && c in s.cpu && d != c && StartStep(s, s', d)
    ensures OnlyNotifies(s, s', d, c)
  {
    if s.cpu[d].pc.StartScan? && s.cpu[d].pc.todo != {} {
      var e :| e in s.cpu[d].pc.todo && e in s.cpu && s' == Scanned(s, d, e);
    }
  }

  lemma ExitOnlyNotifies(s: State, s': State, d: Cpu, c: Cpu)
    requires d in s.cpu && c in s.cpu && d != c && ExitStep(s, s', d)
    ensures OnlyNotifies(s, s', d, c)
  {}

  lemma OtherOnlyNotifies(s: State, s': State, d: Cpu, c: Cpu)
    requires d in s.cpu && c in s.cpu && d != c && (CallStep(s, s', d) || EndStep(s, s', d) || ExecStep(s, s', d))
    ensures OnlyNotifies(s, s', d, c)
  {}

  /** No step of another thread moves a counted CPU or uncounts it. */
  lemma CountedStays(s: State, s': State, c: Cpu, d: Cpu)
    requires Inv(s) && c in s.waiters && d in s.cpu && d != c && ThreadStep(s, s', d)
    ensures c in s'.waiters && c in s'.cpu && s'.cpu[c] == s.cpu[c]
  {
    var owner :| InvWith(s, owner);
    assert Local(ViewOf(s, owner, c));
    if StartStep(s, s', d) {
      StartOnlyNotifies(s, s', d, c);
    } else if ExitStep(s, s', d) {
      ExitOnlyNotifies(s, s', d, c);
    } else {
      OtherOnlyNotifies(s, s', d, c);
    }
  }

  /** A thread that holds the lock can take its next step. */
  lemma HolderSteps(s: State, owner: Option<Cpu>, h: Cpu) returns (s': State)
    requires InvWith(s, owner) && s.lock == Some(h)
    ensures ThreadStep(s, s', h)
  {
    assert Local(ViewOf(s, owner, h));
    match s.cpu[h].pc
    case StartIdle => s' := if s.pending != 0 then Release(s, h, StartIdleWait) else Goto(s, h, StartSet);
    case StartSet => s' := Goto(s.(pending := 1), h, StartScan(s.cpu.Keys, 0));
    case StartScan(todo, count) =>
      if todo == {} {
        s' := Goto(s.(pending := count + 1), h, StartCheck);
      } else {
        var d :| d in todo;
        s' := Scanned(s, h, d);
      }
    case StartCheck => s' := if s.pending > 1 then Release(s, h, StartCondWait) else Goto(s, h, StartUnlock);
    case StartUnlock => s' := Release(s, h, StartMark);
    case EndReset => s' := Goto(s.(pending := 0), h, EndBroadcast);
    case EndBroadcast =>
      s' := s.(cpu := map d | d in s.cpu :: if d == h then s.cpu[h].(pc := EndUnlock) else Resumed(s.cpu[d]));
    case EndUnlock => s' := Release(s, h, Outside);
    case ExecCheck => s' := if h in s.waiters then Goto(s, h, ExecUnlock) else Mark(s, h, false, ExecIdle);
    case ExecIdle => s' := if s.pending != 0 then Release(s, h, ExecIdleWait) else Goto(s, h, ExecRemark);
    case ExecRemark => s' := Mark(s, h, true, ExecUnlock);
    case ExecUnlock => s' := Release(s, h, Executing);
    case ExitCheck =>
      if h in s.waiters {
        s' := Decremented(s, h);
        if s'.pending == 1 && exists w :: w in s'.cpu && s'.cpu[w].pc == StartCondWait {
          var w :| w in s'.cpu && s'.cpu[w].pc == StartCondWait;
          s' := Goto(s', w, StartCondWoken);
        }
      } else {
        s' := Goto(s, h, ExitUnlock);
      }
    case ExitUnlock => s' := Release(s, h, Outside);
  }

  /** A counted CPU is only ever held up by the lock, and the holder of the lock never is. */
  lemma CountedEnabled(s: State, c: Cpu)
    requires Inv(s) && c in s.waiters
    ensures s.lock == None ==> c in s.cpu && exists s' :: ThreadStep(s, s', c)
    ensures s.lock.Some? ==> s.lock.value in s.cpu && exists s' :: ThreadStep(s, s', s.lock.value)
  {
    var owner :| InvWith(s, owner);
    if s.lock.Some? {
      var s' := HolderSteps(s, owner, s.lock.value);
    } else {
      assert Local(ViewOf(s, owner, c));
      var s': State;
      match s.cpu[c].pc {
        case ExecRead => s' := Goto(s, c, ExecLock);
        case ExecLock => s' := Goto(s.(lock := Some(c)), c, ExecCheck);
        case Executing => s' := Mark(s, c, false, ExitRead);
        case ExitRead => s' := Goto(s, c, ExitLock);
        case ExitLock => s' := Goto(s.(lock := Some(c)), c, ExitCheck);
      }
      assert ThreadStep(s, s', c);
    }
  }
}
