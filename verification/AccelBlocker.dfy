/** The ioctl blocker of accel/accel-blocker.c.

    Threads without the big lock count their ioctls in lock counters, one per CPU and one for the
    accelerator.  An inhibitor, which holds the big lock and is therefore alone, locks all counters,
    so that none can leave zero, and waits until all are zero.  One step is one operation on a counter
    or on the event.

    A lock counter is modelled by its contract: an increment waits while the counter is zero and locked. */
module AccelBlocker {

  type Counter = nat
  type Thread = nat

  /** accel_in_ioctl_lock; the other counters belong to CPUs. */
  const ACCEL: Counter := 0

  datatype Worker =
    | Idle
    | Entering(c: Counter)     // in qemu_lockcnt_inc
    | InIoctl(c: Counter)      // returned from accel_ioctl_begin or accel_cpu_ioctl_begin
    | Leaving(c: Counter)      // about to decrement
    | Setting                  // decremented, about to set the event

  datatype Inhibitor =
    | Off
    | LockCpus(todo: set<Counter>)
    | LockAccel
    | Reset                                  // about to reset the event
    | ScanCpus(todo: set<Counter>, wait: bool)
    | ScanAccel
    | Wait                                   // in qemu_event_wait
    | Inhibited                              // returned from accel_ioctl_inhibit_begin
    | UnlockAccel
    | UnlockCpus(todo: set<Counter>)

  datatype State = State(
    cpus: set<Counter>,
    count: map<Counter, nat>,
    locked: set<Counter>,
    event: bool,
    worker: map<Thread, Worker>,
    inhibitor: Inhibitor)

  function All(s: State): set<Counter> { s.cpus + {ACCEL} }

  ghost predicate Init(s: State) {
    && ACCEL !in s.cpus && s.count.Keys == All(s) && (forall c :: c in s.count ==> s.count[c] == 0)
    && s.locked == {} && !s.event && s.inhibitor == Off
    && (forall t :: t in s.worker ==> s.worker[t] == Idle)
  }

  // ----- The steps -----

  function Goto(s: State, t: Thread, w: Worker): State { s.(worker := s.worker[t := w]) }

  /** accel-blocker.c:43-85 */
  ghost predicate WorkerStep(s: State, s': State, t: Thread, c: Counter)
    requires t in s.worker
  {
    match s.worker[t]
    case Idle => c in All(s) && s' == Goto(s, t, Entering(c))
    case Entering(d) =>
      d in s.count && (s.count[d] > 0 || d !in s.locked)
      && s' == Goto(s.(count := s.count[d := s.count[d] + 1]), t, InIoctl(d))
    case InIoctl(d) => s' == Goto(s, t, Leaving(d))
    case Leaving(d) =>
      d in s.count && s.count[d] > 0 && s' == Goto(s.(count := s.count[d := s.count[d] - 1]), t, Setting)
    case Setting => s' == Goto(s.(event := true), t, Idle)
  }

  /** accel-blocker.c:87-154; `c` is the counter that a loop over the CPUs takes next. */
  ghost predicate InhibitStep(s: State, s': State, c: Counter) {
    match s.inhibitor
    case Off => s' == s.(inhibitor := LockCpus(s.cpus))
    case LockCpus(todo) =>
      if todo == {} then s' == s.(inhibitor := LockAccel)
      else c in todo && s' == s.(locked := s.locked + {c}, inhibitor := LockCpus(todo - {c}))
    case LockAccel => s' == s.(locked := s.locked + {ACCEL}, inhibitor := Reset)
    case Reset => s' == s.(event := false, inhibitor := ScanCpus(s.cpus, false))
    case ScanCpus(todo, wait) =>
      if todo == {} then s' == s.(inhibitor := if wait then Wait else ScanAccel)
      else c in todo && c in s.count && s' == s.(inhibitor := ScanCpus(todo - {c}, wait || s.count[c] > 0))
    case ScanAccel =>
      ACCEL in s.count && s' == s.(inhibitor := if s.count[ACCEL] > 0 then Wait else Inhibited)
    case Wait => s.event && s' == s.(inhibitor := Reset)
    case Inhibited => s' == s.(inhibitor := UnlockAccel)
    case UnlockAccel => s' == s.(locked := s.locked - {ACCEL}, inhibitor := UnlockCpus(s.cpus))
    case UnlockCpus(todo) =>
      if todo == {} then s' == s.(inhibitor := Off)
      else c in todo && s' == s.(locked := s.locked - {c}, inhibitor := UnlockCpus(todo - {c}))
  }

  datatype Choice = WorkerGoes(t: Thread, c: Counter) | InhibitorGoes(c: Counter)

  ghost predicate Step(s: State, s': State, ch: Choice) {
    match ch
    case WorkerGoes(t, c) => t in s.worker && WorkerStep(s, s', t, c)
    case InhibitorGoes(c) => InhibitStep(s, s', c)
  }

  ghost predicate Run(ss: seq<State>, chs: seq<Choice>) {
    && |ss| == |chs| + 1 && Init(ss[0])
    && forall i :: 0 <= i < |chs| ==> Step(ss[i], ss[i + 1], chs[i])
  }

  // ----- The invariant -----

  predicate Holds(w: Worker, c: Counter) {
    w == InIoctl(c) || w == Leaving(c)
  }

  function Holders(s: State, c: Counter): set<Thread> {
    set t | t in s.worker && Holds(s.worker[t], c)
  }

  /** A counter is the number of threads in the ioctls it counts. */
  ghost predicate Exact(s: State, c: Counter) {
    c in s.count && s.count[c] == |Holders(s, c)|
  }

  /** The counter that a thread is busy with exists. */
  ghost predicate Known(s: State, t: Thread) {
    t in s.worker && match s.worker[t] {
      case Entering(c) => c in All(s)
      case InIoctl(c) => c in All(s)
      case Leaving(c) => c in All(s)
      case _ => true
    }
  }

  ghost predicate Counted(s: State) {
    && s.count.Keys == All(s) && ACCEL !in s.cpus
    && (forall t {:trigger Known(s, t)} :: t in s.worker ==> Known(s, t))
    && (forall c {:trigger Exact(s, c)} :: c in All(s) ==> Exact(s, c))
  }

  /** Which counters the inhibitor has locked. */
  ghost predicate LocksOk(s: State) {
    match s.inhibitor
    case Off => s.locked == {}
    case LockCpus(todo) => todo <= s.cpus && s.locked == s.cpus - todo
    case LockAccel => s.locked == s.cpus
    case UnlockCpus(todo) => todo <= s.cpus && s.locked == todo
    case _ => s.locked == All(s)
  }

  ghost predicate Zero(s: State, c: Counter) {
    c in s.count && s.count[c] == 0
  }

  ghost predicate AllZero(s: State, cs: set<Counter>) {
    forall c {:trigger Zero(s, c)} :: c in cs ==> Zero(s, c)
  }

  /** What the scan has found out so far still holds. */
  ghost predicate ScanOk(s: State) {
    match s.inhibitor
    case ScanCpus(todo, wait) => todo <= s.cpus && (!wait ==> AllZero(s, s.cpus - todo))
    case ScanAccel => AllZero(s, s.cpus)
    case Inhibited => AllZero(s, All(s))
    case _ => true
  }

  /** A thread that is going to set the event. */
  predicate WillSet(w: Worker) {
    w.InIoctl? || w.Leaving? || w.Setting?
  }

  /** The event is set or some thread is going to set it. */
  ghost predicate Woken(s: State) {
    s.event || exists t :: t in s.worker && WillSet(s.worker[t])
  }

  /** An inhibitor that has decided to wait is not left alone. */
  ghost predicate WakeOk(s: State) {
    s.inhibitor == Wait || (s.inhibitor.ScanCpus? && s.inhibitor.wait) ==> Woken(s)
  }

  ghost predicate Inv(s: State) {
    Counted(s) && LocksOk(s) && ScanOk(s) && WakeOk(s)
  }

  // ----- The steps keep the invariant -----

  lemma InitInv(s: State)
    requires Init(s)
    ensures Inv(s)
  {
    forall c | c in All(s) ensures Exact(s, c) {
      assert Holders(s, c) == {};
    }
    forall t | t in s.worker ensures Known(s, t) {}
  }

  /** Counters keep track of a thread that moves. */
  lemma MoveKeepsCounted(s: State, s': State, t: Thread, w: Worker)
    requires Counted(s) && t in s.worker && s'.cpus == s.cpus && s'.worker == s.worker[t := w]
    requires s'.count.Keys == s.count.Keys && Known(s', t)
    requires forall c :: c in s.count ==>
      s'.count[c] + (if Holds(s.worker[t], c) then 1 else 0) == s.count[c] + (if Holds(w, c) then 1 else 0)
    ensures Counted(s')
  {
    forall k | k in s'.worker ensures Known(s', k) {
      assert Known(s, k);
    }
    forall c | c in All(s') ensures Exact(s', c) {
      assert Exact(s, c);
      var rest := Holders(s, c) - {t};
      assert Holders(s, c) == if Holds(s.worker[t], c) then rest + {t} else rest;
      assert Holders(s', c) == if Holds(w, c) then rest + {t} else rest;
    }
  }

  /** A counter that is zero while it is locked stays zero. */
  lemma ZeroStays(s: State, s': State, t: Thread, c: Counter, d: Counter)
    requires t in s.worker && WorkerStep(s, s', t, c) && Zero(s, d) && d in s.locked
    ensures Zero(s', d)
  {}

  lemma AllZeroStays(s: State, s': State, t: Thread, c: Counter, cs: set<Counter>)
    requires t in s.worker && WorkerStep(s, s', t, c) && AllZero(s, cs) && cs <= s.locked
    ensures AllZero(s', cs)
  {
    forall d | d in cs ensures Zero(s', d) {
      ZeroStays(s, s', t, c, d);
    }
  }

  /** Who is going to set the event goes on to do so. */
  lemma WokenStays(s: State, s': State, t: Thread, c: Counter)
    requires t in s.worker && WorkerStep(s, s', t, c) && Woken(s)
    ensures Woken(s')
  {
    if !s'.event {
      var w :| w in s.worker && WillSet(s.worker[w]);
      assert WillSet(s'.worker[w]);
    }
  }

  lemma WorkerKeepsInv(s: State, s': State, t: Thread, c: Counter)
    requires Inv(s) && t in s.worker && WorkerStep(s, s', t, c)
    ensures Inv(s')
  {
    assert Known(s, t) && Known(s', t);
    MoveKeepsCounted(s, s', t, s'.worker[t]);
    if s.inhibitor.ScanCpus? && !s.inhibitor.wait {
      AllZeroStays(s, s', t, c, s.cpus - s.inhibitor.todo);
    } else if s.inhibitor == ScanAccel {
      AllZeroStays(s, s', t, c, s.cpus);
    } else if s.inhibitor == Inhibited {
      AllZeroStays(s, s', t, c, All(s));
    }
    if Woken(s) {
      WokenStays(s, s', t, c);
    }
  }

  /** A counter that is not zero counts a thread that will set the event. */
  lemma CountedSets(s: State, c: Counter)
    requires Counted(s) && c in s.count && s.count[c] > 0
    ensures Woken(s)
  {
    assert Exact(s, c);
    var t :| t in Holders(s, c);
    assert WillSet(s.worker[t]);
  }

  lemma SameThreads(s: State, s': State)
    requires Counted(s) && s'.cpus == s.cpus && s'.worker == s.worker && s'.count == s.count
    ensures Counted(s')
  {
    forall t | t in s'.worker ensures Known(s', t) {
      assert Known(s, t);
    }
    forall c | c in All(s') ensures Exact(s', c) {
      assert Exact(s, c);
      assert Holders(s', c) == Holders(s, c);
    }
  }

  lemma LockKeeps(s: State, s': State, c: Counter)
    requires ACCEL !in s.cpus && LocksOk(s) && InhibitStep(s, s', c)
    ensures LocksOk(s')
  {
    match s.inhibitor {
      case Off => case LockCpus(_) => case LockAccel => case Reset => case ScanCpus(_, _) => case ScanAccel =>
      case Wait => case Inhibited => case UnlockAccel => case UnlockCpus(_) =>
    }
  }

  lemma ScanKeeps(s: State, s': State, c: Counter)
    requires Counted(s) && ScanOk(s) && WakeOk(s) && InhibitStep(s, s', c)
    ensures ScanOk(s') && WakeOk(s')
  {
    assert s'.count == s.count && s'.worker == s.worker && s'.cpus == s.cpus;
    forall d ensures Zero(s', d) <==> Zero(s, d) {}
    if s.inhibitor.ScanCpus? && s.inhibitor.todo != {} {
      assert Zero(s, c) <==> s.count[c] == 0;
      if s.count[c] > 0 {
        CountedSets(s, c);
      }
    } else if s.inhibitor == ScanAccel {
      assert Zero(s, ACCEL) <==> s.count[ACCEL] == 0;
      if s.count[ACCEL] > 0 {
        CountedSets(s, ACCEL);
      }
    }
    if Woken(s) && s'.event == s.event {
      assert Woken(s');
    }
  }

  lemma StepKeepsInv(s: State, s': State, ch: Choice)
    requires Inv(s) && Step(s, s', ch)
    ensures Inv(s')
  {
    match ch {
      case WorkerGoes(t, c) =>
        WorkerKeepsInv(s, s', t, c);
      case InhibitorGoes(c) =>
        SameThreads(s, s');
        LockKeeps(s, s', c);
        ScanKeeps(s, s', c);
    }
  }

  lemma {:induction false} RunInv(ss: seq<State>, chs: seq<Choice>, i: nat)
    requires Run(ss, chs) && i < |ss|
    ensures Inv(ss[i])
  {
    if i == 0 {
      InitInv(ss[0]);
    } else {
      RunInv(ss, chs, i - 1);
      StepKeepsInv(ss[i - 1], ss[i], chs[i - 1]);
    }
  }

  // ----- The theorems -----

  /** From the return of accel_ioctl_inhibit_begin to the first unlock no thread is in a counted ioctl. */
  lemma InhibitionSafety(ss: seq<State>, chs: seq<Choice>, i: nat, t: Thread)
    requires Run(ss, chs) && i < |ss| && ss[i].inhibitor == Inhibited && t in ss[i].worker
    ensures !ss[i].worker[t].InIoctl? && !ss[i].worker[t].Leaving?
  {
    RunInv(ss, chs, i);
    assert Known(ss[i], t);
    if ss[i].worker[t].InIoctl? || ss[i].worker[t].Leaving? {
      assert Zero(ss[i], ss[i].worker[t].c);
      HolderCounts(ss[i], t, ss[i].worker[t].c);
    }
  }

  lemma HolderCounts(s: State, t: Thread, c: Counter)
    requires Counted(s) && t in s.worker && Holds(s.worker[t], c) && c in All(s)
    ensures c in s.count && s.count[c] > 0
  {
    assert Exact(s, c);
    assert t in Holders(s, c);
  }

  /** An inhibitor asleep on the event is woken: as long as the event is not set, some thread is on its way
      to set it, and nothing keeps that thread from its next step. */
  lemma NoLostWakeup(ss: seq<State>, chs: seq<Choice>, i: nat)
    requires Run(ss, chs) && i < |ss| && ss[i].inhibitor == Wait && !ss[i].event
    ensures exists t, s' :: t in ss[i].worker && WillSet(ss[i].worker[t]) && WorkerStep(ss[i], s', t, ACCEL)
  {
    RunInv(ss, chs, i);
    var t :| t in ss[i].worker && WillSet(ss[i].worker[t]);
    var s' := SetterMoves(ss[i], t);
  }

  /** Steps that such a thread still has to take until the event is set. */
  function Distance(w: Worker): nat {
    match w
    case InIoctl(_) => 3
    case Leaving(_) => 2
    case Setting => 1
    case _ => 0
  }

  /** A thread on its way to set the event is never blocked, and every step brings it nearer. */
  lemma SetterMoves(s: State, t: Thread) returns (s': State)
    requires Inv(s) && t in s.worker && WillSet(s.worker[t])
    ensures WorkerStep(s, s', t, ACCEL)
    ensures s'.event || (WillSet(s'.worker[t]) && Distance(s'.worker[t]) < Distance(s.worker[t]))
  {
    match s.worker[t] {
      case InIoctl(d) =>
        s' := Goto(s, t, Leaving(d));
      case Leaving(d) =>
        assert Known(s, t);
        HolderCounts(s, t, d);
        s' := Goto(s.(count := s.count[d := s.count[d] - 1]), t, Setting);
      case Setting =>
        s' := Goto(s.(event := true), t, Idle);
    }
  }
}
