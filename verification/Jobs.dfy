/** The completion of jobs in a transaction (job.c): a group of started jobs commits together or, once
    one of them fails or is cancelled by force, aborts together. */
module Jobs {
  import opened Common

  type Id = nat

  datatype Status =
    Undefined | Created | Running | Paused | Ready | Standby | Waiting | Pending | Aborting | Concluded | Null

  /** JobSTT (job.c:59-72) */
  predicate Allowed(s0: Status, s1: Status) {
    match s0
    case Undefined => s1 == Created
    case Created => (s1.Running? || s1.Aborting? || s1.Null?)
    case Running => (s1.Paused? || s1.Ready? || s1.Waiting? || s1.Aborting?)
    case Paused => s1 == Running
    case Ready => (s1.Standby? || s1.Waiting? || s1.Aborting?)
    case Standby => s1 == Ready
    case Waiting => (s1.Pending? || s1.Aborting?)
    case Pending => (s1.Aborting? || s1.Concluded?)
    case Aborting => (s1.Aborting? || s1.Concluded?)
    case Concluded => s1 == Null
    case Null => false
  }

  datatype Verb = Cancel | Finalize | Dismiss | Pause | Resume

  /** The rows of JobVerbTable (job.c:74-84) that are used here. */
  predicate Accepts(v: Verb, s: Status) {
    match v
    case Cancel => (s.Created? || s.Running? || s.Paused? || s.Ready? || s.Standby? || s.Waiting? || s.Pending?)
    case Finalize => s == Pending
    case Dismiss => s == Concluded
    case Pause => (s.Created? || s.Running? || s.Paused? || s.Ready? || s.Standby?)
    case Resume => (s.Created? || s.Running? || s.Paused? || s.Ready? || s.Standby?)
  }

  /** job_is_completed_locked (job.c:306-326) */
  predicate Completed(s: Status) {
    (s.Waiting? || s.Pending? || s.Aborting? || s.Concluded? || s.Null?)
  }

  predicate Live(s: Status) {
    (s.Running? || s.Paused? || s.Ready? || s.Standby?)
  }

  const ECANCELED := 125

  /** Which of the final callbacks has been called. */
  datatype Verdict = Open | Committed | Aborted

  /** A started job.  `exiting` says that job_exit is scheduled; `borrowed` counts the references besides
      the one that is dropped on dismissal.  `runRet`, `everPending` and `verdict` record what happened. */
  datatype Job = Job(
    status: Status, ret: int, cancelled: bool, force: bool, deferred: bool, exiting: bool, inTxn: bool,
    autoFinalize: bool, autoDismiss: bool, refcnt: int, borrowed: int,
    runRet: Option<int>, everPending: bool, verdict: Verdict)

  /** What holds of every job between the atomic steps of the code. */
  predicate Sane(j: Job) {
    && (Live(j.status) || Completed(j.status))
    && (j.force ==> j.cancelled)
    && (j.exiting <==> Live(j.status) && j.deferred)
    && (Completed(j.status) ==> j.deferred)
    && (Live(j.status) && j.deferred ==> (j.status.Running? || j.status.Ready?))
    && (Live(j.status) && !j.deferred ==> j.ret == 0)
    && (Live(j.status) && j.deferred ==> j.runRet == Some(j.ret))
    && (j.status == Pending ==> j.everPending)
    && (j.inTxn ==> !(j.status.Concluded? || j.status.Null?))
    && j.borrowed >= 0 && j.refcnt == j.borrowed + if j.status == Null then 0 else 1
  }

  /** A job after job_create and job_start (job.c:391-456, 1121-1135). */
  function Started(manual: set<Id>, keep: set<Id>, m: Id): Job {
    Job(Running, 0, false, false, false, false, true, m !in manual, m !in keep, 1, 0, None, false, Open)
  }

  // ----- Operations on one job -----

  /** job_state_transition_locked (job.c:208-221): its assertion is the precondition. */
  function Transition(j: Job, s: Status): Job
    requires Allowed(j.status, s)
  {
    j.(status := s, everPending := j.everPending || s == Pending)
  }

  function Ref(j: Job): Job {
    j.(refcnt := j.refcnt + 1, borrowed := j.borrowed + 1)
  }

  /** job_unref_locked (job.c:463-485): its assertions on the last reference are the precondition. */
  function Unref(j: Job): Job
    requires j.refcnt == 1 ==> j.status == Null && !j.inTxn
  {
    j.(refcnt := j.refcnt - 1, borrowed := j.borrowed - 1)
  }

  /** job_do_dismiss_locked (job.c:761-772) */
  function Dismissed(j: Job): Job
    requires Allowed(j.status, Null)
  {
    Transition(j.(deferred := true, exiting := false, inTxn := false), Null).(refcnt := j.refcnt - 1)
  }

  /** job_update_rc_locked (job.c:804-815) */
  function UpdateRc(j: Job): Job
    requires j.force ==> j.cancelled
    requires j.ret != 0 || j.force ==> Allowed(j.status, Aborting)
  {
    var j' := if j.ret == 0 && j.force then j.(ret := -ECANCELED) else j;
    if j'.ret != 0 then Transition(j', Aborting) else j'
  }

  /** job_finalize_single_locked (job.c:846-883) with job_conclude_locked (job.c:795-801) */
  function Finalized(j: Job): Job
    requires Sane(j) && j.inTxn && Completed(j.status) && j.verdict == Open
    requires j.status == Waiting ==> j.ret != 0 || j.force
  {
    var u := UpdateRc(j);
    var c := Transition(u.(verdict := if u.ret == 0 then Committed else Aborted, inTxn := false), Concluded);
    if c.autoDismiss then Dismissed(c) else c
  }

  /** job_cancel_async_locked (job.c:888-924) without the pause.  `force` is what the driver made of it. */
  function CancelAsync(j: Job, force: bool): Job {
    if force || !j.deferred then j.(cancelled := true, force := j.force || force) else j
  }

  /** A job that has been finalised. */
  predicate Final(j: Job) {
    && Sane(j) && !j.inTxn && j.verdict != Open && (j.status.Concluded? || j.status.Null?)
    && (j.verdict == Committed <==> j.ret == 0)
  }

  lemma FinalizedIsFinal(j: Job)
    requires Sane(j) && j.inTxn && Completed(j.status) && j.verdict == Open
    requires j.status == Waiting ==> j.ret != 0 || j.force
    ensures Final(Finalized(j))
    ensures Finalized(j).verdict == (if j.ret == 0 && !j.force then Committed else Aborted)
    ensures Finalized(j).runRet == j.runRet && Finalized(j).everPending == j.everPending
    ensures Finalized(j).borrowed == j.borrowed
  {}

  // ----- Groups -----

  type JobMap = map<Id, Job>

  /** A member before the group ends: running, or done with success and not cancelled by force. */
  predicate Quiet(j: Job) {
    && Sane(j) && j.inTxn && j.verdict == Open && !(j.status.Aborting? || j.status.Concluded? || j.status.Null?)
    && (Completed(j.status) ==> j.ret == 0 && !j.force && j.runRet == Some(0))
  }

  /** A member while the group is brought down: it will abort, or is the one `spared` job that is
      complete and has nothing against it. */
  predicate Doomed(j: Job, spared: bool) {
    && Sane(j) && j.inTxn && j.verdict == Open
    && (Live(j.status) ==> j.force)
    && (if spared then j.status == Pending && j.ret == 0 && !j.force else j.ret != 0 || j.force)
  }

  ghost predicate QuietAt(jobs: JobMap, m: Id) {
    m in jobs && Quiet(jobs[m])
  }

  ghost predicate AllQuiet(jobs: JobMap) {
    forall m {:trigger QuietAt(jobs, m)} :: m in jobs ==> QuietAt(jobs, m)
  }

  /** PENDING is reached by all members at once. */
  ghost predicate IsPending(jobs: JobMap, m: Id) {
    m in jobs && jobs[m].status == Pending
  }

  ghost predicate PendingTogether(jobs: JobMap) {
    forall m, k {:trigger IsPending(jobs, m), IsPending(jobs, k)} ::
      IsPending(jobs, m) && k in jobs ==> IsPending(jobs, k)
  }

  ghost predicate FinalAt(jobs: JobMap, m: Id) {
    m in jobs && Final(jobs[m])
  }

  ghost predicate AllFinal(jobs: JobMap) {
    forall m {:trigger FinalAt(jobs, m)} :: m in jobs ==> FinalAt(jobs, m)
  }

  /** Commit only after the success of the whole group. */
  ghost predicate CommitOnlyAfterSuccess(jobs: JobMap) {
    forall c, m {:trigger HasCommitted(jobs, c), HasSucceeded(jobs, m)} ::
      HasCommitted(jobs, c) && m in jobs ==> HasSucceeded(jobs, m)
  }

  ghost predicate HasCommitted(jobs: JobMap, c: Id) {
    c in jobs && jobs[c].verdict == Committed
  }

  ghost predicate HasSucceeded(jobs: JobMap, m: Id) {
    m in jobs && jobs[m].runRet == Some(0) && jobs[m].everPending
  }

  ghost predicate Lists(members: seq<Id>, jobs: JobMap) {
    Distinct(members) && forall m :: m in members <==> m in jobs
  }

  /** What has happened to a job does not change, and no reference is lost. */
  ghost predicate KeptAt(jobs: JobMap, jobs': JobMap, m: Id) {
    && m in jobs && m in jobs' && jobs'[m].borrowed == jobs[m].borrowed
    && (Completed(jobs[m].status) ==>
         Completed(jobs'[m].status) && jobs'[m].runRet == jobs[m].runRet && jobs'[m].everPending == jobs[m].everPending)
  }

  ghost predicate Kept(jobs: JobMap, jobs': JobMap) {
    jobs'.Keys == jobs.Keys && forall m {:trigger KeptAt(jobs, jobs', m)} :: m in jobs ==> KeptAt(jobs, jobs', m)
  }

  lemma KeptTwice(jobs: JobMap, jobs': JobMap, jobs'': JobMap)
    requires Kept(jobs, jobs') && Kept(jobs', jobs'')
    ensures Kept(jobs, jobs'')
  {
    forall m | m in jobs ensures KeptAt(jobs, jobs'', m) {
      assert KeptAt(jobs, jobs', m) && KeptAt(jobs', jobs'', m);
    }
  }

  predicate Finalizable(j: Job) {
    Sane(j) && j.inTxn && Completed(j.status) && j.verdict == Open && (j.status == Waiting ==> j.ret != 0 || j.force)
  }

  /** Nothing makes the job abort. */
  predicate Blameless(j: Job) {
    j.ret == 0 && !j.force
  }

  // ----- The coroutine of a job -----

  /** What a job's coroutine does under the job lock: job_pause_point_locked (job.c:620-634),
      job_transition_to_ready (job.c:1029-1034) and the end of job_co_entry (job.c:1112-1118). */
  datatype CoStep = PauseAt | ResumeFrom | BecomeReady | Return(ret: int)

  predicate CanStep(j: Job, s: CoStep) {
    match s
    case PauseAt => !j.deferred && (j.status.Running? || j.status.Ready?)
    case ResumeFrom => (j.status.Paused? || j.status.Standby?)
    case BecomeReady => !j.deferred && j.status == Running
    case Return(_) => !j.deferred && (j.status.Running? || j.status.Ready?)
  }

  function Stepped(j: Job, s: CoStep): Job
    requires CanStep(j, s)
  {
    match s
    case PauseAt => Transition(j, if j.status == Ready then Standby else Paused)
    case ResumeFrom => Transition(j, if j.status == Standby then Ready else Running)
    case BecomeReady => Transition(j, Ready)
    case Return(ret) => j.(ret := ret, deferred := true, exiting := true, runRet := Some(ret))
  }

  lemma StepKeeps(j: Job, s: CoStep)
    requires Sane(j) && CanStep(j, s)
    ensures Live(j.status) && Live(Stepped(j, s).status)
    ensures Stepped(j, s).borrowed == j.borrowed
    ensures Quiet(j) ==> Quiet(Stepped(j, s))
    ensures Doomed(j, false) ==> Doomed(Stepped(j, s), false)
  {}

  /** What job_exit makes of a job whose group is being brought down (job.c:1064-1071): it is marked as
      aborting, and job_completed_txn_abort_locked returns at once. */
  lemma ExitDoomed(j: Job)
    requires Doomed(j, false) && j.exiting
    ensures Doomed(UpdateRc(j.(exiting := false)), false) && UpdateRc(j.(exiting := false)).status == Aborting
    ensures UpdateRc(j.(exiting := false)).borrowed == j.borrowed
  {}

  // ----- Bringing a group down -----

  ghost predicate DoomedAt(jobs: JobMap, job: Id, spared: bool, m: Id) {
    m in jobs && Doomed(jobs[m], spared && m == job)
  }

  ghost predicate AllDoomed(jobs: JobMap, members: seq<Id>, job: Id, spared: bool) {
    forall m {:trigger DoomedAt(jobs, job, spared, m)} :: m in members ==> DoomedAt(jobs, job, spared, m)
  }

  /** Job `m` has changed only if it was a member that was still running. */
  ghost predicate SameUnlessLive(jobs: JobMap, jobs': JobMap, members: seq<Id>, m: Id) {
    && m in jobs && m in jobs' && jobs'[m].borrowed == jobs[m].borrowed
    && (m !in members || Completed(jobs[m].status) ==> jobs'[m] == jobs[m])
  }

  ghost predicate OnlyLive(jobs: JobMap, jobs': JobMap, members: seq<Id>) {
    && jobs'.Keys == jobs.Keys
    && forall m {:trigger SameUnlessLive(jobs, jobs', members, m)} ::
         m in jobs ==> SameUnlessLive(jobs, jobs', members, m)
  }

  lemma OnlyLiveKeeps(jobs: JobMap, jobs': JobMap, jobs'': JobMap, members: seq<Id>)
    requires OnlyLive(jobs, jobs', members) && OnlyLive(jobs', jobs'', members)
    ensures OnlyLive(jobs, jobs'', members)
  {
    forall m | m in jobs ensures SameUnlessLive(jobs, jobs'', members, m) {
      assert SameUnlessLive(jobs, jobs', members, m) && SameUnlessLive(jobs', jobs'', members, m);
    }
  }

  /** A running member goes on. */
  lemma LiveGoesOn(jobs: JobMap, members: seq<Id>, job: Id, spared: bool, m: Id, j: Job)
    requires AllDoomed(jobs, members, job, spared) && m in members && m in jobs
    requires Live(jobs[m].status) && Doomed(j, false) && j.borrowed == jobs[m].borrowed
    ensures AllDoomed(jobs[m := j], members, job, spared) && OnlyLive(jobs, jobs[m := j], members)
  {
    assert DoomedAt(jobs, job, spared, m);
    forall k | k in members ensures DoomedAt(jobs[m := j], job, spared, k) {
      assert DoomedAt(jobs, job, spared, k);
    }
    forall k | k in jobs ensures SameUnlessLive(jobs, jobs[m := j], members, k) {}
  }

  /** The verdicts when the group is brought down because of `job`. */
  predicate Falls(jobs: JobMap, job: Id, spared: bool, m: Id)
    requires m in jobs
  {
    jobs[m].verdict == if spared && m == job then Committed else Aborted
  }

  ghost predicate FallenAt(jobs: JobMap, job: Id, spared: bool, m: Id) {
    m in jobs && Final(jobs[m]) && Falls(jobs, job, spared, m)
  }

  ghost predicate FallenBut(jobs: JobMap, members: seq<Id>, job: Id, spared: bool) {
    forall m {:trigger FallenAt(jobs, job, spared, m)} :: m in jobs && m !in members ==> FallenAt(jobs, job, spared, m)
  }

  /** The event loop leaves the ones that have fallen alone. */
  lemma LoopKeepsFallen(jobs: JobMap, jobs': JobMap, members: seq<Id>, job: Id, spared: bool)
    requires FallenBut(jobs, members, job, spared) && OnlyLive(jobs, jobs', members)
    ensures FallenBut(jobs', members, job, spared) && Kept(jobs, jobs')
  {
    forall m | m in jobs' && m !in members ensures FallenAt(jobs', job, spared, m) {
      assert SameUnlessLive(jobs, jobs', members, m) && FallenAt(jobs, job, spared, m);
    }
    forall m | m in jobs ensures KeptAt(jobs, jobs', m) {
      assert SameUnlessLive(jobs, jobs', members, m);
    }
  }

  lemma FirstFalls(jobs: JobMap, members: seq<Id>, job: Id, spared: bool)
    requires AllDoomed(jobs, members, job, spared) && FallenBut(jobs, members, job, spared)
    requires members != [] && Distinct(members) && members[0] in jobs && Completed(jobs[members[0]].status)
    ensures DoomedAt(jobs, job, spared, members[0]) && Finalizable(jobs[members[0]])
    ensures var jobs' := jobs[members[0] := Finalized(jobs[members[0]])];
      && AllDoomed(jobs', members[1..], job, spared) && FallenBut(jobs', members[1..], job, spared)
      && Kept(jobs, jobs')
  {
    var f := members[0];
    assert DoomedAt(jobs, job, spared, f);
    FinalizedIsFinal(jobs[f]);
    var jobs' := jobs[f := Finalized(jobs[f])];
    forall m | m in members[1..] ensures DoomedAt(jobs', job, spared, m) {
      assert DoomedAt(jobs, job, spared, m);
    }
    forall m | m in jobs' && m !in members[1..] ensures FallenAt(jobs', job, spared, m) {
      assert m != f ==> FallenAt(jobs, job, spared, m);
    }
    forall m | m in jobs ensures KeptAt(jobs, jobs', m) {}
  }

  ghost predicate CancelledAt(jobs: JobMap, jobs': JobMap, members: seq<Id>, i: nat, job: Id, m: Id)
    requires i <= |members|
  {
    m in jobs && m in jobs' && jobs'[m] == if m in members[..i] && m != job then CancelAsync(jobs[m], true) else jobs[m]
  }

  /** The first `i` of the list have been cancelled, except for `job`. */
  ghost predicate CancelledUpTo(jobs: JobMap, jobs': JobMap, members: seq<Id>, i: nat, job: Id)
    requires i <= |members|
  {
    jobs'.Keys == jobs.Keys &&
    forall m {:trigger CancelledAt(jobs, jobs', members, i, job, m)} ::
      m in jobs ==> CancelledAt(jobs, jobs', members, i, job, m)
  }

  lemma CancelOneMore(jobs: JobMap, jobs': JobMap, members: seq<Id>, i: nat, job: Id)
    requires i < |members| && Distinct(members) && members[i] in jobs && CancelledUpTo(jobs, jobs', members, i, job)
    ensures members[i] in jobs'
    ensures var m := members[i];
      var jobs'' := if m == job then jobs' else jobs'[m := CancelAsync(jobs'[m], true)];
      CancelledUpTo(jobs, jobs'', members, i + 1, job)
  {
    var other := members[i];
    assert members[..i + 1] == members[..i] + [other];
    assert other !in members[..i];
    assert CancelledAt(jobs, jobs', members, i, job, other);
    var jobs'' := if other == job then jobs' else jobs'[other := CancelAsync(jobs'[other], true)];
    forall m | m in jobs ensures CancelledAt(jobs, jobs'', members, i + 1, job, m) {
      assert CancelledAt(jobs, jobs', members, i, job, m);
    }
  }

  /** Not yet finalised. */
  predicate Ending(j: Job) {
    Sane(j) && j.inTxn && j.verdict == Open
  }

  ghost predicate AllEnding(jobs: JobMap) {
    forall m {:trigger Ending(jobs[m])} :: m in jobs ==> Ending(jobs[m])
  }

  lemma AllCancelled(jobs: JobMap, jobs': JobMap, members: seq<Id>, job: Id, spared: bool)
    requires Lists(members, jobs) && AllEnding(jobs) && job in jobs && Doomed(jobs[job], spared)
    requires CancelledUpTo(jobs, jobs', members, |members|, job)
    ensures AllDoomed(jobs', members, job, spared) && Kept(jobs, jobs')
  {
    assert members[..|members|] == members;
    forall m | m in members ensures DoomedAt(jobs', job, spared, m) {
      assert Ending(jobs[m]) && CancelledAt(jobs, jobs', members, |members|, job, m);
    }
    forall m | m in jobs ensures KeptAt(jobs, jobs', m) {
      assert CancelledAt(jobs, jobs', members, |members|, job, m);
    }
  }

  lemma KeptSelf(jobs: JobMap)
    ensures Kept(jobs, jobs)
  {
    forall m | m in jobs ensures KeptAt(jobs, jobs, m) {}
  }

  lemma NoneFallen(members: seq<Id>, jobs: JobMap, job: Id, spared: bool)
    requires forall m :: m in jobs ==> m in members
    ensures FallenBut(jobs, members, job, spared)
  {}

  // ----- Finalising a group -----

  /** The first member, in the order of the list, whose driver fails to prepare. */
  function FirstFailing(members: seq<Id>, prep: Id -> int): Option<Id> {
    if members == [] then None
    else if prep(members[0]) != 0 then Some(members[0])
    else FirstFailing(members[1..], prep)
  }

  lemma {:induction false} FailsAt(members: seq<Id>, prep: Id -> int, i: nat)
    requires i <= |members| && forall k :: 0 <= k < i ==> prep(members[k]) == 0
    ensures i < |members| && prep(members[i]) != 0 ==> FirstFailing(members, prep) == Some(members[i])
    ensures i == |members| ==> FirstFailing(members, prep) == None
  {
    if i > 0 {
      assert forall k :: 0 <= k < i - 1 ==> members[1..][k] == members[k + 1];
      FailsAt(members[1..], prep, i - 1);
    }
  }

  ghost predicate PendingAt(jobs: JobMap, m: Id) {
    m in jobs && Quiet(jobs[m]) && jobs[m].status == Pending
  }

  /** The group has come through: every member has returned 0 from run and is PENDING. */
  ghost predicate AllPending(jobs: JobMap) {
    forall m {:trigger PendingAt(jobs, m)} :: m in jobs ==> PendingAt(jobs, m)
  }

  /** A member whose driver failed to prepare (job.c:976-984). */
  function FailedToPrepare(j: Job, ret: int): Job
    requires Quiet(j) && j.status == Pending && ret != 0
  {
    UpdateRc(j.(ret := ret))
  }

  /** What finalising makes of the members. */
  function GroupVerdict(failing: Option<Id>, job: Id, m: Id): Verdict {
    if failing == None || (m == job && failing != Some(job)) then Committed else Aborted
  }

  /** All members share one verdict exactly if none fails to prepare, or the first to fail is the job that
      the finalisation was asked of, or there is no other. */
  lemma AllOrNothingIff(members: seq<Id>, job: Id, prep: Id -> int)
    requires Distinct(members) && job in members
    ensures (forall m, k :: m in members && k in members ==>
              GroupVerdict(FirstFailing(members, prep), job, m) == GroupVerdict(FirstFailing(members, prep), job, k))
       <==> FirstFailing(members, prep) in {None, Some(job)}
  {
    FirstFailingIsMember(members, prep);
    var f := FirstFailing(members, prep);
    if f.Some? && f != Some(job) {
      assert GroupVerdict(f, job, job) != GroupVerdict(f, job, f.value);
    }
  }

  lemma {:induction false} FirstFailingIsMember(members: seq<Id>, prep: Id -> int)
    ensures FirstFailing(members, prep).Some? ==>
      FirstFailing(members, prep).value in members && prep(FirstFailing(members, prep).value) != 0
  {
    if members != [] {
      FirstFailingIsMember(members[1..], prep);
    }
  }

  /** Two jobs, of which the second fails to prepare while the first is the one that completed last: the
      first commits, the second aborts. */
  lemma NotAllOrNothing(prep: Id -> int)
    requires prep(1) == 0 && prep(2) != 0
    ensures var f := FirstFailing([1, 2], prep);
      GroupVerdict(f, 1, 1) == Committed && GroupVerdict(f, 1, 2) == Aborted
  {
    FailsAt([1, 2], prep, 1);
  }

  lemma PendingDoom(jobs: JobMap, members: seq<Id>, prep: Id -> int, job: Id, f: Id)
    requires Lists(members, jobs) && AllPending(jobs) && job in jobs && f in jobs && prep(f) != 0
    requires FirstFailing(members, prep) == Some(f)
    ensures PendingAt(jobs, f)
    ensures var jobs' := jobs[f := FailedToPrepare(jobs[f], prep(f))];
      && AllEnding(jobs') && Doomed(jobs'[job], Blameless(jobs'[job])) && Kept(jobs, jobs')
      && (Blameless(jobs'[job]) <==> f != job)
  {
    assert PendingAt(jobs, f) && PendingAt(jobs, job);
    var jobs' := jobs[f := FailedToPrepare(jobs[f], prep(f))];
    forall m | m in jobs' ensures Ending(jobs'[m]) {
      assert PendingAt(jobs, m);
    }
    forall m | m in jobs ensures KeptAt(jobs, jobs', m) {}
  }

  /** Members before `i` have committed. */
  ghost predicate CommittedAt(jobs0: JobMap, jobs: JobMap, m: Id) {
    m in jobs && m in jobs0 && Final(jobs[m]) && jobs[m].verdict == Committed && KeptAt(jobs0, jobs, m)
  }

  ghost predicate CommittedBut(jobs0: JobMap, jobs: JobMap, members: seq<Id>) {
    && jobs.Keys == jobs0.Keys
    && (forall m {:trigger CommittedAt(jobs0, jobs, m)} :: m in jobs && m !in members ==> CommittedAt(jobs0, jobs, m))
    && (forall m {:trigger PendingAt(jobs, m)} :: m in members ==> PendingAt(jobs, m))
  }

  lemma FirstCommits(jobs0: JobMap, jobs: JobMap, members: seq<Id>)
    requires CommittedBut(jobs0, jobs, members) && members != [] && Distinct(members)
    requires members[0] in jobs0 && members[0] in jobs && jobs[members[0]] == jobs0[members[0]]
    ensures PendingAt(jobs, members[0])
    ensures CommittedBut(jobs0, jobs[members[0] := Finalized(jobs[members[0]])], members[1..])
  {
    var f := members[0];
    assert PendingAt(jobs, f);
    FinalizedIsFinal(jobs[f]);
    var jobs' := jobs[f := Finalized(jobs[f])];
    forall m | m in jobs' && m !in members[1..] ensures CommittedAt(jobs0, jobs', m) {
      if m != f {
        assert CommittedAt(jobs0, jobs, m);
      }
    }
    forall m | m in members[1..] ensures PendingAt(jobs', m) {
      assert PendingAt(jobs, m);
    }
  }

  /** How a finalised group has ended. */
  ghost predicate EndedAs(jobs: JobMap, failing: Option<Id>, job: Id, m: Id) {
    m in jobs && Final(jobs[m]) && jobs[m].verdict == GroupVerdict(failing, job, m)
  }

  ghost predicate VerdictAt(jobs: JobMap, failing: Option<Id>, job: Id, m: Id) {
    m in jobs && jobs[m].verdict == GroupVerdict(failing, job, m)
  }

  ghost predicate Verdicts(jobs: JobMap, failing: Option<Id>, job: Id) {
    forall m {:trigger VerdictAt(jobs, failing, job, m)} :: m in jobs ==> VerdictAt(jobs, failing, job, m)
  }

  ghost predicate AllEndedAs(jobs: JobMap, failing: Option<Id>, job: Id) {
    forall m {:trigger EndedAs(jobs, failing, job, m)} :: m in jobs ==> EndedAs(jobs, failing, job, m)
  }

  ghost predicate Ended(jobs0: JobMap, jobs: JobMap, failing: Option<Id>, job: Id) {
    Kept(jobs0, jobs) && AllEndedAs(jobs, failing, job)
  }

  lemma EndedByCommit(jobs0: JobMap, jobs: JobMap, job: Id)
    requires CommittedBut(jobs0, jobs, [])
    ensures Ended(jobs0, jobs, None, job)
  {
    forall m | m in jobs ensures EndedAs(jobs, None, job, m) && KeptAt(jobs0, jobs, m) {
      assert CommittedAt(jobs0, jobs, m);
    }
  }

  lemma EndedByAbort(jobs0: JobMap, jobs1: JobMap, jobs: JobMap, f: Id, job: Id)
    requires Kept(jobs0, jobs1) && Kept(jobs1, jobs) && FallenBut(jobs, [], job, f != job)
    ensures Ended(jobs0, jobs, Some(f), job)
  {
    KeptTwice(jobs0, jobs1, jobs);
    forall m | m in jobs ensures EndedAs(jobs, Some(f), job, m) {
      assert FallenAt(jobs, job, f != job, m);
    }
  }

  // ----- References held across a call -----

  lemma RefKeeps(j: Job)
    ensures Sane(j) ==> Sane(Ref(j))
    ensures Ending(j) ==> Ending(Ref(j))
    ensures Quiet(j) ==> Quiet(Ref(j))
    ensures forall spared :: Doomed(j, spared) ==> Doomed(Ref(j), spared)
  {}

  /** Dropping a borrowed reference never fails an assertion: a job that loses its last one is NULL and in
      no transaction. */
  lemma UnrefKeeps(j: Job)
    requires Sane(j) && j.borrowed >= 1
    ensures j.refcnt == 1 ==> j.status == Null && !j.inTxn
    ensures Sane(Unref(j))
    ensures Quiet(j) ==> Quiet(Unref(j))
    ensures Final(j) ==> Final(Unref(j)) && Unref(j).verdict == j.verdict
  {}

  lemma FallenUnref(jobs0: JobMap, jobs: JobMap, job: Id, spared: bool)
    requires job in jobs0 && jobs0[job].borrowed >= 0
    requires Kept(jobs0[job := Ref(jobs0[job])], jobs) && FallenBut(jobs, [], job, spared)
    ensures FallenAt(jobs, job, spared, job) && jobs[job].borrowed >= 1
    ensures jobs[job].refcnt == 1 ==> jobs[job].status == Null && !jobs[job].inTxn
    ensures Kept(jobs0, jobs[job := Unref(jobs[job])]) && FallenBut(jobs[job := Unref(jobs[job])], [], job, spared)
  {
    var jobs1 := jobs0[job := Ref(jobs0[job])];
    assert KeptAt(jobs1, jobs, job) && FallenAt(jobs, job, spared, job);
    UnrefKeeps(jobs[job]);
    var jobs' := jobs[job := Unref(jobs[job])];
    forall m | m in jobs0 ensures KeptAt(jobs0, jobs', m) {
      assert KeptAt(jobs1, jobs, m);
    }
    forall m | m in jobs' && m !in [] ensures FallenAt(jobs', job, spared, m) {
      assert FallenAt(jobs, job, spared, m);
    }
  }

  lemma PendingRef(jobs: JobMap, job: Id)
    requires AllPending(jobs) && job in jobs
    ensures AllPending(Reffed(jobs, job))
  {
    forall m | m in jobs ensures PendingAt(Reffed(jobs, job), m) {
      assert PendingAt(jobs, m);
      RefKeeps(jobs[m]);
    }
  }

  lemma CommittedUnref(jobs0: JobMap, jobs: JobMap, job: Id)
    requires AllPending(jobs0) && job in jobs0 && CommittedBut(Reffed(jobs0, job), jobs, [])
    ensures job in jobs && jobs[job].borrowed >= 1
    ensures jobs[job].refcnt == 1 ==> jobs[job].status == Null && !jobs[job].inTxn
    ensures CommittedBut(jobs0, Unreffed(jobs, job), [])
  {
    var jobs1 := Reffed(jobs0, job);
    assert PendingAt(jobs0, job) && CommittedAt(jobs1, jobs, job);
    UnrefKeeps(jobs[job]);
    forall m | m in jobs ensures CommittedAt(jobs0, Unreffed(jobs, job), m) {
      assert CommittedAt(jobs1, jobs, m);
    }
  }

  lemma EndingRef(jobs: JobMap, job: Id)
    requires AllEnding(jobs) && job in jobs
    ensures AllEnding(jobs[job := Ref(jobs[job])])
  {
    var jobs' := jobs[job := Ref(jobs[job])];
    assert Ending(jobs[job]);
    RefKeeps(jobs[job]);
    forall m | m in jobs' ensures Ending(jobs'[m]) {
      assert m != job ==> Ending(jobs[m]);
    }
  }

  // ----- Between the steps -----

  /** All jobs are members and none has ended, or all have. */
  ghost predicate GroupOk(jobs: JobMap, members: seq<Id>, aborting: bool) {
    && CommitOnlyAfterSuccess(jobs)
    && (if members == [] then AllFinal(jobs)
        else !aborting && Lists(members, jobs) && AllQuiet(jobs) && PendingTogether(jobs))
  }

  ghost predicate CompletedAt(jobs: JobMap, m: Id) {
    m in jobs && Completed(jobs[m].status)
  }

  ghost predicate EveryoneCompleted(jobs: JobMap) {
    forall m {:trigger CompletedAt(jobs, m)} :: m in jobs ==> CompletedAt(jobs, m)
  }

  ghost predicate LastToComplete(jobs: JobMap, job: Id) {
    forall m {:trigger CompletedAt(jobs, m)} :: m in jobs && m != job ==> CompletedAt(jobs, m)
  }

  ghost predicate AutoAt(jobs: JobMap, m: Id) {
    m in jobs && jobs[m].autoFinalize
  }

  ghost predicate NoneManual(jobs: JobMap) {
    forall m {:trigger AutoAt(jobs, m)} :: m in jobs ==> AutoAt(jobs, m)
  }

  /** A change of one job that concerns neither. */
  lemma SameGroup(jobs: JobMap, job: Id, j: Job)
    requires job in jobs && j.autoFinalize == jobs[job].autoFinalize
    ensures LastToComplete(jobs[job := j], job) <==> LastToComplete(jobs, job)
    ensures NoneManual(jobs[job := j]) <==> NoneManual(jobs)
    ensures Completed(j.status) ==> (EveryoneCompleted(jobs[job := j]) <==> LastToComplete(jobs, job))
  {
    var jobs' := jobs[job := j];
    forall m | m in jobs ensures m != job ==> (CompletedAt(jobs', m) <==> CompletedAt(jobs, m)) {}
    forall m | m in jobs ensures AutoAt(jobs', m) <==> AutoAt(jobs, m) {}
  }

  lemma PendSameAuto(jobs: JobMap)
    ensures NoneManual(AllPend(jobs)) <==> NoneManual(jobs)
  {
    forall m | m in jobs ensures AutoAt(AllPend(jobs), m) <==> AutoAt(jobs, m) {}
  }

  function Waits(j: Job): Job {
    j.(status := Waiting, exiting := false)
  }

  function Pends(j: Job): Job {
    j.(status := Pending, everPending := true)
  }

  function AllPend(jobs: JobMap): JobMap {
    map m | m in jobs :: Pends(jobs[m])
  }

  /** The group after a member succeeded, unless that ends it: the member waits for the others, or, being
      the last, is pending with them. */
  ghost function AfterSuccess(jobs: JobMap, job: Id): JobMap
    requires job in jobs
  {
    var waiting := jobs[job := Waits(jobs[job])];
    if LastToComplete(jobs, job) then AllPend(waiting) else waiting
  }

  ghost predicate AbortedAt(jobs: JobMap, m: Id) {
    m in jobs && jobs[m].verdict == Aborted
  }

  ghost predicate AllAborted(jobs: JobMap) {
    forall m {:trigger AbortedAt(jobs, m)} :: m in jobs ==> AbortedAt(jobs, m)
  }

  lemma GroupFallen(jobs: JobMap, job: Id, aborting: bool)
    requires FallenBut(jobs, [], job, false)
    ensures GroupOk(jobs, [], aborting) && AllAborted(jobs)
  {
    forall m | m in jobs ensures FinalAt(jobs, m) && AbortedAt(jobs, m) && !HasCommitted(jobs, m) {
      assert FallenAt(jobs, job, false, m);
    }
  }

  lemma GroupEnded(jobs0: JobMap, jobs: JobMap, failing: Option<Id>, job: Id, aborting: bool)
    requires AllPending(jobs0) && Ended(jobs0, jobs, failing, job)
    ensures GroupOk(jobs, [], aborting)
  {
    forall m | m in jobs ensures FinalAt(jobs, m) && HasSucceeded(jobs, m) {
      assert PendingAt(jobs0, m) && KeptAt(jobs0, jobs, m) && EndedAs(jobs, failing, job, m);
    }
  }

  lemma GroupUnref(jobs: JobMap, members: seq<Id>, aborting: bool, j: Id)
    requires GroupOk(jobs, members, aborting) && j in jobs && jobs[j].borrowed >= 1
    ensures jobs[j].refcnt == 1 ==> jobs[j].status == Null && !jobs[j].inTxn
    ensures GroupOk(jobs[j := Unref(jobs[j])], members, aborting)
    ensures AllAborted(jobs) ==> AllAborted(jobs[j := Unref(jobs[j])])
  {
    assert members == [] ==> FinalAt(jobs, j);
    assert members != [] ==> QuietAt(jobs, j);
    UnrefKeeps(jobs[j]);
    var jobs' := jobs[j := Unref(jobs[j])];
    forall m | m in jobs'
      ensures HasCommitted(jobs', m) <==> HasCommitted(jobs, m)
      ensures HasSucceeded(jobs', m) <==> HasSucceeded(jobs, m)
      ensures IsPending(jobs', m) <==> IsPending(jobs, m)
      ensures AbortedAt(jobs', m) <==> AbortedAt(jobs, m)
    {}
    if members == [] {
      forall m | m in jobs' ensures FinalAt(jobs', m) {
        assert FinalAt(jobs, m);
      }
    } else {
      forall m | m in jobs' ensures QuietAt(jobs', m) {
        assert QuietAt(jobs, m);
      }
    }
  }

  lemma QuietEnding(jobs: JobMap)
    requires AllQuiet(jobs)
    ensures AllEnding(jobs)
  {
    forall m | m in jobs ensures Ending(jobs[m]) {
      assert QuietAt(jobs, m);
    }
  }

  lemma EndingBut(jobs: JobMap, j: Id, job: Job)
    requires AllQuiet(jobs) && j in jobs && Ending(job)
    ensures AllEnding(jobs[j := job])
  {
    QuietEnding(jobs);
    forall m | m in jobs ensures Ending(jobs[j := job][m]) {
      assert Ending(jobs[m]);
    }
  }

  /** A member that is still running changes. */
  lemma QuietChange(jobs: JobMap, members: seq<Id>, j: Id, job: Job)
    requires members != [] && GroupOk(jobs, members, false) && j in jobs && Quiet(job)
    requires Live(jobs[j].status) && job.status != Pending
    ensures GroupOk(jobs[j := job], members, false)
    ensures forall m {:trigger IsPending(jobs, m)} :: !IsPending(jobs, m)
    ensures forall m {:trigger IsPending(jobs[j := job], m)} :: !IsPending(jobs[j := job], m)
  {
    var jobs' := jobs[j := job];
    assert QuietAt(jobs, j) && !IsPending(jobs, j);
    forall m ensures !IsPending(jobs', m) {
      assert !IsPending(jobs, m);
    }
    forall m | m in jobs' ensures QuietAt(jobs', m) && !HasCommitted(jobs', m) {
      assert QuietAt(jobs, m);
    }
  }

  // ----- The transaction -----

  class JobTxn {
    var jobs: JobMap
    var members: seq<Id>     // txn->jobs
    var aborting: bool

    /** What holds between the atomic steps. */
    ghost predicate Valid()
      reads this
    {
      GroupOk(jobs, members, aborting)
    }

    /** A group of jobs that have just been started; those in `manual` are to be finalised and
        those in `keep` to be dismissed by hand. */
    constructor (ids: seq<Id>, manual: set<Id>, keep: set<Id>)
      requires Distinct(ids) && ids != []
      ensures Valid() && members == ids && !aborting
      ensures jobs == map m | m in ids :: Started(manual, keep, m)
    {
      jobs := map m | m in ids :: Started(manual, keep, m);
      members := ids;
      aborting := false;
      new;
      forall m | m in jobs ensures QuietAt(jobs, m) && !IsPending(jobs, m) && !HasCommitted(jobs, m) {}
    }

    /** One step of the event loop while the group is brought down: some member's coroutine goes on, or
        its job_exit runs. */
    method NestedStep(m: Id, exit: bool, s: CoStep, ghost job: Id, ghost spared: bool)
      requires aborting && AllDoomed(jobs, members, job, spared) && m in members && m in jobs
      modifies this`jobs
      ensures AllDoomed(jobs, members, job, spared) && OnlyLive(old(jobs), jobs, members)
      ensures exit && old(jobs[m].exiting) ==> jobs[m].status == Aborting
      ensures !exit && CanStep(old(jobs[m]), s) ==> jobs[m] == Stepped(old(jobs[m]), s)
    {
      assert DoomedAt(jobs, job, spared, m);
      if exit {
        if jobs[m].exiting {
          ExitDoomed(jobs[m]);
          LiveGoesOn(jobs, members, job, spared, m, UpdateRc(jobs[m].(exiting := false)));
          jobs := jobs[m := UpdateRc(jobs[m].(exiting := false))];
        }
      } else if CanStep(jobs[m], s) {
        StepKeeps(jobs[m], s);
        LiveGoesOn(jobs, members, job, spared, m, Stepped(jobs[m], s));
        jobs := jobs[m := Stepped(jobs[m], s)];
      }
    }

    /** job_finish_sync_locked (job.c:1242-1270) without a finish function: the event loop is run until
        the job is completed. */
    method FinishSync(other: Id, ghost job: Id, ghost spared: bool)
      requires aborting && AllDoomed(jobs, members, job, spared) && other in members && other in jobs
      modifies this`jobs
      ensures AllDoomed(jobs, members, job, spared) && OnlyLive(old(jobs), jobs, members)
      ensures Completed(jobs[other].status)
    {
      var n: nat := *;
      while n > 0 && !Completed(jobs[other].status)
        invariant AllDoomed(jobs, members, job, spared) && OnlyLive(old(jobs), jobs, members)
      {
        ghost var before := jobs;
        var m :| m in members;
        assert DoomedAt(jobs, job, spared, m);
        var exit: bool, s: CoStep := *, *;
        NestedStep(m, exit, s, job, spared);
        OnlyLiveKeeps(old(jobs), before, jobs, members);
        n := n - 1;
      }
      assert DoomedAt(jobs, job, spared, other);
      if !Completed(jobs[other].status) {
        ghost var before := jobs;
        RunToCompletion(other, job, spared);
        OnlyLiveKeeps(old(jobs), before, jobs, members);
      }
    }

    /** The last steps of a job that the event loop waits for. */
    method RunToCompletion(other: Id, ghost job: Id, ghost spared: bool)
      requires aborting && AllDoomed(jobs, members, job, spared)
      requires other in members && other in jobs && Live(jobs[other].status)
      modifies this`jobs
      ensures AllDoomed(jobs, members, job, spared) && OnlyLive(old(jobs), jobs, members)
      ensures Completed(jobs[other].status)
    {
      ghost var j0 := jobs;
      if (jobs[other].status.Paused? || jobs[other].status.Standby?) {
        NestedStep(other, false, ResumeFrom, job, spared);
      }
      ghost var j1 := jobs;
      assert DoomedAt(j0, job, spared, other) && DoomedAt(j1, job, spared, other);
      if !jobs[other].deferred {
        var ret: int := *;
        NestedStep(other, false, Return(ret), job, spared);
      }
      ghost var j2 := jobs;
      assert DoomedAt(j2, job, spared, other);
      NestedStep(other, true, PauseAt, job, spared);
      OnlyLiveKeeps(j1, j2, jobs, members);
      OnlyLiveKeeps(j0, j1, jobs, members);
    }

    /** job_finalize_single_locked (job.c:846-883) for the first member of the list. */
    method FinalizeSingle()
      requires members != [] && Distinct(members) && members[0] in jobs
      requires Finalizable(jobs[members[0]])
      modifies this
      ensures aborting == old(aborting) && members == old(members[1..])
      ensures jobs == old(jobs)[old(members[0]) := Finalized(old(jobs[members[0]]))]
    {
      jobs := jobs[members[0] := Finalized(jobs[members[0]])];
      members := members[1..];
    }

    /** The first loop of job.c:951-960. */
    method CancelOthers(job: Id, ghost spared: bool)
      requires Lists(members, jobs) && AllEnding(jobs) && job in jobs && Doomed(jobs[job], spared)
      modifies this`jobs
      ensures AllDoomed(jobs, members, job, spared) && Kept(old(jobs), jobs)
    {
      forall m | m in jobs ensures CancelledAt(jobs, jobs, members, 0, job, m) {}
      for i := 0 to |members|
        invariant CancelledUpTo(old(jobs), jobs, members, i, job)
      {
        CancelOneMore(old(jobs), jobs, members, i, job);
        var other := members[i];
        if other != job {
          jobs := jobs[other := CancelAsync(jobs[other], true)];
        }
      }
      AllCancelled(old(jobs), jobs, members, job, spared);
    }

    /** job_completed_txn_abort_locked (job.c:929-969).  All members abort.  The one exception is `job`
        itself if there is nothing against it: that case arises when another member fails to prepare. */
    method TxnAbort(job: Id)
      requires !aborting && Lists(members, jobs) && AllEnding(jobs)
      requires job in jobs && Doomed(jobs[job], Blameless(jobs[job]))
      modifies this
      ensures members == [] && jobs.Keys == old(jobs).Keys && Kept(old(jobs), jobs)
      ensures FallenBut(jobs, [], job, Blameless(old(jobs[job])))
    {
      aborting := true;
      ghost var spared, jobs0 := Blameless(jobs[job]), jobs;
      EndingRef(jobs, job);
      RefKeeps(jobs[job]);
      jobs := jobs[job := Ref(jobs[job])];
      ghost var before := jobs;
      CancelOthers(job, spared);
      NoneFallen(members, jobs, job, spared);
      while members != []
        invariant aborting && Distinct(members) && AllDoomed(jobs, members, job, spared)
        invariant FallenBut(jobs, members, job, spared) && Kept(before, jobs)
        decreases |members|
      {
        ghost var j0 := jobs;
        TakeDownFirst(job, spared);
        KeptTwice(before, j0, jobs);
      }
      assert Ending(jobs0[job]);
      FallenUnref(jobs0, jobs, job, spared);
      jobs := jobs[job := Unref(jobs[job])];
    }

    /** The body of the second loop of job.c:961-965. */
    method TakeDownFirst(ghost job: Id, ghost spared: bool)
      requires members != [] && aborting && Distinct(members) && AllDoomed(jobs, members, job, spared)
      requires FallenBut(jobs, members, job, spared)
      modifies this
      ensures aborting && members == old(members[1..]) && Distinct(members)
      ensures AllDoomed(jobs, members, job, spared) && FallenBut(jobs, members, job, spared)
      ensures Kept(old(jobs), jobs)
    {
      var other := members[0];
      assert DoomedAt(jobs, job, spared, other);
      ghost var j0 := jobs;
      if !Completed(jobs[other].status) {
        assert jobs[other].cancelled;
        FinishSync(other, job, spared);
        LoopKeepsFallen(j0, jobs, members, job, spared);
      } else {
        KeptSelf(jobs);
      }
      FirstFalls(jobs, members, job, spared);
      KeptTwice(j0, jobs, jobs[other := Finalized(jobs[other])]);
      FinalizeSingle();
    }

    /** job_txn_apply_locked of job_prepare_locked (job.c:177-199, 972-987) */
    method PrepareAll(prep: Id -> int) returns (rc: int)
      requires Lists(members, jobs) && AllPending(jobs)
      modifies this`jobs
      ensures rc == 0 <==> FirstFailing(members, prep) == None
      ensures rc == 0 ==> jobs == old(jobs)
      ensures rc != 0 ==> var f := FirstFailing(members, prep).value;
        && f in old(jobs) && prep(f) != 0 && PendingAt(old(jobs), f)
        && jobs == old(jobs)[f := FailedToPrepare(old(jobs)[f], prep(f))]
    {
      for i := 0 to |members|
        invariant jobs == old(jobs) && forall k :: 0 <= k < i ==> prep(members[k]) == 0
      {
        FailsAt(members, prep, i);
        var m := members[i];
        assert PendingAt(jobs, m);
        if prep(m) != 0 {
          jobs := jobs[m := UpdateRc(jobs[m].(ret := prep(m)))];
          return prep(m);
        }
        assert jobs[m] == jobs[m].(ret := prep(m));
      }
      FailsAt(members, prep, |members|);
      rc := 0;
    }

    /** job_do_finalize_locked (job.c:996-1008) */
    method DoFinalize(job: Id, prep: Id -> int)
      requires !aborting && Lists(members, jobs) && job in jobs && AllPending(jobs)
      modifies this
      ensures members == [] && Ended(old(jobs), jobs, FirstFailing(old(members), prep), job)
    {
      var rc := PrepareAll(prep);
      if rc != 0 {
        ghost var f := FirstFailing(members, prep).value;
        PendingDoom(old(jobs), members, prep, job, f);
        ghost var failed := jobs;
        TxnAbort(job);
        EndedByAbort(old(jobs), failed, jobs, f, job);
      } else {
        FinalizeAll(job);
        EndedByCommit(old(jobs), jobs, job);
      }
    }

    /** job_txn_apply_locked of job_finalize_single_locked (job.c:177-199).  The reference to `job` that is held
        meanwhile may be the last one, if nobody else has one and the job is dismissed automatically. */
    method FinalizeAll(job: Id)
      requires Lists(members, jobs) && AllPending(jobs) && job in jobs
      modifies this
      ensures members == [] && CommittedBut(old(jobs), jobs, [])
    {
      PendingRef(jobs, job);
      jobs := Reffed(jobs, job);
      ghost var jobs0 := jobs;
      while members != []
        invariant Distinct(members) && CommittedBut(jobs0, jobs, members)
        invariant forall m :: m in members ==> m in jobs0 && m in jobs && jobs[m] == jobs0[m]
        decreases |members|
      {
        FirstCommits(jobs0, jobs, members);
        FinalizeSingle();
      }
      CommittedUnref(old(jobs), jobs, job);
      jobs := Unreffed(jobs, job);
    }

    /** The loops of job_completed_txn_success_locked (job.c:1048-1053): are all members completed? */
    method AllCompleted() returns (all: bool)
      requires Lists(members, jobs) && AllQuiet(jobs)
      ensures all <==> EveryoneCompleted(jobs)
    {
      for i := 0 to |members|
        invariant forall k :: 0 <= k < i ==> CompletedAt(jobs, members[k])
      {
        var other := members[i];
        assert QuietAt(jobs, other) && (CompletedAt(jobs, other) <==> Completed(jobs[other].status));
        if !Completed(jobs[other].status) {
          return false;
        }
        assert jobs[other].ret == 0;
      }
      all := true;
    }

    /** job_txn_apply_locked of job_transition_to_pending_locked (job.c:1020-1028) */
    method AllToPending()
      requires Lists(members, jobs) && AllQuiet(jobs)
      requires forall m :: m in jobs ==> jobs[m].status == Waiting
      modifies this`jobs
      ensures AllPending(jobs) && jobs.Keys == old(jobs).Keys
      ensures jobs == AllPend(old(jobs))
    {
      forall m | m in jobs ensures PendedAt(jobs, jobs, members, 0, m) {}
      for i := 0 to |members|
        invariant PendedUpTo(old(jobs), jobs, members, i)
      {
        PendOneMore(old(jobs), jobs, members, i);
        jobs := jobs[members[i] := Transition(jobs[members[i]], Pending)];
      }
      forall m | m in jobs ensures jobs[m] == Transition(old(jobs)[m], Pending) {
        assert PendedAt(old(jobs), jobs, members, |members|, m);
        assert m in members[..|members|];
      }
      PendingNow(old(jobs), jobs, members);
    }

    /** job_txn_apply_locked of job_needs_finalize_locked */
    method NeedsFinalize() returns (manual: bool)
      requires Lists(members, jobs)
      ensures manual <==> !NoneManual(jobs)
    {
      for i := 0 to |members|
        invariant forall k :: 0 <= k < i ==> AutoAt(jobs, members[k])
      {
        assert AutoAt(jobs, members[i]) <==> jobs[members[i]].autoFinalize;
        if !jobs[members[i]].autoFinalize {
          return true;
        }
      }
      manual := false;
    }

    /** job_completed_txn_success_locked (job.c:1037-1061) */
    method TxnSuccess(job: Id, prep: Id -> int)
      requires Valid() && members != [] && job in jobs
      requires jobs[job].exiting && Blameless(jobs[job])
      modifies this
      ensures Valid() && jobs.Keys == old(jobs).Keys && jobs[job].borrowed == old(jobs[job].borrowed)
      ensures members == [] <==> LastToComplete(old(jobs), job) && NoneManual(old(jobs))
      ensures members == [] ==> AllEndedAs(jobs, FirstFailing(old(members), prep), job)
      ensures members != [] ==> members == old(members) && jobs == AfterSuccess(old(jobs), job)
    {
      assert QuietAt(jobs, job);
      SuccessIsQuiet(jobs[job]);
      QuietChange(jobs, members, job, Waits(jobs[job]));
      SameGroup(jobs, job, Waits(jobs[job]));
      jobs := jobs[job := Waits(jobs[job])];
      PendSameAuto(jobs);
      var all := AllCompleted();
      if all {
        AllWaiting(jobs);
        AllToPending();
        FinalizeUnlessManual(job, prep);
      }
    }

    /** job.c:1057-1060 */
    method FinalizeUnlessManual(job: Id, prep: Id -> int)
      requires !aborting && members != [] && Lists(members, jobs) && job in jobs && AllPending(jobs)
      modifies this
      ensures Valid() && jobs.Keys == old(jobs).Keys && jobs[job].borrowed == old(jobs[job].borrowed)
      ensures members == [] <==> NoneManual(old(jobs))
      ensures members == [] ==> AllEndedAs(jobs, FirstFailing(old(members), prep), job)
      ensures members != [] ==> members == old(members) && jobs == old(jobs)
    {
      NothingCommitted(jobs, members);
      var manual := NeedsFinalize();
      if !manual {
        DoFinalize(job, prep);
        GroupEnded(old(jobs), jobs, FirstFailing(old(members), prep), job, aborting);
        assert KeptAt(old(jobs), jobs, job);
      }
    }

    /** job_exit and job_completed_locked (job.c:1064-1096).  A member that failed or was cancelled by force
        brings the whole group down.  One that succeeded waits for the others, or, as the last one, ends
        the group unless somebody wants to finalise it by hand. */
    method JobExit(job: Id, prep: Id -> int)
      requires Valid() && members != [] && job in jobs && jobs[job].exiting
      modifies this
      ensures Valid() && jobs.Keys == old(jobs).Keys
      ensures !Blameless(old(jobs[job])) ==> members == [] && AllAborted(jobs)
      ensures Blameless(old(jobs[job])) ==>
        (members == [] <==> LastToComplete(old(jobs), job) && NoneManual(old(jobs)))
      ensures Blameless(old(jobs[job])) && members == [] ==> Verdicts(jobs, FirstFailing(old(members), prep), job)
      ensures members != [] ==> members == old(members) && jobs == AfterSuccess(old(jobs), job)
    {
      if Blameless(jobs[job]) {
        ExitSucceeded(job, prep);
      } else {
        ExitFailed(job);
      }
    }

    /** The branch for a job without an error, with the reference that job_exit holds. */
    method ExitSucceeded(job: Id, prep: Id -> int)
      requires Valid() && members != [] && job in jobs && jobs[job].exiting && Blameless(jobs[job])
      modifies this
      ensures Valid() && jobs.Keys == old(jobs).Keys
      ensures members == [] <==> LastToComplete(old(jobs), job) && NoneManual(old(jobs))
      ensures members == [] ==> Verdicts(jobs, FirstFailing(old(members), prep), job)
      ensures members != [] ==> members == old(members) && jobs == AfterSuccess(old(jobs), job)
    {
      ExitRef(jobs, members, job);
      jobs := Reffed(jobs, job);
      TxnSuccess(job, prep);
      ExitUnref(old(jobs), jobs, members, aborting, job, FirstFailing(old(members), prep));
      jobs := Unreffed(jobs, job);
    }

    /** The branch for a job with an error. */
    method ExitFailed(job: Id)
      requires Valid() && members != [] && job in jobs && jobs[job].exiting && !Blameless(jobs[job])
      modifies this
      ensures Valid() && jobs.Keys == old(jobs).Keys && members == [] && AllAborted(jobs)
    {
      ExitRef(jobs, members, job);
      jobs := Reffed(jobs, job);
      ExitFails(jobs, members, job);
      jobs := jobs[job := UpdateRc(jobs[job].(exiting := false))];
      ghost var failed := jobs;
      TxnAbort(job);
      FailedUnref(failed, jobs, aborting, job);
      jobs := Unreffed(jobs, job);
    }

    /** job_cancel_locked (job.c:1137-1163).  `force` is what the driver's cancel callback answers. */
    method JobCancel(job: Id, force: bool)
      requires Valid() && job in jobs && jobs[job].status != Null
      modifies this
      ensures Valid() && jobs.Keys == old(jobs).Keys
      ensures old(members) != [] && EndsGroup(old(jobs[job]), force) ==> members == [] && AllAborted(jobs)
      ensures old(members) != [] && !EndsGroup(old(jobs[job]), force) ==>
        members == old(members) && jobs == old(jobs)[job := CancelAsync(old(jobs[job]), force)]
      ensures old(members) == [] ==> members == [] && old(jobs[job].status) == Concluded
      ensures old(members) == [] ==> jobs == old(jobs)[job := Dismissed(old(jobs[job]))]
    {
      if members == [] {
        DismissOk(jobs, job, aborting);
      } else {
        CancelOk(jobs, members, job, force);
      }
      if jobs[job].status == Concluded {
        jobs := jobs[job := Dismissed(jobs[job])];
        return;
      }
      jobs := jobs[job := CancelAsync(jobs[job], force)];
      if jobs[job].deferred && jobs[job].force {
        TxnAbort(job);
        GroupFallen(jobs, job, aborting);
      }
    }

    /** job_user_cancel_locked (job.c:1165-1171) */
    method UserCancel(job: Id, force: bool) returns (ok: bool)
      requires Valid() && job in jobs
      modifies this
      ensures Valid() && jobs.Keys == old(jobs).Keys
      ensures ok <==> Accepts(Cancel, old(jobs[job].status))
      ensures !ok ==> jobs == old(jobs) && members == old(members)
      ensures ok && EndsGroup(old(jobs[job]), force) ==> members == [] && AllAborted(jobs)
    {
      ok := Accepts(Cancel, jobs[job].status);
      if ok {
        AcceptedIsMember(jobs, members, aborting, job);
        JobCancel(job, force);
      }
    }

    /** job_finalize_locked (job.c:1010-1017) */
    method JobFinalize(job: Id, prep: Id -> int) returns (ok: bool)
      requires Valid() && job in jobs
      modifies this
      ensures Valid() && jobs.Keys == old(jobs).Keys
      ensures ok <==> Accepts(Finalize, old(jobs[job].status))
      ensures !ok ==> jobs == old(jobs) && members == old(members)
      ensures ok ==> members == []
      ensures ok ==> Verdicts(jobs, FirstFailing(old(members), prep), job)
    {
      ok := Accepts(Finalize, jobs[job].status);
      if ok {
        FinalizeOk(jobs, members, aborting, job);
        ghost var pending := jobs;
        DoFinalize(job, prep);
        GroupEnded(pending, jobs, FirstFailing(old(members), prep), job, aborting);
        forall m | m in jobs ensures VerdictAt(jobs, FirstFailing(old(members), prep), job, m) {
          assert EndedAs(jobs, FirstFailing(old(members), prep), job, m);
        }
      }
    }

    /** job_dismiss_locked (job.c:774-785) */
    method JobDismiss(job: Id) returns (ok: bool)
      requires Valid() && job in jobs
      modifies this
      ensures Valid() && jobs.Keys == old(jobs).Keys
      ensures ok <==> Accepts(Dismiss, old(jobs[job].status))
      ensures jobs == (if ok then old(jobs)[job := Dismissed(old(jobs[job]))] else old(jobs)) && members == old(members)
    {
      ok := Accepts(Dismiss, jobs[job].status);
      if ok {
        ConcludedIsFinal(jobs, members, aborting, job);
        DismissOk(jobs, job, aborting);
        jobs := jobs[job := Dismissed(jobs[job])];
      }
    }

    /** A step of a job's coroutine. */
    method RunStep(job: Id, s: CoStep) returns (ok: bool)
      requires Valid() && job in jobs
      modifies this
      ensures Valid() && jobs.Keys == old(jobs).Keys && members == old(members)
      ensures ok <==> old(members) != [] && CanStep(old(jobs[job]), s)
      ensures jobs == if ok then old(jobs)[job := Stepped(old(jobs[job]), s)] else old(jobs)
    {
      ok := members != [] && CanStep(jobs[job], s);
      if ok {
        assert QuietAt(jobs, job);
        StepKeeps(jobs[job], s);
        QuietChange(jobs, members, job, Stepped(jobs[job], s));
        jobs := jobs[job := Stepped(jobs[job], s)];
      }
    }

    /** Any run: whatever the coroutines, drivers and users do, in whatever order, a commit callback is
        called only if every member returned 0 from run and reached PENDING; and no assertion fails. */
    method Run(events: seq<Event>)
      requires Valid()
      modifies this
      ensures Valid() && CommitOnlyAfterSuccess(jobs) && jobs.Keys == old(jobs).Keys
    {
      for i := 0 to |events|
        invariant Valid() && jobs.Keys == old(jobs).Keys
      {
        var e := events[i];
        if e.job in jobs {
          Handle(e);
        }
      }
    }

    method Handle(e: Event)
      requires Valid() && e.job in jobs
      modifies this
      ensures Valid() && jobs.Keys == old(jobs).Keys
    {
      match e {
        case OnStep(job, s) =>
          var _ := RunStep(job, s);
        case OnExit(job, prep) =>
          if members != [] && jobs[job].exiting {
            JobExit(job, prep);
          }
        case OnCancel(job, force) =>
          if jobs[job].status != Null {
            JobCancel(job, force);
          }
        case OnUserCancel(job, force) =>
          var _ := UserCancel(job, force);
        case OnFinalize(job, prep) =>
          var _ := JobFinalize(job, prep);
        case OnDismiss(job) =>
          var _ := JobDismiss(job);
      }
    }
  }

  /** Cancelling a job that has been deferred to the main loop ends the group if the job is, by this or an
      earlier request, cancelled by force. */
  predicate EndsGroup(j: Job, force: bool) {
    j.deferred && (force || j.force)
  }

  datatype Event =
    | OnStep(job: Id, s: CoStep)
    | OnExit(job: Id, prep: Id -> int)
    | OnCancel(job: Id, force: bool)
    | OnUserCancel(job: Id, force: bool)
    | OnFinalize(job: Id, prep: Id -> int)
    | OnDismiss(job: Id)

  function Reffed(jobs: JobMap, job: Id): JobMap
    requires job in jobs
  {
    jobs[job := Ref(jobs[job])]
  }

  function Unreffed(jobs: JobMap, job: Id): JobMap
    requires job in jobs && (jobs[job].refcnt == 1 ==> jobs[job].status == Null && !jobs[job].inTxn)
  {
    jobs[job := Unref(jobs[job])]
  }

  lemma ExitRef(jobs: JobMap, members: seq<Id>, job: Id)
    requires members != [] && GroupOk(jobs, members, false) && job in jobs && jobs[job].exiting
    ensures var jobs' := Reffed(jobs, job);
      && GroupOk(jobs', members, false) && jobs'.Keys == jobs.Keys && jobs'[job].borrowed >= 1
      && jobs'[job].exiting && (Blameless(jobs'[job]) <==> Blameless(jobs[job]))
      && (LastToComplete(jobs', job) <==> LastToComplete(jobs, job)) && (NoneManual(jobs') <==> NoneManual(jobs))
  {
    assert QuietAt(jobs, job);
    RefKeeps(jobs[job]);
    SameGroup(jobs, job, Ref(jobs[job]));
    QuietChange(jobs, members, job, Ref(jobs[job]));
  }

  lemma ExitUnref(jobs0: JobMap, jobs: JobMap, members: seq<Id>, aborting: bool, job: Id, failing: Option<Id>)
    requires GroupOk(jobs, members, aborting) && job in jobs && job in jobs0 && jobs[job].borrowed >= 1
    requires members == [] ==> AllEndedAs(jobs, failing, job)
    requires members != [] ==> jobs == AfterSuccess(Reffed(jobs0, job), job)
    ensures jobs[job].refcnt == 1 ==> jobs[job].status == Null && !jobs[job].inTxn
    ensures GroupOk(Unreffed(jobs, job), members, aborting) && Unreffed(jobs, job).Keys == jobs.Keys
    ensures members == [] ==> Verdicts(Unreffed(jobs, job), failing, job)
    ensures members != [] ==> Unreffed(jobs, job) == AfterSuccess(jobs0, job)
  {
    GroupUnref(jobs, members, aborting, job);
    if members == [] {
      VerdictsAfterUnref(jobs, failing, job);
    } else {
      SuccessUnref(jobs0, jobs, job);
    }
  }

  lemma SuccessUnref(jobs0: JobMap, jobs: JobMap, job: Id)
    requires job in jobs0 && jobs == AfterSuccess(Reffed(jobs0, job), job)
    requires job in jobs && (jobs[job].refcnt == 1 ==> jobs[job].status == Null && !jobs[job].inTxn)
    ensures Unreffed(jobs, job) == AfterSuccess(jobs0, job)
  {
    SameGroup(jobs0, job, Ref(jobs0[job]));
    UnrefBack(jobs0[job]);
    var r := jobs0[job := Ref(jobs0[job])];
    var w, w0 := r[job := Waits(r[job])], jobs0[job := Waits(jobs0[job])];
    assert w[job := Waits(jobs0[job])] == w0;
    if LastToComplete(jobs0, job) {
      assert jobs == AllPend(w);
      AllPendAt(w, job, Waits(jobs0[job]));
    }
  }

  lemma UnrefBack(j: Job)
    ensures Waits(Ref(j)).(refcnt := j.refcnt, borrowed := j.borrowed) == Waits(j)
    ensures Pends(Waits(Ref(j))).(refcnt := j.refcnt, borrowed := j.borrowed) == Pends(Waits(j))
  {}

  lemma AllPendAt(jobs: JobMap, job: Id, j: Job)
    requires job in jobs
    ensures AllPend(jobs)[job := Pends(j)] == AllPend(jobs[job := j])
  {}

  lemma FailedUnref(jobs0: JobMap, jobs: JobMap, aborting: bool, job: Id)
    requires job in jobs0 && jobs0[job].borrowed >= 1 && Kept(jobs0, jobs) && FallenBut(jobs, [], job, false)
    ensures job in jobs && (jobs[job].refcnt == 1 ==> jobs[job].status == Null && !jobs[job].inTxn)
    ensures GroupOk(Unreffed(jobs, job), [], aborting) && Unreffed(jobs, job).Keys == jobs0.Keys
    ensures AllAborted(Unreffed(jobs, job))
  {
    assert KeptAt(jobs0, jobs, job);
    GroupFallen(jobs, job, aborting);
    GroupUnref(jobs, [], aborting, job);
  }

  lemma ExitFails(jobs: JobMap, members: seq<Id>, job: Id)
    requires members != [] && GroupOk(jobs, members, false) && job in jobs && jobs[job].exiting && !Blameless(jobs[job])
    ensures Allowed(jobs[job].status, Aborting) && jobs[job].force ==> jobs[job].cancelled
    ensures Allowed(jobs[job].status, Aborting)
    ensures var j := UpdateRc(jobs[job].(exiting := false));
      && AllEnding(jobs[job := j]) && Doomed(j, Blameless(j)) && !Blameless(j) && j.borrowed == jobs[job].borrowed
  {
    assert QuietAt(jobs, job);
    EndingBut(jobs, job, UpdateRc(jobs[job].(exiting := false)));
  }

  lemma VerdictsAfterUnref(jobs: JobMap, failing: Option<Id>, job: Id)
    requires AllEndedAs(jobs, failing, job) && job in jobs
    requires jobs[job].refcnt == 1 ==> jobs[job].status == Null && !jobs[job].inTxn
    ensures Verdicts(jobs[job := Unref(jobs[job])], failing, job)
  {
    var jobs' := jobs[job := Unref(jobs[job])];
    forall m | m in jobs' ensures VerdictAt(jobs', failing, job, m) {
      assert EndedAs(jobs, failing, job, m);
    }
  }

  lemma DismissOk(jobs: JobMap, job: Id, aborting: bool)
    requires GroupOk(jobs, [], aborting) && job in jobs && jobs[job].status != Null
    ensures jobs[job].status == Concluded && GroupOk(jobs[job := Dismissed(jobs[job])], [], aborting)
  {
    assert FinalAt(jobs, job);
    var jobs' := jobs[job := Dismissed(jobs[job])];
    forall m | m in jobs' ensures FinalAt(jobs', m) {
      assert FinalAt(jobs, m);
    }
    forall m | m in jobs'
      ensures HasCommitted(jobs', m) <==> HasCommitted(jobs, m)
      ensures HasSucceeded(jobs', m) <==> HasSucceeded(jobs, m)
    {}
  }

  lemma CancelOk(jobs: JobMap, members: seq<Id>, job: Id, force: bool)
    requires members != [] && GroupOk(jobs, members, false) && job in jobs
    ensures var j := CancelAsync(jobs[job], force);
      && jobs[job].status != Concluded && jobs[job].status != Null
      && (j.deferred && j.force ==> AllEnding(jobs[job := j]) && Doomed(j, Blameless(j)) && !Blameless(j))
      && (!(j.deferred && j.force) ==> GroupOk(jobs[job := j], members, false))
  {
    assert QuietAt(jobs, job);
    var j := CancelAsync(jobs[job], force);
    EndingBut(jobs, job, j);
    if !(j.deferred && j.force) && Live(jobs[job].status) {
      QuietChange(jobs, members, job, j);
    } else if !(j.deferred && j.force) {
      assert jobs[job := j] == jobs;
    }
  }

  lemma AcceptedIsMember(jobs: JobMap, members: seq<Id>, aborting: bool, job: Id)
    requires GroupOk(jobs, members, aborting) && job in jobs && Accepts(Cancel, jobs[job].status)
    ensures members != []
  {
    assert members == [] ==> FinalAt(jobs, job);
  }

  lemma FinalizeOk(jobs: JobMap, members: seq<Id>, aborting: bool, job: Id)
    requires GroupOk(jobs, members, aborting) && job in jobs && jobs[job].status == Pending
    ensures members != [] && !aborting && AllPending(jobs)
  {
    assert members == [] ==> FinalAt(jobs, job);
    assert IsPending(jobs, job);
    forall m | m in jobs ensures PendingAt(jobs, m) {
      assert QuietAt(jobs, m) && IsPending(jobs, m);
    }
  }

  lemma ConcludedIsFinal(jobs: JobMap, members: seq<Id>, aborting: bool, job: Id)
    requires GroupOk(jobs, members, aborting) && job in jobs && jobs[job].status == Concluded
    ensures members == []
  {
    assert members != [] ==> QuietAt(jobs, job);
  }

  /** A group of two in which the second job has succeeded and waits for the first. */
  method SecondWaits(prep: Id -> int) returns (t: JobTxn)
    ensures fresh(t) && t.Valid() && t.members == [1, 2] && t.jobs.Keys == {1, 2}
    ensures t.jobs[1] == Started({}, {}, 1) && CompletedAt(t.jobs, 2) && NoneManual(t.jobs)
  {
    t := new JobTxn([1, 2], {}, {});
    var ok := t.RunStep(2, Return(0));
    assert !CompletedAt(t.jobs, 1);
    t.JobExit(2, prep);
    forall m | m in t.jobs ensures AutoAt(t.jobs, m) {}
  }

  /** A group that does not end as one: both jobs succeed, then the driver of the one that completed first
      fails to prepare.  It aborts, and the one that completed last commits. */
  method MixedGroup() returns (t: JobTxn)
    ensures 1 in t.jobs && t.jobs[1].verdict == Committed
    ensures 2 in t.jobs && t.jobs[2].verdict == Aborted
  {
    var prep: Id -> int := m => if m == 2 then -5 else 0;
    t := SecondWaits(prep);
    ghost var waiting := t.jobs;
    var ok := t.RunStep(1, Return(0));
    SameGroup(waiting, 1, t.jobs[1]);
    assert CompletedAt(t.jobs, 2);
    t.JobExit(1, prep);
    NotAllOrNothing(prep);
    assert VerdictAt(t.jobs, FirstFailing([1, 2], prep), 1, 1) && VerdictAt(t.jobs, FirstFailing([1, 2], prep), 1, 2);
  }

  lemma SuccessIsQuiet(j: Job)
    requires Quiet(j) && j.exiting && Blameless(j)
    ensures Live(j.status) && Allowed(j.status, Waiting)
    ensures Waits(j) == Transition(j.(exiting := false), Waiting) && Quiet(Waits(j))
  {}

  ghost predicate PendedAt(jobs: JobMap, jobs': JobMap, members: seq<Id>, i: nat, m: Id)
    requires i <= |members|
  {
    m in jobs && m in jobs' && jobs'[m] == if m in members[..i] then Pends(jobs[m]) else jobs[m]
  }

  ghost predicate PendedUpTo(jobs: JobMap, jobs': JobMap, members: seq<Id>, i: nat)
    requires i <= |members|
  {
    jobs'.Keys == jobs.Keys &&
    forall m {:trigger PendedAt(jobs, jobs', members, i, m)} :: m in jobs ==> PendedAt(jobs, jobs', members, i, m)
  }

  lemma PendOneMore(jobs: JobMap, jobs': JobMap, members: seq<Id>, i: nat)
    requires i < |members| && Distinct(members) && members[i] in jobs && PendedUpTo(jobs, jobs', members, i)
    requires jobs[members[i]].status == Waiting
    ensures members[i] in jobs' && jobs'[members[i]].status == Waiting
    ensures PendedUpTo(jobs, jobs'[members[i] := Transition(jobs'[members[i]], Pending)], members, i + 1)
  {
    var next := members[i];
    assert members[..i + 1] == members[..i] + [next];
    assert next !in members[..i];
    assert PendedAt(jobs, jobs', members, i, next);
    var jobs'' := jobs'[next := Transition(jobs'[next], Pending)];
    forall m | m in jobs ensures PendedAt(jobs, jobs'', members, i + 1, m) {
      assert PendedAt(jobs, jobs', members, i, m);
    }
  }

  lemma PendingNow(jobs: JobMap, jobs': JobMap, members: seq<Id>)
    requires Lists(members, jobs) && AllQuiet(jobs) && jobs'.Keys == jobs.Keys
    requires forall m :: m in jobs ==> jobs[m].status == Waiting && jobs'[m] == Transition(jobs[m], Pending)
    ensures AllPending(jobs')
  {
    forall m | m in jobs ensures PendingAt(jobs', m) {
      assert QuietAt(jobs, m);
    }
  }

  lemma AllWaiting(jobs: JobMap)
    requires AllQuiet(jobs) && EveryoneCompleted(jobs)
    requires forall m {:trigger IsPending(jobs, m)} :: !IsPending(jobs, m)
    ensures forall m :: m in jobs ==> jobs[m].status == Waiting
  {
    forall m | m in jobs ensures jobs[m].status == Waiting {
      assert QuietAt(jobs, m) && CompletedAt(jobs, m) && !IsPending(jobs, m);
    }
  }

  lemma NothingCommitted(jobs: JobMap, members: seq<Id>)
    requires AllPending(jobs) && Lists(members, jobs) && members != []
    ensures GroupOk(jobs, members, false)
  {
    forall m | m in jobs ensures QuietAt(jobs, m) && IsPending(jobs, m) && !HasCommitted(jobs, m) {
      assert PendingAt(jobs, m);
    }
  }
}
