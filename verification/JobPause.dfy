/** The pause accounting of a block job (job.c, blockjob.c): every reason to be paused is counted once, so
    that nobody takes away a pause that somebody else asked for.

    The job lock is given up while the driver's user_resume runs.  Meanwhile the main loop, which pauses,
    resumes and cancels, is busy with that, but the job may meet an I/O error and its children may be
    drained. */
module JobPause {
  import opened BlockGraph
  import opened Jobs

  datatype IoStatus = IoOk | IoFailed | IoNoSpace

  datatype OnError = OnEnospc | OnAuto | OnStop | OnReport | OnIgnore

  datatype ErrorAction = Report | Ignore | Stop

  /** How far a resume, or a cancel that takes away the user's pause, has come; only the first wakes the
      job. */
  datatype Resuming = No | BeforeReset(wakes: bool) | AfterReset(wakes: bool)

  class BlockJob {
    var status: Status
    var started: bool
    var pauseCount: int
    var userPaused: bool
    var iostatus: IoStatus
    var drained: set<Edge>       // the job's edges with an open drained section

    var resuming: Resuming
    ghost var late: bool         // the job stopped on an error since the reset of the resume in progress
    ghost var lost: bool         // so it did in the last resume, and has not been paused for the user since

    /** The ledger: not started, paused by the user, and one for each drained child.  What is cleared at the
        end of a resume is set until then. */
    ghost predicate Valid()
      reads this
    {
      && pauseCount == (if started then 0 else 1) + (if userPaused then 1 else 0) + |drained|
      && (!resuming.No? ==> userPaused)
      && (resuming.AfterReset? ==> (late <==> iostatus != IoOk))
      && (lost <==> !Shown())
    }

    /** An I/O error is kept only while the job is paused for the user to see it. */
    predicate Shown()
      reads this
    {
      iostatus != IoOk ==> userPaused
    }

    /** job_create (job.c:414-441) */
    constructor ()
      ensures Valid() && !started && !userPaused && drained == {} && status == Created && iostatus == IoOk
      ensures resuming == No
    {
      status, started, pauseCount, userPaused, iostatus, drained := Created, false, 1, false, IoOk, {};
      resuming, late, lost := No, false, false;
    }

    /** job_start (job.c:1121-1135): the job runs at once exactly if nobody else wants it paused. */
    method Start()
      requires Valid() && !started && status == Created
      modifies this`started, this`pauseCount, this`status
      ensures Valid() && started && status == Running
      ensures pauseCount == 0 <==> !userPaused && drained == {}
    {
      started := true;
      pauseCount := pauseCount - 1;
      status := Running;
    }

    /** job_pause_locked (job.c:690-696) */
    method JobPause()
      modifies this`pauseCount
      ensures pauseCount == old(pauseCount) + 1
    {
      pauseCount := pauseCount + 1;
    }

    /** job_resume_locked (job.c:704-714): its assertion is the precondition. */
    method JobResume() returns (kick: bool)
      requires pauseCount > 0
      modifies this`pauseCount
      ensures pauseCount == old(pauseCount) - 1 && (kick <==> pauseCount == 0)
    {
      pauseCount := pauseCount - 1;
      kick := pauseCount == 0;
    }

    /** child_job_drained_begin (blockjob.c:93-97) */
    method DrainedBegin(e: Edge)
      requires Valid() && e !in drained
      modifies this`pauseCount, this`drained
      ensures Valid() && drained == old(drained) + {e}
    {
      drained := drained + {e};
      JobPause();
    }

    /** child_job_drained_end (blockjob.c:123-127): the job goes on exactly if this was the last reason. */
    method DrainedEnd(e: Edge) returns (kick: bool)
      requires Valid() && e in drained
      modifies this`pauseCount, this`drained
      ensures Valid() && drained == old(drained) - {e}
      ensures kick <==> started && !userPaused && drained == {}
    {
      drained := drained - {e};
      kick := JobResume();
    }

    /** job_user_pause_locked (job.c:722-733) */
    method UserPause() returns (ok: bool)
      requires Valid() && resuming.No?
      modifies this`pauseCount, this`userPaused, this`lost
      ensures Valid() && (ok <==> Accepts(Pause, status) && !old(userPaused))
      ensures userPaused <==> old(userPaused) || ok
    {
      if !Accepts(Pause, status) || userPaused {
        return false;
      }
      userPaused, lost := true, false;
      JobPause();
      ok := true;
    }

    /** block_job_iostatus_reset_locked (blockjob.c:555-563): its assertion is the precondition. */
    method IostatusReset()
      requires Valid() && Shown()
      modifies this`iostatus
      ensures iostatus == IoOk
    {
      if iostatus == IoOk {
        return;
      }
      assert userPaused && pauseCount > 0;
      iostatus := IoOk;
    }

    /** qmp_cont (monitor/qmp-cmds.c:96-101) resets all jobs.  The assertion fails exactly if an error came too
        late for the last resume. */
    method ContReset() returns (ok: bool)
      requires Valid() && resuming.No?
      modifies this`iostatus
      ensures Valid() && (ok <==> !lost) && (iostatus == if ok then IoOk else old(iostatus))
    {
      ok := Shown();
      if ok {
        IostatusReset();
      }
    }

    /** job_user_resume_locked up to the callback (job.c:740-752) */
    method BeginResume() returns (ok: bool)
      requires Valid() && resuming.No?
      modifies this`resuming
      ensures Valid() && (ok <==> Accepts(Resume, status) && userPaused)
      ensures resuming == if ok then BeforeReset(true) else No
    {
      if !userPaused || pauseCount <= 0 {
        return false;
      }
      if !Accepts(Resume, status) {
        return false;
      }
      resuming := BeforeReset(true);
      ok := true;
    }

    /** job_cancel_async_locked up to the callback (job.c:900-903) */
    method BeginCancel()
      requires Valid() && resuming.No?
      modifies this`resuming
      ensures Valid() && resuming == if userPaused then BeforeReset(false) else No
    {
      if userPaused {
        resuming := BeforeReset(false);
      }
    }

    /** block_job_user_resume (blockjob.c:565-576), whose assertion holds */
    method DriverResume()
      requires Valid() && resuming.BeforeReset?
      modifies this`iostatus, this`resuming, this`late
      ensures Valid() && iostatus == IoOk && resuming == AfterReset(old(resuming).wakes) && !late
    {
      IostatusReset();
      resuming, late := AfterReset(resuming.wakes), false;
    }

    /** job.c:756-757 and 907-909: the user's pause is taken away and no other; an error is left behind exactly
        if it came after the reset. */
    method FinishResume() returns (kick: bool)
      requires Valid() && resuming.AfterReset?
      modifies this`pauseCount, this`userPaused, this`resuming, this`lost
      ensures Valid() && !userPaused && resuming == No
      ensures Shown() <==> !old(late)
      ensures kick <==> old(resuming).wakes && started && drained == {}
    {
      userPaused, lost := false, late;
      if resuming.wakes {
        kick := JobResume();
      } else {
        assert pauseCount > 0;
        pauseCount, kick := pauseCount - 1, false;
      }
      resuming := No;
    }

    /** A resume that nothing comes in between of. */
    method UserResume() returns (ok: bool, kick: bool)
      requires Valid() && resuming.No?
      modifies this`pauseCount, this`userPaused, this`iostatus, this`resuming, this`late, this`lost
      ensures Valid() && resuming.No? && (ok <==> Accepts(Resume, status) && old(userPaused))
      ensures userPaused <==> old(userPaused) && !ok
      ensures ok ==> iostatus == IoOk && (kick <==> started && drained == {})
      ensures !ok ==> iostatus == old(iostatus)
    {
      ok := BeginResume();
      if !ok {
        return false, false;
      }
      DriverResume();
      kick := FinishResume();
    }

    /** The same for a cancel. */
    method CancelUnpauses()
      requires Valid() && resuming.No?
      modifies this`pauseCount, this`userPaused, this`iostatus, this`resuming, this`late, this`lost
      ensures Valid() && resuming.No? && !userPaused
      ensures iostatus == if old(userPaused) then IoOk else old(iostatus)
    {
      BeginCancel();
      if !resuming.No? {
        DriverResume();
        var _ := FinishResume();
      }
    }

    /** block_job_error_action (blockjob.c:578-622) */
    method OnIoError(onErr: OnError, noSpace: bool) returns (action: ErrorAction)
      requires Valid()
      modifies this`pauseCount, this`userPaused, this`iostatus, this`late, this`lost
      ensures Valid()
      ensures action == Stop ==> !lost && (resuming.AfterReset? ==> late)
      ensures action != Stop ==> late == old(late) && lost == old(lost)
      ensures action == Stop <==> onErr == OnStop || ((onErr == OnEnospc || onErr == OnAuto) && noSpace)
      ensures action == Ignore <==> onErr == OnIgnore
      ensures action == Stop ==> userPaused && iostatus != IoOk
      ensures action == Stop && old(iostatus) != IoOk ==> iostatus == old(iostatus)
      ensures action == Stop && old(iostatus) == IoOk ==> iostatus == if noSpace then IoNoSpace else IoFailed
      ensures action != Stop ==>
        userPaused == old(userPaused) && iostatus == old(iostatus) && pauseCount == old(pauseCount)
    {
      match onErr {
        case OnEnospc => action := if noSpace then Stop else Report;
        case OnAuto => action := if noSpace then Stop else Report;
        case OnStop => action := Stop;
        case OnReport => action := Report;
        case OnIgnore => action := Ignore;
      }
      if action == Stop {
        if !userPaused {
          JobPause();
          userPaused := true;
        }
        if iostatus == IoOk {
          iostatus := if noSpace then IoNoSpace else IoFailed;
        }
        late, lost := true, false;
      }
    }

    /** Any run of these operations keeps the ledger, and no assertion on the way fails but the one of a reset
        after an error that came too late for the resume before. */
    method Run(events: seq<PauseEvent>) returns (ok: bool)
      requires Valid()
      modifies this
      ensures Valid() && (!ok ==> lost)
    {
      for i := 0 to |events|
        invariant Valid()
      {
        ok := Handle(events[i]);
        if !ok {
          return;
        }
      }
      ok := true;
    }

    /** What the main loop does has to wait for a resume in progress; the rest happens at any time. */
    method Handle(e: PauseEvent) returns (ok: bool)
      requires Valid()
      modifies this
      ensures Valid() && (!ok ==> lost)
    {
      ok := true;
      match e {
        case DoStart =>
          if !started && status == Created && resuming.No? {
            Start();
          }
        case DoDrain(edge) =>
          if edge !in drained {
            DrainedBegin(edge);
          }
        case DoUndrain(edge) =>
          if edge in drained {
            var _ := DrainedEnd(edge);
          }
        case DoUserPause =>
          if resuming.No? {
            var _ := UserPause();
          }
        case DoUserResume =>
          if resuming.No? {
            var _ := BeginResume();
          }
        case DoCancel =>
          if resuming.No? {
            BeginCancel();
          }
        case DoDriverResume =>
          if resuming.BeforeReset? {
            DriverResume();
          }
        case DoFinishResume =>
          if resuming.AfterReset? {
            var _ := FinishResume();
          }
        case DoCont =>
          if resuming.No? {
            ok := ContReset();
          }
        case DoIoError(onErr, noSpace) =>
          var _ := OnIoError(onErr, noSpace);
        case DoChangeStatus(s) =>
          status := s;
      }
    }
  }

  /** A job that stops on an error after the reset and before the end of a resume: the reset in qmp_cont
      fails its assertion. */
  method LateError() returns (ok: bool)
    ensures !ok
  {
    var job := new BlockJob();
    job.Start();
    var paused := job.UserPause();
    var resumed := job.BeginResume();
    job.DriverResume();
    var _ := job.OnIoError(OnStop, false);
    var _ := job.FinishResume();
    ok := job.ContReset();
  }

  datatype PauseEvent =
    | DoStart | DoDrain(edge: Edge) | DoUndrain(edge: Edge) | DoUserPause | DoUserResume | DoCancel
    | DoDriverResume | DoFinishResume | DoCont
    | DoIoError(onErr: OnError, noSpace: bool) | DoChangeStatus(s: Status)
}
