/** The calls of module ConvertParts in a run of module ConvertRun: what they assert holds whenever they are
    made, and what they return is one of the steps of the run. */
module ConvertCalls {
  import opened Align
  import opened Common
  import opened ConvertParts
  import opened ConvertRun

  /** What convert_iteration_sectors, convert_co_read and convert_co_write ask of coroutine `i` when it
      calls them. */
  ghost predicate Callable(c: Config, s: State, i: nat)
    requires Valid(c) && i in s.co
  {
    var x := s.co[i];
    && (x.pc == Querying ==>
         && s.sectorNum < Total(c) && CacheOk(c, s.sectorNum, s.status, s.nextStatus)
         && (c.compressed ==> Aligned(s.sectorNum, c.clusterSectors)))
    && (x.pc == Reading ==> End(x) <= Total(c) && x.n <= c.bufSectors)
    && (x.pc == Writing && x.cur < End(x) ==>
         && End(x) <= Total(c) <= |s.target|
         && (x.status.Data? ==> |Rest(x)| == End(x) - x.cur)
         && (if x.status.Backing? then c.targetHasBacking else c.hasZeroInit ==> !c.targetHasBacking))
  }

  /** In every reachable state, also after errors, every coroutine may make the call that it is at. */
  lemma CallsAreAllowed(c: Config, tr: seq<State>, k: nat, i: nat)
    requires ConvertRun.Run(c, tr) && k < |tr| && i in tr[k].co
    ensures Callable(c, tr[k], i)
  {
    RunInvAt(c, tr, k);
    assert LockOk(tr[k], i) && CoOk(c, tr[k].sectorNum, tr[k].co[i]);
  }

  /** qemu-img.c:1998-2015 */
  method QueryStep(c: Config, s: State, i: nat) returns (s': State)
    requires Valid(c) && i in s.co && s.co[i].pc == Querying && Callable(c, s, i)
    ensures Claim(c, s, s', i)
  {
    var state := new ImgConvertState(c);
    state.status, state.nextStatus := s.status, s.nextStatus;
    var n := state.IterationSectors(s.sectorNum);
    if n < 0 {
      s' := Put(s.(lock := None, ret := Error(n)), i, s.co[i].(pc := Finished));
      assert QueryFailed(c, s, s', i, n);
    } else {
      var x := Co(Deciding, s.sectorNum, n, s.sectorNum, state.status, false, []);
      s' := s.(lock := None, sectorNum := s.sectorNum + n, status := state.status, nextStatus := state.nextStatus);
      s' := Put(s', i, x);
      assert Claimed(c, s, s', i, n, state.status, state.nextStatus);
    }
  }

  /** qemu-img.c:2025-2031 */
  method ReadStep(c: Config, s: State, i: nat) returns (ghost s': State)
    requires Valid(c) && i in s.co && s.co[i].pc == Reading && Callable(c, s, i)
    ensures ReadDone(c, s, s', i)
  {
    var x := s.co[i];
    var ret, buf, bad := CoRead(c, x.start, x.n);
    if ret < 0 {
      s' := Put(s.(ret := Error(ret)), i, x.(pc := Ordering));
      assert ReadFailed(c, s, s', i, ret);
    } else {
      s' := Put(s.(bad := s.bad + bad), i, x.(pc := Ordering, buf := buf));
      assert ReadLoaded(c, s, s', i, buf, bad);
    }
  }

  /** qemu-img.c:1880-1936: one pass of the loop, of which the request succeeds or fails having changed the
      target to `failed`. */
  method WriteStep(c: Config, s: State, i: nat, fails: bool, failed: seq<Sector>) returns (s': State)
    requires Valid(c) && i in s.co && s.co[i].pc == Writing && s.co[i].cur < End(s.co[i]) && Callable(c, s, i)
    requires |failed| == |s.target|
    ensures WriteOne(c, s, s', i)
  {
    var x := s.co[i];
    var m, request := ChooseRequest(c, x.status, Rest(x), x.cur, End(x) - x.cur);
    if fails && request != Skip {
      s' := Put(s.(ret := Error(-1), target := failed), i, x.(pc := Finishing));
      assert WriteFailed(c, s, s', i, m, request);
    } else {
      s' := Put(s.(target := Sent(s.target, x, m, request)), i, x.(cur := x.cur + m));
      assert WriteDone(c, s, s', i, m, request);
    }
  }
}
