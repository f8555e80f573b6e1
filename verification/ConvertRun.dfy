/** The copy phase of `qemu-img convert`: a pool of coroutines that take chunks of the concatenated
    sources, read them and write them to the target, one after the other if writes are kept in order.

    A step is what one coroutine does between two points at which it may yield.  The outcome of every
    request, the answers to status queries and the schedule are arbitrary within the contracts of
    module ConvertParts. */
module ConvertRun {
  import opened Align
  import opened Common
  import opened ConvertParts

  datatype Pc =
    | NotStarted
    | AtLoop        // about to take the lock
    | Querying      // has the lock, in convert_iteration_sectors
    | Deciding      // `retry`: about to decide between copy offloading and read and write
    | Reading       // in convert_co_read
    | Ordering      // about to test whether it is this chunk's turn
    | Parked        // yielded until the chunk before has been written
    | Copying       // in convert_co_copy_range
    | Writing       // in convert_co_write
    | Finishing     // about to pass the turn on
    | Finished

  /** A coroutine and its local variables; `cur` is how far the chunk has been written. */
  datatype Co = Co(pc: Pc, start: nat, n: nat, cur: nat, status: BlockStatus, offload: bool, buf: seq<Sector>)

  datatype Ret = InProgress | Success | Error(code: int)

  /** The shared part of ImgConvertState, what the target reads as, and the sectors that were salvaged
      as unreadable. */
  datatype State = State(
    lock: Option<nat>,
    sectorNum: nat,
    status: BlockStatus,
    nextStatus: nat,
    wrOffs: nat,
    ret: Ret,
    copyRange: bool,
    target: seq<Sector>,
    bad: set<nat>,
    co: map<nat, Co>)

  function End(x: Co): nat { x.start + x.n }

  /** The coroutine has taken a chunk and not finished it. */
  predicate Holder(x: Co) {
    !x.pc.NotStarted? && !x.pc.AtLoop? && !x.pc.Querying? && !x.pc.Finished?
  }

  ghost predicate Init(c: Config, s: State) {
    && Valid(c)
    && s.lock == None && s.sectorNum == 0 && s.nextStatus == 0 && s.wrOffs == 0
    && s.ret == InProgress
    && s.target == c.initial
    && s.bad == {}
    && (forall i :: i in s.co ==> s.co[i].pc == NotStarted)
  }

  // ----- The steps of coroutine i -----

  function Put(s: State, i: nat, x: Co): State {
    s.(co := s.co[i := x])
  }

  /** `buf` written to the target at `at`. */
  function Splice(target: seq<Sector>, at: nat, buf: seq<Sector>): (r: seq<Sector>)
    requires at + |buf| <= |target|
    ensures |r| == |target|
    ensures forall k {:trigger r[k]} :: 0 <= k < |r| ==> r[k] == if at <= k < at + |buf| then buf[k - at] else target[k]
  {
    target[..at] + buf + target[at + |buf|..]
  }

  /** qemu-img.c:1993-1997: there is more to do. */
  ghost predicate Enter(c: Config, s: State, s': State, i: nat)
    requires i in s.co
  {
    && s.co[i].pc == AtLoop && s.lock == None && s.ret == InProgress && s.sectorNum < Total(c)
    && s' == Put(s.(lock := Some(i)), i, s.co[i].(pc := Querying))
  }

  /** qemu-img.c:1998-2015: the status query ends, maybe after another coroutine has failed.  The coroutine
      takes the next chunk, or records the error of the query. */
  ghost predicate Claim(c: Config, s: State, s': State, i: nat)
    requires Valid(c) && i in s.co
  {
    && s.co[i].pc == Querying
    && (|| (exists n: nat, status, next: nat :: Claimed(c, s, s', i, n, status, next))
        || (exists e :: QueryFailed(c, s, s', i, e)))
  }

  ghost predicate Claimed(c: Config, s: State, s': State, i: nat, n: nat, status: BlockStatus, next: nat)
    requires Valid(c)
  {
    && ChunkOk(c, s.sectorNum, n, status)
    && CacheOk(c, s.sectorNum + n, status, next)
    && s' == Put(s.(lock := None, sectorNum := s.sectorNum + n, status := status, nextStatus := next), i,
                 Co(Deciding, s.sectorNum, n, s.sectorNum, status, false, []))
  }

  ghost predicate QueryFailed(c: Config, s: State, s': State, i: nat, e: int)
    requires i in s.co
  {
    !c.salvage && s' == Put(s.(lock := None, ret := Error(e)), i, s.co[i].(pc := Finished))
  }

  /** qemu-img.c:1994-1997, 2083-2089: nothing left to do. */
  ghost predicate Exit(c: Config, s: State, s': State, i: nat)
    requires i in s.co
  {
    && s.co[i].pc == AtLoop && s.lock == None && (s.ret != InProgress || s.sectorNum >= Total(c))
    && var othersIdle := forall j :: j in s.co && j != i ==> s.co[j].pc.NotStarted? || s.co[j].pc.Finished?;
       s' == Put(if othersIdle && s.ret == InProgress then s.(ret := Success) else s, i, s.co[i].(pc := Finished))
  }

  /** qemu-img.c:2024-2035.  The decision looks at the shared status, which another coroutine may have
      changed meanwhile. */
  ghost predicate Decide(c: Config, s: State, s': State, i: nat)
    requires i in s.co
  {
    s.co[i].pc == Deciding &&
    var x := s.co[i].(offload := s.copyRange && s.status == Data);
    s' == Put(s, i,
      if x.status == Data && !x.offload then x.(pc := Reading)
      else if c.minSparse == 0 && x.status == Zero then x.(pc := Ordering, status := Data, buf := seq(x.n, _ => ZERO))
      else x.(pc := Ordering))
  }

  /** The read of the chunk ends. */
  ghost predicate ReadDone(c: Config, s: State, s': State, i: nat)
    requires i in s.co
  {
    && s.co[i].pc == Reading
    && ((exists buf, bad :: ReadLoaded(c, s, s', i, buf, bad)) || (exists e :: ReadFailed(c, s, s', i, e)))
  }

  ghost predicate ReadLoaded(c: Config, s: State, s': State, i: nat, buf: seq<Sector>, bad: set<nat>)
    requires i in s.co
  {
    var x := s.co[i];
    && |buf| == x.n && Loaded(c, x.start, buf, bad) && (bad != {} ==> c.salvage)
    && s' == Put(s.(bad := s.bad + bad), i, x.(pc := Ordering, buf := buf))
  }

  ghost predicate ReadFailed(c: Config, s: State, s': State, i: nat, e: int)
    requires i in s.co
  {
    !c.salvage && s' == Put(s.(ret := Error(e)), i, s.co[i].(pc := Ordering))
  }

  /** qemu-img.c:2037-2047 */
  ghost predicate Order(c: Config, s: State, s': State, i: nat)
    requires i in s.co
  {
    s.co[i].pc == Ordering &&
    var x := s.co[i];
    s' == Put(s, i,
      if c.wrInOrder && s.wrOffs != x.start && s.ret == InProgress then x.(pc := Parked)
      else if s.ret != InProgress then x.(pc := Finishing)
      else if x.offload then x.(pc := Copying)
      else x.(pc := Writing))
  }

  /** One request of convert_co_copy_range. */
  ghost predicate Copy(c: Config, s: State, s': State, i: nat)
    requires i in s.co && Total(c) <= |s.target|
  {
    s.co[i].pc == Copying &&
    var x := s.co[i];
    if x.cur >= End(x) then s' == Put(s, i, x.(pc := Finishing))
    else exists buf :: CopyDone(c, s, s', i, buf) || CopyFailed(c, s, s', i, buf)
  }

  /** The sectors from `cur` on become `buf`. */
  ghost predicate CopyDone(c: Config, s: State, s': State, i: nat, buf: seq<Sector>)
    requires i in s.co && Total(c) <= |s.target|
  {
    var x := s.co[i];
    && 0 < |buf| && x.cur + |buf| <= End(x) <= Total(c)
    && buf == Flat(c.src)[x.cur..x.cur + |buf|]
    && s' == Put(s.(target := Splice(s.target, x.cur, buf)), i, x.(cur := x.cur + |buf|))
  }

  /** A request that fails may have copied some of its sectors.  Copy offloading is given up and the
      coroutine starts over. */
  ghost predicate CopyFailed(c: Config, s: State, s': State, i: nat, buf: seq<Sector>)
    requires i in s.co && Total(c) <= |s.target|
  {
    var x := s.co[i];
    && 0 < |buf| && x.cur + |buf| <= End(x) <= Total(c)
    && (forall k :: 0 <= k < |buf| ==> buf[k] == s.target[x.cur + k] || buf[k] == Flat(c.src)[x.cur + k])
    && s' == Put(s.(target := Splice(s.target, x.cur, buf), copyRange := false), i, x.(pc := Deciding, cur := x.start))
  }

  /** One request of convert_co_write. */
  ghost predicate WriteOne(c: Config, s: State, s': State, i: nat)
    requires i in s.co && Total(c) <= |s.target|
  {
    s.co[i].pc == Writing &&
    if s.co[i].cur >= End(s.co[i]) then s' == Put(s, i, s.co[i].(pc := Finishing))
    else exists m: nat, request ::
      || WriteDone(c, s, s', i, m, request)
      || WriteFailed(c, s, s', i, m, request)
  }

  ghost predicate WriteDone(c: Config, s: State, s': State, i: nat, m: nat, request: Request)
    requires i in s.co && Total(c) <= |s.target|
  {
    var x := s.co[i];
    && End(x) <= Total(c) && x.cur < End(x)
    && RequestOk(c, x.status, Rest(x), End(x) - x.cur, m, request)
    && s' == Put(s.(target := Sent(s.target, x, m, request)), i, x.(cur := x.cur + m))
  }

  ghost predicate WriteFailed(c: Config, s: State, s': State, i: nat, m: nat, request: Request)
    requires i in s.co
  {
    var x := s.co[i];
    && End(x) <= Total(c) && x.cur < End(x)
    && RequestOk(c, x.status, Rest(x), End(x) - x.cur, m, request) && request != Skip
    && s'.ret.Error? && |s'.target| == |s.target|
    && s' == Put(s.(ret := s'.ret, target := s'.target), i, x.(pc := Finishing))
  }

  /** What is left of the buffer to write. */
  function Rest(x: Co): seq<Sector> {
    if x.status.Data? && x.start <= x.cur <= x.start + |x.buf| then x.buf[x.cur - x.start..] else []
  }

  /** The target after a request for the `m` sectors from `x.cur` on has succeeded. */
  function Sent(target: seq<Sector>, x: Co, m: nat, request: Request): seq<Sector>
    requires x.cur + m <= |target|
    requires request.Write? ==> m <= |Rest(x)|
  {
    match request
    case Skip => target
    case Write => Splice(target, x.cur, Rest(x)[..m])
    case WriteZeroes => Splice(target, x.cur, seq(m, _ => ZERO))
  }

  /** qemu-img.c:2065-2080: the turn passes to the coroutine that waits for the end of this chunk. */
  ghost predicate Finish(c: Config, s: State, s': State, i: nat)
    requires i in s.co
  {
    s.co[i].pc == Finishing &&
    var x := s.co[i];
    var t := Put(s, i, x.(pc := AtLoop));
    if !c.wrInOrder then
      s' == t
    else if exists j :: j in s.co && s.co[j].pc == Parked && s.co[j].start == End(x) then
      exists j :: j in s.co && s.co[j].pc == Parked && s.co[j].start == End(x) &&
        s' == Put(t.(wrOffs := End(x)), j, s.co[j].(pc := Ordering))
    else
      s' == t.(wrOffs := End(x))
  }

  ghost predicate Step(c: Config, s: State, s': State, i: nat)
    requires Valid(c) && i in s.co && Total(c) <= |s.target|
  {
    || (s.co[i].pc == NotStarted && s' == Put(s, i, s.co[i].(pc := AtLoop)))
    || Enter(c, s, s', i) || Claim(c, s, s', i) || Exit(c, s, s', i) || Decide(c, s, s', i) || ReadDone(c, s, s', i)
    || Order(c, s, s', i) || Copy(c, s, s', i) || WriteOne(c, s, s', i) || Finish(c, s, s', i)
  }

  ghost predicate Next(c: Config, s: State, s': State)
    requires Valid(c)
  {
    Total(c) <= |s.target| && exists i :: i in s.co && Step(c, s, s', i)
  }

  /** Any schedule of any number of coroutines. */
  ghost predicate Run(c: Config, tr: seq<State>) {
    && |tr| > 0
    && Init(c, tr[0])
    && (forall k {:trigger NextAt(c, tr, k)} :: 0 < k < |tr| ==> NextAt(c, tr, k))
  }

  ghost predicate NextAt(c: Config, tr: seq<State>, k: nat)
    requires Valid(c) && 0 < k < |tr|
  {
    Next(c, tr[k - 1], tr[k])
  }

  lemma RunPrefix(c: Config, tr: seq<State>, n: nat)
    requires Run(c, tr) && 0 < n <= |tr|
    ensures Run(c, tr[..n])
  {
    forall k | 0 < k < n ensures NextAt(c, tr[..n], k) {
      assert NextAt(c, tr, k);
    }
  }

  // ----- What the copy promises -----

  /** Sector `k` of the target reads as it should: as in the sources, or as zeroes if it could not be
      read. */
  ghost predicate Right(c: Config, s: State, k: nat)
    requires k < Total(c) <= |s.target|
  {
    s.target[k] == Flat(c.src)[k] || (s.target[k] == ZERO && k in s.bad)
  }

  // ----- The structure of the pool, which even an error does not disturb -----

  predicate Disjoint(x: Co, y: Co) {
    Holder(x) && Holder(y) ==> End(x) <= y.start || End(y) <= x.start
  }

  /** What holds of a coroutine that has a chunk. */
  ghost predicate CoOk(c: Config, sectorNum: nat, x: Co)
    requires Valid(c) && sectorNum <= Total(c)
  {
    Holder(x) ==>
      && 0 < x.n && End(x) <= sectorNum && x.start <= x.cur <= End(x)
      && Deserves(c, x.status, x.start, End(x))
      && (x.status.Data? || (c.minSparse == 0 && x.status.Zero?) ==> x.n <= c.bufSectors)
      && (x.pc.Deciding? || x.pc.Reading? || x.pc.Ordering? || x.pc.Parked? ==> x.cur == x.start)
      && (x.pc.Reading? ==> x.status == Data && !x.offload)
      && (x.pc.Copying? ==> x.offload)
      && (x.pc.Parked? ==> c.wrInOrder)
      && (x.pc.Writing? && x.status == Data ==> |x.buf| == x.n)
  }

  /** Some chunk that is not finished ends at `a`. */
  ghost predicate HasPredecessor(s: State, a: nat) {
    exists j :: j in s.co && Holder(s.co[j]) && End(s.co[j]) == a
  }

  /** A coroutine is in convert_iteration_sectors exactly while it has the lock. */
  ghost predicate LockOk(s: State, i: nat) {
    i in s.co && (s.co[i].pc == Querying <==> s.lock == Some(i))
  }

  ghost predicate Structure(c: Config, s: State)
    requires Valid(c)
  {
    && |s.target| == |c.initial|
    && (s.bad != {} ==> c.salvage)
    && (forall i {:trigger LockOk(s, i)} :: i in s.co ==> LockOk(s, i))
    && s.sectorNum <= Total(c) && (s.lock.Some? ==> s.sectorNum < Total(c))
    && CacheOk(c, s.sectorNum, s.status, s.nextStatus)
    && (c.compressed ==> Aligned(s.sectorNum, c.clusterSectors) || s.sectorNum == Total(c))
    && (forall i {:trigger CoOk(c, s.sectorNum, s.co[i])} :: i in s.co ==> CoOk(c, s.sectorNum, s.co[i]))
    && (forall i, j {:trigger Disjoint(s.co[i], s.co[j])} :: i in s.co && j in s.co && i != j ==>
          Disjoint(s.co[i], s.co[j]))
    && (forall i :: i in s.co && s.co[i].pc == Parked ==> HasPredecessor(s, s.co[i].start))
  }

  // ----- The content of the target, while there is no error -----

  /** Nothing wrong has been written to sector `k` yet. */
  ghost predicate Clean(c: Config, s: State, k: nat)
    requires k < Total(c) <= |s.target| && Total(c) <= |c.initial|
  {
    s.target[k] == c.initial[k] || s.target[k] == Flat(c.src)[k]
  }

  /** Sector `k` is still to be written by coroutine `x`. */
  predicate Holds(x: Co, k: nat) {
    Holder(x) && x.cur <= k < End(x)
  }

  ghost predicate Held(s: State, k: nat) {
    exists i :: i in s.co && Holds(s.co[i], k)
  }

  predicate Covers(x: Co, k: nat) {
    Holder(x) && x.start <= k < End(x)
  }

  ghost predicate Covered(s: State, k: nat) {
    exists i :: i in s.co && Covers(s.co[i], k)
  }

  /** The part of the chunk up to `cur` is right, the rest is clean (as is all of it while it is
      copied by offloading, which may start over), a buffer to be written is loaded,
      and when writes are kept in order only the chunk at `wrOffs` is being written. */
  ghost predicate CoContent(c: Config, s: State, x: Co)
    requires Valid(c) && |s.target| == |c.initial|
  {
    Holder(x) && End(x) <= Total(c) ==>
      && (forall k :: x.start <= k < x.cur && k < Total(c) ==> Right(c, s, k))
      && (forall k :: (if x.pc.Copying? then x.start else x.cur) <= k < End(x) ==> Clean(c, s, k))
      && (x.pc.Finishing? ==> x.cur == End(x))
      && (x.status == Data && (x.pc.Writing? || ((x.pc.Ordering? || x.pc.Parked?) && !x.offload)) ==>
            |x.buf| == x.n && Loaded(c, x.start, x.buf, s.bad))
      && (c.wrInOrder ==> s.wrOffs <= x.start)
      && (c.wrInOrder && (x.pc.Copying? || x.pc.Writing? || x.pc.Finishing?) ==> x.start == s.wrOffs)
  }

  ghost predicate Content(c: Config, s: State)
    requires Valid(c) && Structure(c, s)
  {
    && (forall i {:trigger CoContent(c, s, s.co[i])} :: i in s.co ==> CoContent(c, s, s.co[i]))
    && (forall k :: s.sectorNum <= k < Total(c) ==> s.target[k] == c.initial[k])
    && (forall k :: 0 <= k < s.sectorNum ==> Right(c, s, k) || Held(s, k))
    && (c.wrInOrder ==> s.wrOffs <= s.sectorNum && forall k :: s.wrOffs <= k < s.sectorNum ==> Covered(s, k))
  }

  ghost predicate Inv(c: Config, s: State)
    requires Valid(c)
  {
    && Structure(c, s)
    && (s.ret == InProgress ==> Content(c, s))
    && (s.ret == Success ==>
          && (forall k :: 0 <= k < Total(c) ==> Right(c, s, k))
          && s.lock == None && (forall i :: i in s.co ==> !Holder(s.co[i])))
  }

  lemma InitInv(c: Config, s: State)
    requires Init(c, s)
    ensures Inv(c, s)
  {
    assert forall i :: i in s.co ==> CoOk(c, 0, s.co[i]) && LockOk(s, i);
    if c.compressed {
      MultipleAligned(0, c.clusterSectors);
    }
  }

  // ----- Steps that keep the chunk -----

  /** `s'` is `s` with coroutine `i` at another point of the same chunk. */
  ghost predicate SameChunk(s: State, s': State, i: nat)
    requires i in s.co
  {
    && i in s'.co && s'.co == s.co[i := s'.co[i]]
    && s'.lock == s.lock
    && s'.sectorNum == s.sectorNum && s'.status == s.status && s'.nextStatus == s.nextStatus
    && s'.wrOffs == s.wrOffs && |s'.target| == |s.target|
    && Holder(s.co[i]) && Holder(s'.co[i]) && s'.co[i].start == s.co[i].start && s'.co[i].n == s.co[i].n
  }

  lemma SameChunkPredecessor(s: State, s': State, i: nat, a: nat)
    requires i in s.co && SameChunk(s, s', i) && HasPredecessor(s, a)
    ensures HasPredecessor(s', a)
  {
    var j :| j in s.co && Holder(s.co[j]) && End(s.co[j]) == a;
    assert Holder(s'.co[j]) && End(s'.co[j]) == a;
  }

  lemma SameChunkStructure(c: Config, s: State, s': State, i: nat)
    requires Valid(c) && Structure(c, s) && i in s.co && SameChunk(s, s', i)
    requires CoOk(c, s.sectorNum, s'.co[i]) && (s'.bad != {} ==> c.salvage)
    requires s'.co[i].pc == Parked ==> HasPredecessor(s, s.co[i].start)
    ensures Structure(c, s')
  {
    forall j | j in s'.co ensures LockOk(s', j) {
      assert LockOk(s, j);
    }
    forall j | j in s'.co ensures CoOk(c, s'.sectorNum, s'.co[j]) {
      if j != i { assert CoOk(c, s.sectorNum, s.co[j]); }
    }
    forall j, k | j in s'.co && k in s'.co && j != k ensures Disjoint(s'.co[j], s'.co[k]) {
      assert Disjoint(s.co[j], s.co[k]);
    }
    forall j | j in s'.co && s'.co[j].pc == Parked ensures HasPredecessor(s', s'.co[j].start) {
      SameChunkPredecessor(s, s', i, s'.co[j].start);
    }
  }

  /** A coroutine's content facts survive when its sectors are left alone and no wrong ones are added
      to the salvaged ones. */
  lemma CoContentFrame(c: Config, s: State, s': State, x: Co)
    requires Valid(c) && |s.target| == |c.initial| == |s'.target|
    requires CoContent(c, s, x) && s.bad <= s'.bad && s'.wrOffs == s.wrOffs
    requires Holder(x) ==> forall k :: x.start <= k < End(x) && k < |s.target| ==> s'.target[k] == s.target[k]
    requires Holder(x) ==> x.start <= x.cur <= End(x)
    ensures CoContent(c, s', x)
  {
    if Holder(x) && End(x) <= Total(c) {
      forall k | x.start <= k < End(x)
        ensures k < x.cur ==> Right(c, s', k)
        ensures x.cur <= k || x.pc.Copying? ==> Clean(c, s', k)
      {
        assert k < x.cur ==> Right(c, s, k);
        assert x.cur <= k || x.pc.Copying? ==> Clean(c, s, k);
      }
    }
  }

  lemma HeldFrame(s: State, s': State, i: nat, k: nat)
    requires i in s.co && SameChunk(s, s', i) && Held(s, k)
    requires Holds(s.co[i], k) ==> Holds(s'.co[i], k)
    ensures Held(s', k)
  {
    var j :| j in s.co && Holds(s.co[j], k);
    assert Holds(s'.co[j], k);
  }

  lemma CoveredFrame(s: State, s': State, i: nat, k: nat)
    requires i in s.co && SameChunk(s, s', i) && Covered(s, k)
    ensures Covered(s', k)
  {
    var j :| j in s.co && Covers(s.co[j], k);
    assert Covers(s'.co[j], k);
  }

  /** A step within a chunk that changes the target only in the chunk's own sectors keeps the content
      facts, if it keeps them for its own coroutine. */
  lemma SameChunkContent(c: Config, s: State, s': State, i: nat)
    requires Valid(c) && Structure(c, s) && Content(c, s) && Structure(c, s') && i in s.co && SameChunk(s, s', i)
    requires s.bad <= s'.bad
    requires forall k :: 0 <= k < |s.target| && !Covers(s.co[i], k) ==> s'.target[k] == s.target[k]
    requires CoContent(c, s', s'.co[i])
    requires forall k :: 0 <= k < Total(c) && Covers(s.co[i], k) ==> Holds(s'.co[i], k) || Right(c, s', k)
    ensures Content(c, s')
  {
    assert CoOk(c, s.sectorNum, s.co[i]);
    forall j | j in s'.co ensures CoContent(c, s', s'.co[j]) {
      if j != i {
        assert CoContent(c, s, s.co[j]);
        assert Disjoint(s.co[i], s.co[j]);
        assert CoOk(c, s.sectorNum, s.co[j]);
        CoContentFrame(c, s, s', s.co[j]);
      }
    }
    forall k | 0 <= k < s'.sectorNum ensures Right(c, s', k) || Held(s', k) {
      if Covers(s.co[i], k) {
        if Holds(s'.co[i], k) { assert Held(s', k); }
      } else if !Right(c, s, k) {
        HeldFrame(s, s', i, k);
      }
    }
    if c.wrInOrder {
      forall k | s'.wrOffs <= k < s'.sectorNum ensures Covered(s', k) {
        CoveredFrame(s, s', i, k);
      }
    }
  }

  /** A step within a chunk that leaves the target alone. */
  lemma MoveKeepsInv(c: Config, s: State, s': State, i: nat)
    requires Valid(c) && Inv(c, s) && i in s.co && SameChunk(s, s', i)
    requires s'.ret == s.ret || s'.ret.Error?
    requires s'.target == s.target && s.bad <= s'.bad && (s'.bad != {} ==> c.salvage) && s'.co[i].cur == s.co[i].cur
    requires CoOk(c, s.sectorNum, s'.co[i])
    requires s'.co[i].pc == Parked ==> HasPredecessor(s, s.co[i].start)
    requires s'.ret == InProgress ==> CoContent(c, s', s'.co[i])
    ensures Inv(c, s')
  {
    SameChunkStructure(c, s, s', i);
    if s'.ret == InProgress {
      assert CoOk(c, s.sectorNum, s.co[i]) && CoContent(c, s, s.co[i]);
      forall k | 0 <= k < Total(c) && Covers(s.co[i], k) ensures Holds(s'.co[i], k) || Right(c, s', k) {
        assert k < s.co[i].cur ==> Right(c, s, k);
      }
      SameChunkContent(c, s, s', i);
    }
  }

  /** While writes are kept in order, the chunk before one that is not due is not finished. */
  lemma NotDueHasPredecessor(c: Config, s: State, i: nat)
    requires Valid(c) && Structure(c, s) && Content(c, s) && c.wrInOrder
    requires i in s.co && Holder(s.co[i]) && s.wrOffs != s.co[i].start
    ensures HasPredecessor(s, s.co[i].start)
  {
    var x := s.co[i];
    assert CoOk(c, s.sectorNum, x) && CoContent(c, s, x);
    assert Covered(s, x.start - 1);
    var j :| j in s.co && Covers(s.co[j], x.start - 1);
    assert Disjoint(s.co[i], s.co[j]);
  }

  lemma DecideKeepsInv(c: Config, s: State, s': State, i: nat)
    requires Valid(c) && Inv(c, s) && i in s.co && Decide(c, s, s', i)
    ensures Inv(c, s')
  {
    var x, x' := s.co[i], s'.co[i];
    assert CoOk(c, s.sectorNum, x);
    if s.ret == InProgress {
      assert CoContent(c, s, x);
      CoContentFrame(c, s, s', x);
      assert CoContent(c, s', x');
    }
    MoveKeepsInv(c, s, s', i);
  }

  lemma ReadKeepsInv(c: Config, s: State, s': State, i: nat, buf: seq<Sector>, bad: set<nat>)
    requires Valid(c) && Inv(c, s) && i in s.co && s.co[i].pc == Reading && ReadLoaded(c, s, s', i, buf, bad)
    ensures Inv(c, s')
  {
    var x, x' := s.co[i], s'.co[i];
    assert CoOk(c, s.sectorNum, x);
    if s'.ret == InProgress {
      assert CoContent(c, s, x);
      CoContentFrame(c, s, s', x);
      assert CoContent(c, s', x');
    }
    MoveKeepsInv(c, s, s', i);
  }

  lemma ReadFailureKeepsInv(c: Config, s: State, s': State, i: nat, e: int)
    requires Valid(c) && Inv(c, s) && i in s.co && s.co[i].pc == Reading && ReadFailed(c, s, s', i, e)
    ensures Inv(c, s')
  {
    assert CoOk(c, s.sectorNum, s.co[i]);
    MoveKeepsInv(c, s, s', i);
  }

  lemma OrderKeepsInv(c: Config, s: State, s': State, i: nat)
    requires Valid(c) && Inv(c, s) && i in s.co && Order(c, s, s', i)
    ensures Inv(c, s')
  {
    var x, x' := s.co[i], s'.co[i];
    assert CoOk(c, s.sectorNum, x);
    if s.ret == InProgress {
      assert CoContent(c, s, x);
      CoContentFrame(c, s, s', x);
      assert CoContent(c, s', x');
      if x'.pc == Parked {
        NotDueHasPredecessor(c, s, i);
      }
    }
    MoveKeepsInv(c, s, s', i);
  }

  /** The end of convert_co_copy_range or convert_co_write. */
  lemma ChunkEndKeepsInv(c: Config, s: State, s': State, i: nat)
    requires Valid(c) && Inv(c, s) && i in s.co && (s.co[i].pc.Copying? || s.co[i].pc.Writing?)
    requires s.co[i].cur >= End(s.co[i]) && s' == Put(s, i, s.co[i].(pc := Finishing))
    ensures Inv(c, s')
  {
    var x, x' := s.co[i], s'.co[i];
    assert CoOk(c, s.sectorNum, x);
    if s.ret == InProgress {
      assert CoContent(c, s, x);
      CoContentFrame(c, s, s', x);
      assert CoContent(c, s', x');
    }
    MoveKeepsInv(c, s, s', i);
  }

  /** A request that changes only sectors of the own chunk, and leaves it right up to the new `cur` and
      clean after it. */
  lemma RequestKeepsInv(c: Config, s: State, s': State, i: nat)
    requires Valid(c) && Inv(c, s) && i in s.co && SameChunk(s, s', i)
    requires s'.ret == s.ret && s'.bad == s.bad && s'.co[i].pc != Parked && !s'.co[i].pc.Finishing?
    requires CoOk(c, s.sectorNum, s'.co[i])
    requires forall k :: 0 <= k < |s.target| && !Covers(s.co[i], k) ==> s'.target[k] == s.target[k]
    requires s.ret == InProgress ==> CoContent(c, s', s'.co[i])
    ensures Inv(c, s')
  {
    SameChunkStructure(c, s, s', i);
    assert CoOk(c, s.sectorNum, s.co[i]);
    if s.ret == InProgress {
      forall k | 0 <= k < Total(c) && Covers(s.co[i], k) ensures Holds(s'.co[i], k) || Right(c, s', k) {
        if k < s'.co[i].cur { assert Right(c, s', k); }
      }
      SameChunkContent(c, s, s', i);
    }
  }

  lemma CopyKeepsInv(c: Config, s: State, s': State, i: nat, buf: seq<Sector>)
    requires Valid(c) && Inv(c, s) && i in s.co && s.co[i].pc == Copying && CopyDone(c, s, s', i, buf)
    ensures Inv(c, s')
  {
    var x, x' := s.co[i], s'.co[i];
    assert CoOk(c, s.sectorNum, x);
    if s.ret == InProgress {
      assert CoContent(c, s, x);
      forall k | x.start <= k < End(x) ensures Clean(c, s', k) && (k < x'.cur ==> Right(c, s', k)) {
        assert Clean(c, s, k);
        assert k < x.cur ==> Right(c, s, k);
      }
      assert CoContent(c, s', x');
    }
    RequestKeepsInv(c, s, s', i);
  }

  lemma CopyFailureKeepsInv(c: Config, s: State, s': State, i: nat, buf: seq<Sector>)
    requires Valid(c) && Inv(c, s) && i in s.co && s.co[i].pc == Copying && CopyFailed(c, s, s', i, buf)
    ensures Inv(c, s')
  {
    var x, x' := s.co[i], s'.co[i];
    assert CoOk(c, s.sectorNum, x);
    if s.ret == InProgress {
      assert CoContent(c, s, x);
      forall k | x.start <= k < End(x) ensures Clean(c, s', k) {
        assert Clean(c, s, k);
        if x.cur <= k < x.cur + |buf| {
          assert s'.target[k] == buf[k - x.cur];
        }
      }
      assert CoContent(c, s', x');
    }
    RequestKeepsInv(c, s, s', i);
  }

  /** A request that succeeds leaves its sectors right. */
  lemma SentRight(c: Config, s: State, x: Co, m: nat, request: Request, k: nat)
    requires Valid(c) && |s.target| == |c.initial| && s.sectorNum <= Total(c)
    requires CoOk(c, s.sectorNum, x) && CoContent(c, s, x) && x.pc == Writing && x.cur + m <= End(x)
    requires RequestOk(c, x.status, Rest(x), End(x) - x.cur, m, request)
    requires x.cur <= k < x.cur + m
    ensures Right(c, s.(target := Sent(s.target, x, m, request)), k)
  {
    assert Clean(c, s, k);
    if x.status == Data {
      var at := k - x.start;
      assert x.buf[at] == Flat(c.src)[x.start + at] || (x.buf[at] == ZERO && x.start + at in s.bad);
      assert Rest(x)[..m][k - x.cur] == x.buf[k - x.start];
    }
  }

  lemma WriteKeepsInv(c: Config, s: State, s': State, i: nat, m: nat, request: Request)
    requires Valid(c) && Inv(c, s) && i in s.co && s.co[i].pc == Writing && WriteDone(c, s, s', i, m, request)
    ensures Inv(c, s')
  {
    var x, x' := s.co[i], s'.co[i];
    assert CoOk(c, s.sectorNum, x);
    if s.ret == InProgress {
      assert CoContent(c, s, x);
      forall k | x.start <= k < End(x)
        ensures if k < x'.cur then Right(c, s', k) else Clean(c, s', k)
      {
        assert if k < x.cur then Right(c, s, k) else Clean(c, s, k);
        if x.cur <= k < x'.cur {
          SentRight(c, s, x, m, request, k);
        }
      }
      assert CoContent(c, s', x');
    }
    RequestKeepsInv(c, s, s', i);
  }

  /** An error ends the copy; only the structure of the pool still matters. */
  lemma WriteErrorKeepsInv(c: Config, s: State, s': State, i: nat, m: nat, request: Request)
    requires Valid(c) && Inv(c, s) && i in s.co && s.co[i].pc == Writing && WriteFailed(c, s, s', i, m, request)
    ensures Inv(c, s')
  {
    assert CoOk(c, s.sectorNum, s.co[i]);
    SameChunkStructure(c, s, s', i);
  }

  // ----- Taking a chunk, finishing it, and the end -----

  lemma ClaimKeepsStructure(c: Config, s: State, s': State, i: nat, n: nat, status: BlockStatus, next: nat)
    requires Valid(c) && Structure(c, s) && i in s.co && s.co[i].pc == Querying && Claimed(c, s, s', i, n, status, next)
    ensures Structure(c, s')
  {
    forall j | j in s'.co ensures LockOk(s', j) {
      assert LockOk(s, j) && LockOk(s, i);
    }
    forall j | j in s'.co ensures CoOk(c, s'.sectorNum, s'.co[j]) {
      if j != i { assert CoOk(c, s.sectorNum, s.co[j]); }
    }
    forall j, k | j in s'.co && k in s'.co && j != k ensures Disjoint(s'.co[j], s'.co[k]) {
      assert CoOk(c, s.sectorNum, s.co[j]) && CoOk(c, s.sectorNum, s.co[k]);
      assert Disjoint(s.co[j], s.co[k]);
    }
    forall j | j in s'.co && s'.co[j].pc == Parked ensures HasPredecessor(s', s'.co[j].start) {
      assert HasPredecessor(s, s.co[j].start);
      var p :| p in s.co && Holder(s.co[p]) && End(s.co[p]) == s.co[j].start;
      assert Holder(s'.co[p]) && End(s'.co[p]) == s'.co[j].start;
    }
  }

  /** Chunks are taken in order, each starting where the one before ends. */
  lemma ClaimKeepsInv(c: Config, s: State, s': State, i: nat, n: nat, status: BlockStatus, next: nat)
    requires Valid(c) && Inv(c, s) && i in s.co && s.co[i].pc == Querying
    requires Claimed(c, s, s', i, n, status, next)
    ensures Inv(c, s')
  {
    ClaimKeepsStructure(c, s, s', i, n, status, next);
    assert LockOk(s, i);
    if s.ret == InProgress {
      ClaimKeepsContent(c, s, s', i, n, status, next);
    }
  }

  lemma ClaimKeepsContent(c: Config, s: State, s': State, i: nat, n: nat, status: BlockStatus, next: nat)
    requires Valid(c) && Structure(c, s) && Content(c, s) && Structure(c, s') && i in s.co && s.co[i].pc == Querying
    requires Claimed(c, s, s', i, n, status, next)
    ensures Content(c, s')
  {
    forall j | j in s'.co ensures CoContent(c, s', s'.co[j]) {
      if j != i {
        assert CoContent(c, s, s.co[j]) && CoOk(c, s.sectorNum, s.co[j]);
        CoContentFrame(c, s, s', s.co[j]);
      }
    }
    forall k | 0 <= k < s'.sectorNum
      ensures Right(c, s', k) || Held(s', k)
      ensures c.wrInOrder && s'.wrOffs <= k ==> Covered(s', k)
    {
      ClaimedSector(c, s, s', i, n, status, next, k);
    }
  }

  lemma ClaimedSector(c: Config, s: State, s': State, i: nat, n: nat, status: BlockStatus, next: nat, k: nat)
    requires Valid(c) && Structure(c, s) && Content(c, s) && i in s.co && s.co[i].pc == Querying
    requires Claimed(c, s, s', i, n, status, next) && k < s'.sectorNum
    ensures Right(c, s', k) || Held(s', k)
    ensures c.wrInOrder && s'.wrOffs <= k ==> Covered(s', k)
  {
    if k >= s.sectorNum {
      assert Holds(s'.co[i], k) && Covers(s'.co[i], k);
    } else {
      if !Right(c, s, k) {
        var j :| j in s.co && Holds(s.co[j], k);
        assert Holds(s'.co[j], k);
      }
      if c.wrInOrder && s.wrOffs <= k {
        assert Covered(s, k);
        var j :| j in s.co && Covers(s.co[j], k);
        assert Covers(s'.co[j], k);
      }
    }
  }

  /** Coroutines without a chunk come and go freely. */
  ghost predicate IdleStep(s: State, s': State, i: nat)
    requires i in s.co
  {
    && !Holder(s.co[i]) && i in s'.co && !Holder(s'.co[i])
    && s' == Put(s.(ret := s'.ret, lock := s'.lock), i, s'.co[i])
    && (forall j {:trigger LockOk(s', j)} :: j in s.co ==> LockOk(s', j))
  }

  lemma IdleKeepsStructure(c: Config, s: State, s': State, i: nat)
    requires Valid(c) && Structure(c, s) && i in s.co && IdleStep(s, s', i)
    requires s'.lock.Some? ==> s.sectorNum < Total(c)
    ensures Structure(c, s')
  {
    forall j | j in s'.co ensures CoOk(c, s'.sectorNum, s'.co[j]) {
      if j != i { assert CoOk(c, s.sectorNum, s.co[j]); }
    }
    forall j, k | j in s'.co && k in s'.co && j != k ensures Disjoint(s'.co[j], s'.co[k]) {
      assert Disjoint(s.co[j], s.co[k]);
    }
    forall j | j in s'.co && s'.co[j].pc == Parked ensures HasPredecessor(s', s'.co[j].start) {
      assert HasPredecessor(s, s.co[j].start);
      var p :| p in s.co && Holder(s.co[p]) && End(s.co[p]) == s.co[j].start;
      assert Holder(s'.co[p]) && End(s'.co[p]) == s'.co[j].start;
    }
  }

  lemma IdleKeepsContent(c: Config, s: State, s': State, i: nat)
    requires Valid(c) && Structure(c, s) && Content(c, s) && Structure(c, s') && i in s.co && IdleStep(s, s', i)
    ensures Content(c, s')
  {
    forall j | j in s'.co ensures CoContent(c, s', s'.co[j]) {
      if j != i {
        assert CoContent(c, s, s.co[j]) && CoOk(c, s.sectorNum, s.co[j]);
        CoContentFrame(c, s, s', s.co[j]);
      }
    }
    forall k | 0 <= k < s'.sectorNum
      ensures Right(c, s', k) || Held(s', k)
      ensures c.wrInOrder && s'.wrOffs <= k ==> Covered(s', k)
    {
      IdleSector(c, s, s', i, k);
    }
  }

  lemma IdleSector(c: Config, s: State, s': State, i: nat, k: nat)
    requires Valid(c) && Structure(c, s) && Content(c, s) && i in s.co && IdleStep(s, s', i) && k < s.sectorNum
    ensures Right(c, s', k) || Held(s', k)
    ensures c.wrInOrder && s.wrOffs <= k ==> Covered(s', k)
  {
    if !Right(c, s, k) {
      var j :| j in s.co && Holds(s.co[j], k);
      assert Holds(s'.co[j], k);
    }
    if c.wrInOrder && s.wrOffs <= k {
      assert Covered(s, k);
      var j :| j in s.co && Covers(s.co[j], k);
      assert Covers(s'.co[j], k);
    }
  }

  lemma IdleKeepsInv(c: Config, s: State, s': State, i: nat)
    requires Valid(c) && Inv(c, s) && i in s.co && IdleStep(s, s', i)
    requires (s'.ret == s.ret && (s.ret == Success ==> s'.lock == None)) || s'.ret.Error?
    requires s'.lock.Some? ==> s.sectorNum < Total(c)
    ensures Inv(c, s')
  {
    IdleKeepsStructure(c, s, s', i);
    if s'.ret == InProgress {
      IdleKeepsContent(c, s, s', i);
    } else if s'.ret == Success {
      forall k | 0 <= k < Total(c) ensures Right(c, s', k) {
        assert Right(c, s, k);
      }
    }
  }

  /** A step that leaves the lock alone, takes it or gives it back. */
  lemma LocksStayOk(s: State, s': State, i: nat)
    requires i in s.co && (forall j {:trigger LockOk(s, j)} :: j in s.co ==> LockOk(s, j))
    requires i in s'.co && s'.co == s.co[i := s'.co[i]]
    requires (s'.lock == s.lock && (s.co[i].pc == Querying <==> s'.co[i].pc == Querying))
      || (s.lock == None && s'.lock == Some(i) && s'.co[i].pc == Querying)
      || (s.co[i].pc == Querying && s'.lock == None && s'.co[i].pc != Querying)
    ensures forall j {:trigger LockOk(s', j)} :: j in s.co ==> LockOk(s', j)
  {
    forall j | j in s.co ensures LockOk(s', j) {
      assert LockOk(s, j) && LockOk(s, i);
    }
  }

  /** The last coroutine to leave reports success only when every sector is right. */
  lemma ExitKeepsInv(c: Config, s: State, s': State, i: nat)
    requires Valid(c) && Inv(c, s) && i in s.co && Exit(c, s, s', i)
    ensures Inv(c, s')
  {
    LocksStayOk(s, s', i);
    if s'.ret == s.ret {
      IdleKeepsInv(c, s, s', i);
    } else {
      IdleKeepsStructure(c, s, s', i);
      assert forall j :: j in s.co ==> !Holder(s.co[j]);
      forall k | 0 <= k < Total(c) ensures Right(c, s', k) {
        assert Right(c, s, k) || Held(s, k);
      }
    }
  }

  /** The coroutine that waits for the end of chunk `x`, if there is one, is woken. */
  ghost predicate PassedOn(c: Config, s: State, s': State, i: nat)
    requires i in s.co
  {
    var end := End(s.co[i]);
    && s'.co.Keys == s.co.Keys
    && s' == s.(co := s'.co, wrOffs := if c.wrInOrder then end else s.wrOffs)
    && s'.co[i] == s.co[i].(pc := AtLoop)
    && (forall j :: j in s.co && j != i ==>
          s'.co[j] == if s.co[j].pc == Parked && s.co[j].start == end then s.co[j].(pc := Ordering) else s.co[j])
  }

  lemma FinishIs(c: Config, s: State, s': State, i: nat)
    requires Valid(c) && Structure(c, s) && i in s.co && Finish(c, s, s', i)
    ensures PassedOn(c, s, s', i)
  {
    forall j, k | && j in s.co && k in s.co && s.co[j].pc == Parked && s.co[k].pc == Parked
                  && s.co[j].start == s.co[k].start
      ensures j == k
    {
      assert CoOk(c, s.sectorNum, s.co[j]) && CoOk(c, s.sectorNum, s.co[k]);
      assert j != k ==> Disjoint(s.co[j], s.co[k]);
    }
    forall j | j in s.co && s.co[j].pc == Parked ensures c.wrInOrder {
      assert CoOk(c, s.sectorNum, s.co[j]);
    }
  }

  /** What passing the turn on makes of a coroutine: it is done with its chunk, woken or left alone. */
  predicate Turned(x: Co, y: Co) {
    y == x || y == x.(pc := AtLoop) || (x.pc == Parked && y == x.(pc := Ordering))
  }

  lemma TurnedOk(c: Config, sectorNum: nat, x: Co, y: Co)
    requires Valid(c) && sectorNum <= Total(c) && CoOk(c, sectorNum, x) && Turned(x, y)
    ensures CoOk(c, sectorNum, y)
  {}

  lemma TurnedDisjoint(x: Co, y: Co, x': Co, y': Co)
    requires Disjoint(x, y) && Turned(x, x') && Turned(y, y')
    ensures Disjoint(x', y')
  {}

  lemma FinishKeepsStructure(c: Config, s: State, s': State, i: nat)
    requires Valid(c) && Structure(c, s) && i in s.co && s.co[i].pc == Finishing && PassedOn(c, s, s', i)
    ensures Structure(c, s')
  {
    forall j | j in s'.co ensures LockOk(s', j) {
      assert LockOk(s, j);
    }
    forall j | j in s'.co ensures Turned(s.co[j], s'.co[j]) {}
    forall j | j in s'.co ensures CoOk(c, s'.sectorNum, s'.co[j]) {
      TurnedOk(c, s.sectorNum, s.co[j], s'.co[j]);
    }
    forall j, k | j in s'.co && k in s'.co && j != k ensures Disjoint(s'.co[j], s'.co[k]) {
      TurnedDisjoint(s.co[j], s.co[k], s'.co[j], s'.co[k]);
    }
    forall j | j in s'.co && s'.co[j].pc == Parked ensures HasPredecessor(s', s'.co[j].start) {
      StillHasPredecessor(c, s, s', i, j);
    }
  }

  /** A coroutine that stays parked waits for another chunk than the finished one. */
  lemma StillHasPredecessor(c: Config, s: State, s': State, i: nat, j: nat)
    requires Valid(c) && Structure(c, s) && i in s.co && s.co[i].pc == Finishing && PassedOn(c, s, s', i)
    requires j in s'.co && s'.co[j].pc == Parked
    ensures HasPredecessor(s', s'.co[j].start)
  {
    assert HasPredecessor(s, s.co[j].start);
    var p :| p in s.co && Holder(s.co[p]) && End(s.co[p]) == s.co[j].start;
    assert Holder(s'.co[p]) && End(s'.co[p]) == s'.co[j].start;
  }

  /** When writes are kept in order, the chunk after a finished one is the next one due. */
  lemma FinishKeepsCoContent(c: Config, s: State, s': State, i: nat, j: nat)
    requires Valid(c) && Structure(c, s) && Content(c, s)
    requires i in s.co && s.co[i].pc == Finishing && PassedOn(c, s, s', i)
    requires j in s.co
    ensures CoContent(c, s', s'.co[j])
  {
    assert CoContent(c, s, s.co[i]) && CoOk(c, s.sectorNum, s.co[i]);
    assert CoContent(c, s, s.co[j]) && CoOk(c, s.sectorNum, s.co[j]);
    if j != i {
      assert Disjoint(s.co[i], s.co[j]);
      CoContentFrame(c, s, s'.(wrOffs := s.wrOffs), s.co[j]);
      forall k: nat | Covers(s.co[j], k)
        ensures k < s.co[j].cur ==> Right(c, s', k)
        ensures s.co[j].cur <= k || s.co[j].pc.Copying? ==> Clean(c, s', k)
      {
        assert k < s.co[j].cur ==> Right(c, s, k);
        assert s.co[j].cur <= k || s.co[j].pc.Copying? ==> Clean(c, s, k);
      }
    }
  }

  lemma FinishKeepsInv(c: Config, s: State, s': State, i: nat)
    requires Valid(c) && Inv(c, s) && i in s.co && Finish(c, s, s', i)
    ensures Inv(c, s')
  {
    FinishIs(c, s, s', i);
    FinishKeepsStructure(c, s, s', i);
    if s.ret == InProgress {
      assert CoContent(c, s, s.co[i]) && CoOk(c, s.sectorNum, s.co[i]);
      forall j | j in s'.co ensures CoContent(c, s', s'.co[j]) {
        FinishKeepsCoContent(c, s, s', i, j);
      }
      forall k | 0 <= k < s'.sectorNum
        ensures Right(c, s', k) || Held(s', k)
        ensures c.wrInOrder && s'.wrOffs <= k ==> Covered(s', k)
      {
        FinishSector(c, s, s', i, k);
      }
    }
  }

  lemma FinishSector(c: Config, s: State, s': State, i: nat, k: nat)
    requires Valid(c) && Structure(c, s) && Content(c, s)
    requires i in s.co && s.co[i].pc == Finishing && PassedOn(c, s, s', i)
    requires k < s.sectorNum
    ensures Right(c, s', k) || Held(s', k)
    ensures c.wrInOrder && s'.wrOffs <= k ==> Covered(s', k)
  {
    assert CoContent(c, s, s.co[i]) && CoOk(c, s.sectorNum, s.co[i]);
    if !Right(c, s, k) {
      var j :| j in s.co && Holds(s.co[j], k);
      assert Holds(s'.co[j], k);
    }
    if c.wrInOrder && s'.wrOffs <= k {
      assert Covered(s, k);
      var j :| j in s.co && Covers(s.co[j], k);
      assert Covers(s'.co[j], k);
    }
  }

  /** The steps of a coroutine without a chunk. */
  lemma LoopKeepsInv(c: Config, s: State, s': State, i: nat)
    requires Valid(c) && Inv(c, s) && i in s.co && Step(c, s, s', i) && !Holder(s.co[i])
    ensures Inv(c, s')
  {
    if Exit(c, s, s', i) {
      ExitKeepsInv(c, s, s', i);
    } else if n: nat, status, next: nat :| s.co[i].pc == Querying && Claimed(c, s, s', i, n, status, next) {
      ClaimKeepsInv(c, s, s', i, n, status, next);
    } else {
      LocksStayOk(s, s', i);
      IdleKeepsInv(c, s, s', i);
    }
  }

  lemma CopyingKeepsInv(c: Config, s: State, s': State, i: nat)
    requires Valid(c) && Inv(c, s) && i in s.co && Copy(c, s, s', i)
    ensures Inv(c, s')
  {
    if buf :| CopyDone(c, s, s', i, buf) {
      CopyKeepsInv(c, s, s', i, buf);
    } else if buf :| CopyFailed(c, s, s', i, buf) {
      CopyFailureKeepsInv(c, s, s', i, buf);
    } else {
      ChunkEndKeepsInv(c, s, s', i);
    }
  }

  lemma WritingKeepsInv(c: Config, s: State, s': State, i: nat)
    requires Valid(c) && Inv(c, s) && i in s.co && WriteOne(c, s, s', i)
    ensures Inv(c, s')
  {
    if m: nat, request :| WriteDone(c, s, s', i, m, request) {
      WriteKeepsInv(c, s, s', i, m, request);
    } else if m: nat, request :| WriteFailed(c, s, s', i, m, request) {
      WriteErrorKeepsInv(c, s, s', i, m, request);
    } else {
      ChunkEndKeepsInv(c, s, s', i);
    }
  }

  lemma StepKeepsInv(c: Config, s: State, s': State, i: nat)
    requires Valid(c) && Inv(c, s) && i in s.co && Step(c, s, s', i)
    ensures Inv(c, s')
  {
    match s.co[i].pc
    case Deciding => DecideKeepsInv(c, s, s', i);
    case Reading =>
      if buf, bad :| ReadLoaded(c, s, s', i, buf, bad) {
        ReadKeepsInv(c, s, s', i, buf, bad);
      } else {
        var e :| ReadFailed(c, s, s', i, e);
        ReadFailureKeepsInv(c, s, s', i, e);
      }
    case Ordering => OrderKeepsInv(c, s, s', i);
    case Copying => CopyingKeepsInv(c, s, s', i);
    case Writing => WritingKeepsInv(c, s, s', i);
    case Finishing => FinishKeepsInv(c, s, s', i);
    case Parked =>
    case _ => LoopKeepsInv(c, s, s', i);
  }

  lemma {:induction false} RunInv(c: Config, tr: seq<State>)
    requires Run(c, tr)
    ensures Inv(c, tr[|tr| - 1])
  {
    var n := |tr| - 1;
    if n == 0 {
      InitInv(c, tr[0]);
    } else {
      RunPrefix(c, tr, n);
      RunInv(c, tr[..n]);
      var s, s' := tr[n - 1], tr[n];
      assert NextAt(c, tr, n);
      var i :| i in s.co && Step(c, s, s', i);
      StepKeepsInv(c, s, s', i);
    }
  }

  // ----- The theorems -----

  /** If the copy ends with success, every sector of the target reads as that sector of the
      concatenated sources, or as zeroes if it was salvaged as unreadable.  Without salvage mode the
      target is the sources. */
  lemma ConvertPreservesContent(c: Config, tr: seq<State>)
    requires Run(c, tr) && tr[|tr| - 1].ret == Success
    ensures var s := tr[|tr| - 1];
      && Total(c) <= |s.target| && (forall k :: 0 <= k < Total(c) ==> Right(c, s, k))
      && (!c.salvage ==> s.target[..Total(c)] == Flat(c.src))
  {
    RunInv(c, tr);
    var s := tr[|tr| - 1];
    if !c.salvage {
      forall k | 0 <= k < Total(c) ensures s.target[k] == Flat(c.src)[k] {
        assert Right(c, s, k);
      }
    }
  }

  predicate InWrite(x: Co) { x.pc.Copying? || x.pc.Writing? }

  /** While there is no error, only the chunk at `wrOffs` is being written, by one coroutine. */
  lemma OneWriter(c: Config, s: State, i: nat, j: nat)
    requires Valid(c) && c.wrInOrder && Inv(c, s) && s.ret == InProgress
    requires i in s.co && j in s.co && InWrite(s.co[i]) && InWrite(s.co[j])
    ensures i == j && s.co[i].start == s.wrOffs
  {
    assert CoContent(c, s, s.co[i]) && CoOk(c, s.sectorNum, s.co[i]);
    assert CoContent(c, s, s.co[j]) && CoOk(c, s.sectorNum, s.co[j]);
    assert j != i ==> Disjoint(s.co[i], s.co[j]);
  }

  // ----- What a step of one coroutine does to the pool -----

  /** What a step of `p` does to another coroutine: nothing, or it wakes the one that waits for its chunk. */
  ghost predicate LeavesAlone(s: State, s': State, p: nat, j: nat)
    requires p in s.co && j in s.co
  {
    && j in s'.co
    && (s'.co[j] == s.co[j]
        || (s.co[p].pc == Finishing && s.co[j].pc == Parked && s.co[j].start == End(s.co[p])
            && s'.co[j] == s.co[j].(pc := Ordering)))
  }

  /** What a step of `p` does otherwise.  Its chunk stays the same until it is finished, and a new one starts
      at `sectorNum`. */
  ghost predicate Does(c: Config, s: State, s': State, p: nat)
    requires p in s.co
  {
    && p in s'.co && s'.co.Keys == s.co.Keys
    && (s'.copyRange ==> s.copyRange) && (s'.ret == InProgress ==> s.ret == InProgress)
    && s'.wrOffs == (if s.co[p].pc == Finishing && c.wrInOrder then End(s.co[p]) else s.wrOffs)
    && (if s.co[p].pc == Finishing then s'.co[p].pc == AtLoop
        else Holder(s.co[p]) ==> Holder(s'.co[p]) && s'.co[p].start == s.co[p].start && s'.co[p].n == s.co[p].n)
    && (if s.co[p].pc == Querying && s'.co[p].pc == Deciding
        then s'.co[p].start == s.sectorNum < End(s'.co[p]) == s'.sectorNum
        else s'.sectorNum == s.sectorNum && (Holder(s'.co[p]) ==> Holder(s.co[p])))
  }

  ghost predicate Effect(c: Config, s: State, s': State, p: nat)
    requires p in s.co
  {
    && Does(c, s, s', p)
    && (forall j {:trigger LeavesAlone(s, s', p, j)} :: j in s.co && j != p ==> LeavesAlone(s, s', p, j))
  }

  /** A step that changes the pool only at `p`. */
  ghost predicate OwnStep(c: Config, s: State, s': State, p: nat)
    requires p in s.co
  {
    s.co[p].pc != Finishing && Does(c, s, s', p) && s'.co == s.co[p := s'.co[p]]
  }

  lemma LoopEffect(c: Config, s: State, s': State, p: nat)
    requires Valid(c) && p in s.co && (Enter(c, s, s', p) || Exit(c, s, s', p))
    ensures OwnStep(c, s, s', p)
  {}

  lemma ClaimEffect(c: Config, s: State, s': State, p: nat)
    requires Valid(c) && p in s.co && Claim(c, s, s', p)
    ensures OwnStep(c, s, s', p)
  {
    if n: nat, status, next: nat :| Claimed(c, s, s', p, n, status, next) {
    } else {
      var e :| QueryFailed(c, s, s', p, e);
    }
  }

  lemma ReadEffect(c: Config, s: State, s': State, p: nat)
    requires p in s.co && (Decide(c, s, s', p) || ReadDone(c, s, s', p) || Order(c, s, s', p))
    ensures OwnStep(c, s, s', p)
  {
    if s.co[p].pc == Reading {
      if buf, bad :| ReadLoaded(c, s, s', p, buf, bad) {
      } else {
        var e :| ReadFailed(c, s, s', p, e);
      }
    }
  }

  lemma CopyEffect(c: Config, s: State, s': State, p: nat)
    requires p in s.co && Total(c) <= |s.target| && Copy(c, s, s', p)
    ensures OwnStep(c, s, s', p)
  {
    if s.co[p].cur < End(s.co[p]) {
      var buf :| CopyDone(c, s, s', p, buf) || CopyFailed(c, s, s', p, buf);
    }
  }

  lemma WriteEffect(c: Config, s: State, s': State, p: nat)
    requires p in s.co && Total(c) <= |s.target| && WriteOne(c, s, s', p)
    ensures OwnStep(c, s, s', p)
  {
    if s.co[p].cur < End(s.co[p]) {
      var m: nat, request :| WriteDone(c, s, s', p, m, request) || WriteFailed(c, s, s', p, m, request);
    }
  }

  lemma FinishEffect(c: Config, s: State, s': State, p: nat)
    requires p in s.co && s.co[p].pc == Finishing && PassedOn(c, s, s', p)
    ensures Effect(c, s, s', p)
  {
    forall j | j in s.co && j != p ensures LeavesAlone(s, s', p, j) {}
  }

  lemma StepEffect(c: Config, s: State, s': State, p: nat)
    requires Valid(c) && Inv(c, s) && p in s.co && Step(c, s, s', p)
    ensures Effect(c, s, s', p)
  {
    match s.co[p].pc {
      case Finishing =>
        FinishIs(c, s, s', p);
        FinishEffect(c, s, s', p);
      case Copying => CopyEffect(c, s, s', p);
      case Writing => WriteEffect(c, s, s', p);
      case Parked =>
      case Deciding => ReadEffect(c, s, s', p);
      case Reading => ReadEffect(c, s, s', p);
      case Ordering => ReadEffect(c, s, s', p);
      case Querying => ClaimEffect(c, s, s', p);
      case AtLoop => LoopEffect(c, s, s', p);
      case _ =>
    }
  }

  /** While there is no error, `wrOffs` does not move back. */
  lemma OffsetNeverFalls(c: Config, s: State, s': State, p: nat)
    requires Valid(c) && Inv(c, s) && p in s.co && Effect(c, s, s', p) && s'.ret == InProgress
    ensures s.ret == InProgress && (c.wrInOrder ==> s.wrOffs <= s'.wrOffs)
    ensures c.wrInOrder && s.co[p].pc == Finishing ==> s.wrOffs == s.co[p].start < s'.wrOffs
  {
    if s.co[p].pc == Finishing {
      assert CoContent(c, s, s.co[p]) && CoOk(c, s.sectorNum, s.co[p]);
    }
  }

  lemma OffsetRises(c: Config, tr: seq<State>, k: nat)
    requires Run(c, tr) && 0 < k < |tr| && tr[k].ret == InProgress
    ensures tr[k - 1].ret == InProgress && (c.wrInOrder ==> tr[k - 1].wrOffs <= tr[k].wrOffs)
  {
    var p := RunStep(c, tr, k);
    OffsetNeverFalls(c, tr[k - 1], tr[k], p);
  }

  /** The same between any two states of a run. */
  lemma {:induction false} OffsetsRise(c: Config, tr: seq<State>, a: nat, b: nat)
    requires Run(c, tr) && a <= b < |tr| && tr[b].ret == InProgress
    ensures tr[a].ret == InProgress && (c.wrInOrder ==> tr[a].wrOffs <= tr[b].wrOffs)
    decreases b - a
  {
    if a < b {
      OffsetRises(c, tr, b);
      OffsetsRise(c, tr, a, b - 1);
    }
  }

  lemma RunInvAt(c: Config, tr: seq<State>, k: nat)
    requires Run(c, tr) && k < |tr|
    ensures Inv(c, tr[k])
  {
    RunPrefix(c, tr, k + 1);
    RunInv(c, tr[..k + 1]);
  }

  /** The step that leads to state `k` of a run, from a state that meets the invariant. */
  lemma StepOf(c: Config, tr: seq<State>, k: nat) returns (p: nat)
    requires Run(c, tr) && 0 < k < |tr|
    ensures Inv(c, tr[k - 1]) && p in tr[k - 1].co && Step(c, tr[k - 1], tr[k], p)
  {
    RunInvAt(c, tr, k - 1);
    assert NextAt(c, tr, k);
    p :| p in tr[k - 1].co && Step(c, tr[k - 1], tr[k], p);
  }

  lemma RunStep(c: Config, tr: seq<State>, k: nat) returns (p: nat)
    requires Run(c, tr) && 0 < k < |tr|
    ensures Inv(c, tr[k - 1]) && p in tr[k - 1].co && Effect(c, tr[k - 1], tr[k], p)
  {
    p := StepOf(c, tr, k);
    StepEffect(c, tr[k - 1], tr[k], p);
  }

  /** With step `k` coroutine `i` begins to write its chunk, by itself or by copy offloading. */
  ghost predicate BeginsWrite(tr: seq<State>, k: nat, i: nat) {
    && 0 < k < |tr| && i in tr[k - 1].co && i in tr[k].co
    && !InWrite(tr[k - 1].co[i]) && InWrite(tr[k].co[i])
  }

  /** Coroutine `i` has the chunk that starts at `at`. */
  ghost predicate Has(s: State, i: nat, at: nat) {
    i in s.co && Holder(s.co[i]) && s.co[i].start == at
  }

  ghost predicate HasFrom(tr: seq<State>, a: nat, b: nat, i: nat, at: nat) {
    b < |tr| && forall k {:trigger Has(tr[k], i, at)} :: a <= k <= b ==> Has(tr[k], i, at)
  }

  /** As long as `wrOffs` stays, the coroutine that has the chunk there keeps it. */
  lemma KeepsTurn(c: Config, tr: seq<State>, k: nat, i: nat, at: nat)
    requires Run(c, tr) && c.wrInOrder && 0 < k < |tr| && tr[k].ret == InProgress
    requires Has(tr[k - 1], i, at) && tr[k - 1].wrOffs == at == tr[k].wrOffs
    ensures Has(tr[k], i, at)
  {
    var p := RunStep(c, tr, k);
    OffsetNeverFalls(c, tr[k - 1], tr[k], p);
    if i != p {
      assert LeavesAlone(tr[k - 1], tr[k], p, i);
    }
  }

  lemma {:induction false} KeepsTurnBetween(c: Config, tr: seq<State>, a: nat, b: nat, i: nat, at: nat)
    requires Run(c, tr) && c.wrInOrder && a <= b < |tr| && tr[b].ret == InProgress
    requires Has(tr[a], i, at) && tr[a].wrOffs == at == tr[b].wrOffs
    ensures HasFrom(tr, a, b, i, at)
    decreases b - a
  {
    if a < b {
      OffsetsRise(c, tr, b - 1, b);
      OffsetsRise(c, tr, a, b - 1);
      KeepsTurnBetween(c, tr, a, b - 1, i, at);
      KeepsTurn(c, tr, b, i, at);
    }
  }

  /** In every run, while there is no error: writes begin in the order of their chunks.  A chunk is begun
      twice only if its coroutine still has it, after copy offloading was given up; every other chunk that
      is begun later starts later. */
  lemma WritesInOrder(c: Config, tr: seq<State>, k: nat, i: nat, k': nat, j: nat)
    requires Run(c, tr) && c.wrInOrder && k < k' < |tr| && tr[k'].ret == InProgress
    requires BeginsWrite(tr, k, i) && BeginsWrite(tr, k', j)
    ensures tr[k].co[i].start < tr[k'].co[j].start
      || (i == j && HasFrom(tr, k, k', i, tr[k].co[i].start))
  {
    OffsetsRise(c, tr, k, k');
    InTurn(c, tr, k, i);
    InTurn(c, tr, k', j);
    if tr[k].co[i].start == tr[k'].co[j].start {
      KeepsTurnBetween(c, tr, k, k', i, tr[k].wrOffs);
      assert Has(tr[k'], i, tr[k].wrOffs);
      SameStart(c, tr[k'], i, j);
    }
  }

  /** A chunk that is being written is the one at `wrOffs`. */
  lemma InTurn(c: Config, tr: seq<State>, k: nat, i: nat)
    requires Run(c, tr) && c.wrInOrder && k < |tr| && tr[k].ret == InProgress && i in tr[k].co && InWrite(tr[k].co[i])
    ensures Inv(c, tr[k]) && Has(tr[k], i, tr[k].wrOffs)
  {
    RunInvAt(c, tr, k);
    OneWriter(c, tr[k], i, i);
  }

  lemma SameStart(c: Config, s: State, i: nat, j: nat)
    requires Valid(c) && Inv(c, s) && i in s.co && j in s.co && Holder(s.co[i]) && Holder(s.co[j])
    requires s.co[i].start == s.co[j].start
    ensures i == j
  {
    assert CoOk(c, s.sectorNum, s.co[i]) && CoOk(c, s.sectorNum, s.co[j]);
    assert i != j ==> Disjoint(s.co[i], s.co[j]);
  }

  // ----- Claimed chunks -----

  /** With step `k` coroutine `i` takes a chunk. */
  ghost predicate Takes(tr: seq<State>, k: nat, i: nat) {
    && 0 < k < |tr| && i in tr[k - 1].co && i in tr[k].co
    && tr[k - 1].co[i].pc == Querying && tr[k].co[i].pc == Deciding
  }

  /** The chunks taken in a run, in the order in which they were taken, as pairs of start and end. */
  ghost function Taken(tr: seq<State>): seq<(nat, nat)> {
    if |tr| <= 1 then []
    else
      var k := |tr| - 1;
      Taken(tr[..k]) +
      if i :| Takes(tr, k, i) then [(tr[k].co[i].start, End(tr[k].co[i]))] else []
  }

  /** The chunks follow one another without gap or overlap from 0 to `end`, and none is empty. */
  ghost predicate Tiles(chunks: seq<(nat, nat)>, end: nat) {
    if chunks == [] then end == 0
    else
      var last := chunks[|chunks| - 1];
      last.0 < last.1 == end && Tiles(chunks[..|chunks| - 1], last.0)
  }

  /** A step takes the chunk that starts at `sectorNum`, or none. */
  lemma StepTakes(c: Config, tr: seq<State>, k: nat)
    requires Run(c, tr) && 0 < k < |tr|
    ensures forall i :: Takes(tr, k, i) ==>
      tr[k].co[i].start == tr[k - 1].sectorNum < End(tr[k].co[i]) == tr[k].sectorNum
    ensures (forall i :: !Takes(tr, k, i)) ==> tr[k].sectorNum == tr[k - 1].sectorNum
  {
    var p := RunStep(c, tr, k);
    var s, s' := tr[k - 1], tr[k];
    assert forall i :: i in s.co && i != p ==> LeavesAlone(s, s', p, i);
    assert Takes(tr, k, p) <==> tr[k - 1].co[p].pc == Querying && tr[k].co[p].pc == Deciding;
  }

  /** In every run, also after errors, the chunks taken partition the sectors up to `sectorNum` in the order
      in which they were taken. */
  lemma {:induction false} ChunksPartition(c: Config, tr: seq<State>)
    requires Run(c, tr)
    ensures Tiles(Taken(tr), tr[|tr| - 1].sectorNum)
  {
    var k := |tr| - 1;
    if k > 0 {
      var before := tr[..k];
      RunPrefix(c, tr, k);
      ChunksPartition(c, before);
      StepTakes(c, tr, k);
      if i :| Takes(tr, k, i) {
        assert Taken(tr) == Taken(before) + [(tr[k - 1].sectorNum, tr[k].sectorNum)];
        assert Taken(tr)[..|Taken(tr)| - 1] == Taken(before);
      } else {
        assert Taken(tr) == Taken(before);
      }
    }
  }

  /** The chunk before a parked coroutine's, when it is finished, wakes that coroutine: also after an
      error, which may have moved `wrOffs` out of order. */
  lemma FinishWakes(c: Config, s: State, s': State, i: nat, j: nat)
    requires Valid(c) && Inv(c, s) && i in s.co && s.co[i].pc == Finishing && Step(c, s, s', i)
    requires j in s.co && s.co[j].pc == Parked && s.co[j].start == End(s.co[i])
    ensures j in s'.co && s'.co[j].pc == Ordering
  {
    FinishIs(c, s, s', i);
  }

  /** No coroutine is stranded: behind every parked one there is one with an earlier chunk that is not
      parked. */
  lemma {:induction false} NoStrandedWaiter(c: Config, s: State, i: nat) returns (j: nat)
    requires Valid(c) && Inv(c, s) && i in s.co && s.co[i].pc == Parked
    ensures j in s.co && Holder(s.co[j]) && s.co[j].pc != Parked && End(s.co[j]) <= s.co[i].start
    decreases s.co[i].start
  {
    assert HasPredecessor(s, s.co[i].start);
    j :| j in s.co && Holder(s.co[j]) && End(s.co[j]) == s.co[i].start;
    assert CoOk(c, s.sectorNum, s.co[j]);
    if s.co[j].pc == Parked {
      j := NoStrandedWaiter(c, s, j);
    }
  }

  /** In every state of every run, also after errors: before a parked coroutine there is one that is not
      parked and can go on. */
  lemma RunHasNoStrandedWaiter(c: Config, tr: seq<State>, k: nat, i: nat)
    requires Run(c, tr) && k < |tr| && i in tr[k].co && tr[k].co[i].pc == Parked
    ensures Valid(c) && Total(c) <= |tr[k].target|
    ensures exists j, s' :: j in Ahead(tr[k], i) && tr[k].co[j].pc != Parked && Step(c, tr[k], s', j)
  {
    RunInvAt(c, tr, k);
    var j := NoStrandedWaiter(c, tr[k], i);
    assert CoOk(c, tr[k].sectorNum, tr[k].co[j]);
    assert j in Ahead(tr[k], i);
    var s' := HolderSteps(c, tr[k], j);
  }

  /** A coroutine with a chunk is only ever held up by being parked. */
  lemma HolderSteps(c: Config, s: State, i: nat) returns (s': State)
    requires Valid(c) && Inv(c, s) && i in s.co && Holder(s.co[i]) && s.co[i].pc != Parked
    ensures Step(c, s, s', i)
  {
    var x := s.co[i];
    assert CoOk(c, s.sectorNum, x);
    match x.pc {
      case Deciding =>
        x := x.(offload := s.copyRange && s.status == Data);
        s' := Put(s, i,
          if x.status == Data && !x.offload then x.(pc := Reading)
          else if c.minSparse == 0 && x.status == Zero then
            x.(pc := Ordering, status := Data, buf := seq(x.n, _ => ZERO))
          else x.(pc := Ordering));
      case Reading =>
        var buf := Flat(c.src)[x.start..End(x)];
        assert Loaded(c, x.start, buf, {});
        s' := Put(s.(bad := s.bad + {}), i, x.(pc := Ordering, buf := buf));
        assert ReadLoaded(c, s, s', i, buf, {});
      case Ordering =>
        s' := Put(s, i,
          if c.wrInOrder && s.wrOffs != x.start && s.ret == InProgress then x.(pc := Parked)
          else if s.ret != InProgress then x.(pc := Finishing)
          else if x.offload then x.(pc := Copying)
          else x.(pc := Writing));
      case Copying =>
        s' := CopyStep(c, s, i);
      case Writing =>
        s' := WriteStep(c, s, i);
      case Finishing =>
        s' := FinishStep(c, s, i);
    }
  }

  lemma CopyStep(c: Config, s: State, i: nat) returns (s': State)
    requires Valid(c) && Structure(c, s) && i in s.co && s.co[i].pc == Copying && CoOk(c, s.sectorNum, s.co[i])
    ensures Copy(c, s, s', i)
  {
    var x := s.co[i];
    if x.cur >= End(x) {
      s' := Put(s, i, x.(pc := Finishing));
    } else {
      var buf := Flat(c.src)[x.cur..End(x)];
      s' := Put(s.(target := Splice(s.target, x.cur, buf)), i, x.(cur := x.cur + |buf|));
      assert CopyDone(c, s, s', i, buf);
    }
  }

  lemma WriteStep(c: Config, s: State, i: nat) returns (s': State)
    requires Valid(c) && Structure(c, s) && i in s.co && s.co[i].pc == Writing && CoOk(c, s.sectorNum, s.co[i])
    ensures WriteOne(c, s, s', i)
  {
    var x := s.co[i];
    if x.cur >= End(x) {
      s' := Put(s, i, x.(pc := Finishing));
    } else {
      var m := End(x) - x.cur;
      var request :=
        if x.status == Data then Write else if x.status == Zero && !c.hasZeroInit then WriteZeroes else Skip;
      s' := Put(s.(target := Sent(s.target, x, m, request)), i, x.(cur := x.cur + m));
      assert WriteDone(c, s, s', i, m, request);
    }
  }

  lemma FinishStep(c: Config, s: State, i: nat) returns (s': State)
    requires i in s.co && s.co[i].pc == Finishing
    ensures Finish(c, s, s', i)
  {
    var x := s.co[i];
    var t := Put(s, i, x.(pc := AtLoop));
    if !c.wrInOrder {
      s' := t;
    } else if j :| j in s.co && s.co[j].pc == Parked && s.co[j].start == End(x) {
      s' := Put(t.(wrOffs := End(x)), j, s.co[j].(pc := Ordering));
    } else {
      s' := t.(wrOffs := End(x));
    }
  }

  // ----- Progress -----

  /** The coroutine need not wait for others before it writes. */
  predicate Due(c: Config, s: State, x: Co) {
    !c.wrInOrder || s.wrOffs == x.start || s.ret != InProgress
  }

  /** How far a coroutine is from the end of its chunk: whether it may have to start over because copy
      offloading fails, where it is, and how many sectors it still has to write. */
  datatype Rank = Rank(retries: nat, stage: nat, sectors: nat)

  function RankOf(c: Config, s: State, x: Co): Rank {
    var retries := match x.pc {
      case Deciding => if s.copyRange then 1 else 0
      case Ordering => if x.offload then 1 else 0
      case Parked => if x.offload then 1 else 0
      case Copying => 1
      case _ => 0
    };
    var stage := match x.pc {
      case Deciding => 7
      case Reading => 6
      case Ordering => if Due(c, s, x) then 3 else 5
      case Parked => 4
      case Copying => 2
      case Writing => 2
      case Finishing => 1
      case _ => 0
    };
    Rank(retries, stage, if InWrite(x) && x.cur < End(x) then End(x) - x.cur else 0)
  }

  predicate Nearer(r: Rank, r': Rank) {
    || r'.retries < r.retries
    || (r'.retries == r.retries && (r'.stage < r.stage || (r'.stage == r.stage && r'.sectors < r.sectors)))
  }

  /** Every step that a coroutine takes with its chunk brings it nearer to the end of it. */
  lemma HolderProgress(c: Config, s: State, s': State, i: nat)
    requires Valid(c) && Inv(c, s) && i in s.co && Holder(s.co[i]) && Step(c, s, s', i)
    ensures i in s'.co
    ensures if s.co[i].pc == Finishing then s'.co[i].pc == AtLoop
      else Holder(s'.co[i]) && Nearer(RankOf(c, s, s.co[i]), RankOf(c, s', s'.co[i]))
  {
    assert CoOk(c, s.sectorNum, s.co[i]);
    match s.co[i].pc {
      case Finishing => FinishIs(c, s, s', i);
      case Copying => CopyProgress(c, s, s', i);
      case Writing => WriteProgress(c, s, s', i);
      case Reading => ReadProgress(c, s, s', i);
      case Parked =>
      case _ => DecideProgress(c, s, s', i);
    }
  }

  lemma DecideProgress(c: Config, s: State, s': State, i: nat)
    requires i in s.co && (Decide(c, s, s', i) || Order(c, s, s', i))
    ensures i in s'.co && Holder(s'.co[i]) && Nearer(RankOf(c, s, s.co[i]), RankOf(c, s', s'.co[i]))
  {}

  lemma ReadProgress(c: Config, s: State, s': State, i: nat)
    requires Valid(c) && i in s.co && s.sectorNum <= Total(c) && CoOk(c, s.sectorNum, s.co[i]) && ReadDone(c, s, s', i)
    ensures i in s'.co && Holder(s'.co[i]) && Nearer(RankOf(c, s, s.co[i]), RankOf(c, s', s'.co[i]))
  {
    if buf, bad :| ReadLoaded(c, s, s', i, buf, bad) {
    } else {
      var e :| ReadFailed(c, s, s', i, e);
    }
  }

  lemma CopyProgress(c: Config, s: State, s': State, i: nat)
    requires Valid(c) && i in s.co && s.sectorNum <= Total(c) <= |s.target|
    requires CoOk(c, s.sectorNum, s.co[i]) && Copy(c, s, s', i)
    ensures i in s'.co && Holder(s'.co[i]) && Nearer(RankOf(c, s, s.co[i]), RankOf(c, s', s'.co[i]))
  {
    if s.co[i].cur < End(s.co[i]) {
      var buf :| CopyDone(c, s, s', i, buf) || CopyFailed(c, s, s', i, buf);
    }
  }

  lemma WriteProgress(c: Config, s: State, s': State, i: nat)
    requires Valid(c) && i in s.co && s.sectorNum <= Total(c) <= |s.target|
    requires CoOk(c, s.sectorNum, s.co[i]) && WriteOne(c, s, s', i)
    ensures i in s'.co && Holder(s'.co[i]) && Nearer(RankOf(c, s, s.co[i]), RankOf(c, s', s'.co[i]))
  {
    if s.co[i].cur < End(s.co[i]) {
      var m: nat, request :| WriteDone(c, s, s', i, m, request) || WriteFailed(c, s, s', i, m, request);
    }
  }

  /** Once a coroutine is due it stays so. */
  lemma DueStays(c: Config, s: State, s': State, p: nat, i: nat)
    requires Valid(c) && Inv(c, s) && p in s.co && i in s.co && i != p && Effect(c, s, s', p)
    requires Holder(s.co[i]) && Due(c, s, s.co[i])
    ensures Due(c, s', s.co[i])
  {
    if c.wrInOrder && s'.ret == InProgress && s.co[p].pc == Finishing {
      assert CoContent(c, s, s.co[p]) && CoOk(c, s.sectorNum, s.co[p]);
      if s.wrOffs == s.co[i].start {
        SameStart(c, s, i, p);
      }
    }
  }

  /** A step of another coroutine never sets a coroutine back; to wake it is progress. */
  lemma OthersNeverSetBack(c: Config, s: State, s': State, p: nat, i: nat)
    requires Valid(c) && Inv(c, s) && p in s.co && i in s.co && i != p && Effect(c, s, s', p) && Holder(s.co[i])
    ensures i in s'.co && Holder(s'.co[i]) && s'.co[i].start == s.co[i].start
    ensures RankOf(c, s', s'.co[i]) == RankOf(c, s, s.co[i]) || Nearer(RankOf(c, s, s.co[i]), RankOf(c, s', s'.co[i]))
    ensures s.co[i].pc == Parked && s'.co[i].pc != Parked ==> s'.co[i].pc == Ordering && Due(c, s', s'.co[i])
  {
    assert LeavesAlone(s, s', p, i);
    assert CoOk(c, s.sectorNum, s.co[i]);
    if Due(c, s, s.co[i]) {
      DueStays(c, s, s', p, i);
    }
  }

  /** The coroutines whose chunks come before the one of `i`. */
  function Ahead(s: State, i: nat): set<nat>
    requires i in s.co
  {
    set j | j in s.co && Holder(s.co[j]) && s.co[j].start < s.co[i].start
  }

  /** Nobody gets ahead of a coroutine that has a chunk, and who finishes is no longer ahead. */
  lemma AheadNeverGrows(c: Config, s: State, s': State, p: nat, i: nat)
    requires Valid(c) && Inv(c, s) && p in s.co && i in s.co && i != p && Effect(c, s, s', p) && Holder(s.co[i])
    ensures i in s'.co && Ahead(s', i) <= Ahead(s, i)
    ensures s.co[p].pc == Finishing ==> p !in Ahead(s', i)
  {
    assert LeavesAlone(s, s', p, i);
    assert CoOk(c, s.sectorNum, s.co[i]);
    forall j | j in Ahead(s', i) ensures j in Ahead(s, i) {
      if j != p {
        assert LeavesAlone(s, s', p, j);
      }
    }
  }

  /** Coroutine `j` has not been set back. */
  ghost predicate NotSetBack(c: Config, s: State, s': State, j: nat) {
    && j in s.co && j in s'.co
    && (RankOf(c, s', s'.co[j]) == RankOf(c, s, s.co[j]) || Nearer(RankOf(c, s, s.co[j]), RankOf(c, s', s'.co[j])))
  }

  /** What a step of `p` means for coroutine `i`, which is parked: it is woken to go on, or the ones ahead of
      it get no more and none of them is set back; and if `p` is one of them, it has come nearer to the end
      of its chunk or is done with it. */
  ghost predicate WaitShrinks(c: Config, s: State, s': State, p: nat, i: nat)
    requires i in s.co && p in s.co
  {
    && i in s'.co && p in s'.co
    && (s'.co[i].pc == Parked || (s'.co[i].pc == Ordering && Due(c, s', s'.co[i])))
    && Ahead(s', i) <= Ahead(s, i)
    && (forall j {:trigger NotSetBack(c, s, s', j)} :: j in Ahead(s', i) ==> NotSetBack(c, s, s', j))
    && (p in Ahead(s, i) ==> p !in Ahead(s', i) || Nearer(RankOf(c, s, s.co[p]), RankOf(c, s', s'.co[p])))
  }

  lemma StepShrinksWait(c: Config, s: State, s': State, p: nat, i: nat)
    requires Valid(c) && Inv(c, s) && p in s.co && i in s.co && s.co[i].pc == Parked && i != p && Effect(c, s, s', p)
    requires p in s'.co && Holder(s.co[p]) ==>
      s.co[p].pc == Finishing || Nearer(RankOf(c, s, s.co[p]), RankOf(c, s', s'.co[p]))
    ensures WaitShrinks(c, s, s', p, i)
  {
    AheadNeverGrows(c, s, s', p, i);
    OthersNeverSetBack(c, s, s', p, i);
    forall j | j in Ahead(s', i) ensures NotSetBack(c, s, s', j) {
      assert j in Ahead(s, i);
      if j != p {
        OthersNeverSetBack(c, s, s', p, j);
      }
    }
  }

  lemma ParkedStep(c: Config, s: State, s': State, p: nat, i: nat)
    requires Valid(c) && Inv(c, s) && p in s.co && i in s.co && s.co[i].pc == Parked && Step(c, s, s', p)
    ensures WaitShrinks(c, s, s', p, i)
  {
    StepEffect(c, s, s', p);
    if Holder(s.co[p]) {
      HolderProgress(c, s, s', p);
    }
    StepShrinksWait(c, s, s', p, i);
  }

  /** No coroutine stays parked, in any run, also after errors: every step shortens its wait or leaves it as it
      is.  By RunHasNoStrandedWaiter one of those ahead of it can always go on. */
  lemma ParkedComesNearer(c: Config, tr: seq<State>, k: nat, i: nat) returns (p: nat)
    requires Run(c, tr) && 0 < k < |tr| && i in tr[k - 1].co && tr[k - 1].co[i].pc == Parked
    ensures Total(c) <= |tr[k - 1].target| && p in tr[k - 1].co && Step(c, tr[k - 1], tr[k], p)
    ensures WaitShrinks(c, tr[k - 1], tr[k], p, i)
  {
    p := StepOf(c, tr, k);
    ParkedStep(c, tr[k - 1], tr[k], p, i);
  }
}
