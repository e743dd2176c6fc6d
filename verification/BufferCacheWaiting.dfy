/** The cache with its waiting path: what a thread does when sema_try_down has failed.  The path
    comes back to its ASSERTs with the wrong locks, so no run fails one if and only if at most 64
    threads use the cache. */
module BufferCacheWaiting {
  import opened Storage
  import opened BufferCache
  import opened BufferCacheSafety
  import opened BufferCacheProgress
  import opened BufferCacheStarvation

  /** Where a thread that has found no permit is; `hit` tells which of the two loops it is in. */
  datatype Wait =
    | Off
    | ToLock(hit: bool)        // lock_acquire (&inactive_lock)
    | ToQueue(hit: bool)       // cond_wait: queue up and release inactive_lock
    | Asleep(hit: bool)
    | ToRelock(hit: bool)      // signalled: lock_acquire at the end of cond_wait
    | ToUnlock(hit: bool)      // lock_release (&inactive_lock)
    | LookAgain                // acquire_buffer_entry_lock, then check_buffer_presence
    | ScanAgain                // lock_acquire (&buffer_cache_lock), then check_sector_cached

  datatype Whole = Whole(s: State, waits: seq<Wait>) {
    predicate Ok() {
      Shape(s) && |waits| == |s.pcs|
    }

    function Put(t: nat, s': State, x: Wait): Whole
      requires t < |waits|
    {
      Whole(s', waits[t := x])
    }
  }

  // ---------- Steps ----------

  /** cond_broadcast. */
  function Signalled(waits: seq<Wait>): (r: seq<Wait>)
    ensures |r| == |waits|
  {
    seq(|waits|, t requires 0 <= t < |waits| => if waits[t].Asleep? then ToRelock(waits[t].hit) else waits[t])
  }

  /** A step of the cache proper; a thread that finds no permit turns to the waiting path, one
      that leaves signals all that wait. */
  function Plain(w: Whole, t: nat): (w': Whole)
    requires w.Ok() && t < |w.waits|
    ensures w'.Ok() && |w'.waits| == |w.waits|
  {
    var pc, s' := w.s.pcs[t], Step(w.s, t);
    if s'.pcs[t].Starved? && !pc.Starved? then w.Put(t, s', ToLock(pc.Hit?))
    else if pc.Leave? && pc.leave == LeaveDone && s'.pcs[t].Idle? then Whole(s', Signalled(w.waits))
    else Whole(s', w.waits)
  }

  function LockWake(w: Whole, t: nat, x: Wait): (w': Whole)
    requires w.Ok() && t < |w.waits|
    ensures w'.Ok() && |w'.waits| == |w.waits|
  {
    if w.s.wakeLock == Some(t) then w.Put(t, w.s.Panic(t), Off)
    else if w.s.wakeLock.Some? then w
    else w.Put(t, w.s.(wakeLock := Some(t)), x)
  }

  function UnlockWake(w: Whole, t: nat, x: Wait): (w': Whole)
    requires w.Ok() && t < |w.waits|
    ensures w'.Ok() && |w'.waits| == |w.waits|
  {
    if w.s.wakeLock != Some(t) then w.Put(t, w.s.Panic(t), Off) else w.Put(t, w.s.(wakeLock := None), x)
  }

  /** Back from cond_wait: the lookup, or the scan, begins anew. */
  function Again(w: Whole, t: nat, hit: bool): (w': Whole)
    requires w.Ok() && t < |w.waits|
    ensures w'.Ok() && |w'.waits| == |w.waits|
  {
    if !w.s.pcs[t].Starved? || !AccessOk(w.s.pcs[t].r, |w.s.device|) then w
    else
      var r := w.s.pcs[t].r;
      if hit then w.Put(t, w.s.Goto(t, Hit(HitLock, r, 0)), LookAgain)
      else w.Put(t, w.s.Goto(t, Miss(MissLock, r, 0)), ScanAgain)
  }

  /** The loop of read_buffered and write_buffered: after the lookup check_buffer_presence asks
      for buffer_cache_lock, which the lookup has given up. */
  function StepLook(w: Whole, t: nat): (w': Whole)
    requires w.Ok() && t < |w.waits|
    ensures w'.Ok() && |w'.waits| == |w.waits|
  {
    match w.s.pcs[t]
    case Hit(HitPermit, r, i) =>
      if w.s.lock != Some(t) then w.Put(t, w.s.Panic(t), Off)
      else if w.s.Caches(i, r.sector) && w.s.slots[i].value.holder == Some(t) then w.Put(t, w.s, Off)
      else w.Put(t, w.s.Goto(t, Miss(MissLock, r, 0)), Off)
    case Hit(_, _, _) => Plain(w, t)
    case _ => Plain(w.Put(t, w.s, Off), t)
  }

  /** The loop of the miss path: a sector that has come into the cache is looked up without
      giving up buffer_cache_lock. */
  function StepScan(w: Whole, t: nat): (w': Whole)
    requires w.Ok() && t < |w.waits|
    ensures w'.Ok() && |w'.waits| == |w.waits|
  {
    match w.s.pcs[t]
    case Miss(MissScan, r, i) =>
      if i < SLOTS && w.s.Caches(i, r.sector) then w.Put(t, w.s.Goto(t, Hit(HitLock, r, 0)), Off) else Plain(w, t)
    case Miss(MissLock, _, _) => Plain(w, t)
    case _ => Plain(w.Put(t, w.s, Off), t)
  }

  function WholeStep(w: Whole, t: nat): (w': Whole)
    requires w.Ok() && t < |w.waits|
    ensures w'.Ok() && |w'.waits| == |w.waits|
  {
    match w.waits[t]
    case Off => Plain(w, t)
    case ToLock(hit) => LockWake(w, t, ToQueue(hit))
    case ToQueue(hit) => UnlockWake(w, t, Asleep(hit))
    case Asleep(_) => w
    case ToRelock(hit) => LockWake(w, t, ToUnlock(hit))
    case ToUnlock(hit) => if w.s.wakeLock != Some(t) then UnlockWake(w, t, Off) else Again(UnlockWake(w, t, Off), t, hit)
    case LookAgain => StepLook(w, t)
    case ScanAgain => StepScan(w, t)
  }

  function WholeDo(w: Whole, a: Action): (w': Whole)
    requires w.Ok()
    ensures w'.Ok() && |w'.waits| == |w.waits|
  {
    if a.Call? then Whole(Do(w.s, a), w.waits)
    else if a.t >= |w.waits| then w
    else WholeStep(w, a.t)
  }

  function WholeAfter(device: seq<Data>, n: nat, run: seq<Action>): (w: Whole)
    ensures w.Ok() && |w.waits| == n
  {
    if run == [] then Whole(Init(device, n), seq(n, _ => Off))
    else WholeDo(WholeAfter(device, n, run[..|run| - 1]), run[|run| - 1])
  }

  // ---------- As long as there are permits ----------

  ghost predicate AnyStarved(s: State) {
    exists t :: 0 <= t < |s.pcs| && s.pcs[t].Starved?
  }

  /** In the cache proper a thread without a permit stays where it is. */
  lemma StarvedStays(s: State, a: Action, t: nat)
    requires Inv(s) && t < |s.pcs| && s.pcs[t].Starved?
    ensures Do(s, a).pcs[t].Starved?
  {
    if a.Go? && a.t < |s.pcs| {
      StepPcs(s, a.t);
    }
  }

  /** So while no thread has found no permit, the waiting path adds nothing. */
  lemma {:induction false} SameRun(device: seq<Data>, n: nat, run: seq<Action>)
    requires !AnyStarved(After(device, n, run))
    ensures WholeAfter(device, n, run) == Whole(After(device, n, run), seq(n, _ => Off))
  {
    if run != [] {
      var past, a := run[..|run| - 1], run[|run| - 1];
      var s := After(device, n, past);
      AlwaysInv(device, n, past);
      forall t | 0 <= t < n ensures !s.pcs[t].Starved? {
        if s.pcs[t].Starved? { StarvedStays(s, a, t); }
      }
      SameRun(device, n, past);
      var off: seq<Wait> := seq(n, _ => Off);
      assert Signalled(off) == off;
      assert !a.Call? && a.t < n ==> !Do(s, a).pcs[a.t].Starved?;
    }
  }

  /** With at most 64 threads no run fails an ASSERT. */
  lemma FewNeverFail(device: seq<Data>, n: nat, run: seq<Action>, t: nat)
    requires n <= SLOTS && t < n
    ensures !WholeAfter(device, n, run).s.pcs[t].Panicked?
  {
    NeverStarved(device, n, run);
    SameRun(device, n, run);
    NeverPanics(device, n, run);
  }

  // ---------- With one thread more ----------

  /** Thread `t` has found no permit at a hit in slot 0; thread 0 is about to give its own back. */
  ghost predicate Stuck(w: Whole, t: nat, at: Wait) {
    && w.Ok() && 0 < t < |w.waits| && |w.s.device| > 0 && w.s.lock.None? && w.s.wakeLock.None?
    && w.s.Caches(0, 0) && w.s.slots[0].value.holder.None?
    && w.s.pcs[t] == Starved(R) && w.waits[t] == at && w.waits[0] == Off
    && w.s.pcs[0].Leave? && w.s.pcs[0].leave == LeavePermit
  }

  function Go2(w: Whole, t: nat): Whole
    requires w.Ok() && t < |w.waits|
  {
    WholeStep(WholeStep(w, t), t)
  }

  /** It goes to sleep, ... */
  lemma Sleeps(w: Whole, t: nat)
    requires Stuck(w, t, ToLock(true))
    ensures Stuck(Go2(w, t), t, Asleep(true))
  {
    var w1 := WholeStep(w, t);
    assert w1 == w.Put(t, w.s.(wakeLock := Some(t)), ToQueue(true));
  }

  /** ... thread 0 leaves and signals it, ... */
  lemma Signals(w: Whole, t: nat)
    requires Stuck(w, t, Asleep(true))
    ensures var w' := WholeStep(Go2(w, 0), 0);
      && w'.Ok() && 0 < t < |w'.waits| && |w'.s.device| > 0 && w'.s.lock.None? && w'.s.wakeLock.None?
      && w'.s.Caches(0, 0) && w'.s.slots[0].value.holder.None?
      && w'.s.pcs[t] == Starved(R) && w'.waits[t] == ToRelock(true)
  {
    var i, res := w.s.pcs[0].i, w.s.pcs[0].res;
    var w1 := WholeStep(w, 0);
    assert w1 == Whole(w.s.(permits := w.s.permits + 1).Goto(0, Leave(LeaveWake, i, res)), w.waits);
    var w2 := WholeStep(w1, 0);
    assert w2 == Whole(w1.s.(wakeLock := Some(0)).Goto(0, Leave(LeaveDone, i, res)), w.waits);
    var w3 := WholeStep(w2, 0);
    assert w3.s == w2.s.(wakeLock := None).Log(Return(0, res)).Goto(0, Idle);
  }

  /** ... it comes back from cond_wait, ... */
  lemma Returns(w: Whole, t: nat)
    requires w.Ok() && 0 < t < |w.waits| && |w.s.device| > 0 && w.s.lock.None? && w.s.wakeLock.None?
    requires w.s.Caches(0, 0) && w.s.slots[0].value.holder.None? && w.s.pcs[t] == Starved(R) && w.waits[t] == ToRelock(true)
    ensures var w' := Go2(w, t);
      && w'.Ok() && t < |w'.waits| && |w'.s.device| > 0 && w'.s.lock.None? && w'.s.Caches(0, 0) && w'.s.slots[0].value.holder.None?
      && w'.s.pcs[t] == Hit(HitLock, R, 0) && w'.waits[t] == LookAgain
  {
    var w1 := WholeStep(w, t);
    assert w1 == w.Put(t, w.s.(wakeLock := Some(t)), ToUnlock(true));
  }

  /** ... finds its sector in the cache once more, ... */
  lemma Finds(w: Whole, t: nat)
    requires w.Ok() && t < |w.waits| && |w.s.device| > 0 && w.s.lock.None? && w.s.Caches(0, 0) && w.s.slots[0].value.holder.None?
    requires w.s.pcs[t] == Hit(HitLock, R, 0) && w.waits[t] == LookAgain
    ensures var w' := Go2(w, t);
      && w'.Ok() && w'.waits == w.waits && w'.s.lock == Some(t) && w'.s.slots == w.s.slots && w'.s.pcs == w.s.pcs[t := Hit(HitEntry, R, 0)]
  {
    var w1 := WholeStep(w, t);
    assert w1 == Whole(w.s.(lock := Some(t)).Goto(t, Hit(HitScan, R, 0)), w.waits);
    var w2 := WholeStep(w1, t);
    assert w2 == Whole(w1.s.Goto(t, Hit(HitEntry, R, 0)), w.waits);
  }

  /** ... locks its entry and gives up buffer_cache_lock, ... */
  lemma GivesUp(w: Whole, t: nat)
    requires w.Ok() && t < |w.waits| && w.s.lock == Some(t) && w.s.Caches(0, 0) && w.s.slots[0].value.holder.None?
    requires w.s.pcs[t] == Hit(HitEntry, R, 0) && w.waits[t] == LookAgain
    ensures var w' := WholeStep(Go2(w, t), t);
      w'.Ok() && w'.waits == w.waits && w'.s.lock.None? && t < |w'.s.pcs| && w'.s.pcs[t] == Hit(HitPermit, R, 0)
  {
    var w3 := WholeStep(w, t);
    assert w3.waits == w.waits && w3.s.pcs[t] == Hit(HitUse, R, 0) && w3.s.lock == Some(t) && w3.s.slots[0].Some?;
    var w4 := WholeStep(w3, t);
    assert w4.waits == w.waits && w4.s.pcs[t] == Hit(HitUnlock, R, 0) && w4.s.lock == Some(t);
  }

  /** ... and fails the ASSERT of check_buffer_presence. */
  lemma Fails(w: Whole, t: nat)
    requires w.Ok() && t < |w.waits| && w.s.lock.None? && w.s.pcs[t] == Hit(HitPermit, R, 0) && w.waits[t] == LookAgain
    ensures WholeStep(w, t).s.pcs[t].Panicked?
  {
  }

  lemma WholeOne(device: seq<Data>, n: nat, run: seq<Action>, t: nat)
    requires t < n
    ensures WholeAfter(device, n, run + [Go(t)]) == WholeStep(WholeAfter(device, n, run), t)
  {
    assert (run + [Go(t)])[..|run + [Go(t)]| - 1] == run;
  }

  lemma WholeTwo(device: seq<Data>, n: nat, run: seq<Action>, t: nat) returns (more: seq<Action>)
    requires t < n
    ensures WholeAfter(device, n, more) == Go2(WholeAfter(device, n, run), t)
  {
    WholeOne(device, n, run, t);
    WholeOne(device, n, run + [Go(t)], t);
    more := run + [Go(t)] + [Go(t)];
  }

  /** From there on a run that fails an ASSERT. */
  lemma FailsFrom(device: seq<Data>, n: nat, run: seq<Action>, t: nat) returns (more: seq<Action>)
    requires 0 < t < n && Stuck(WholeAfter(device, n, run), t, ToLock(true))
    ensures WholeAfter(device, n, more).s.pcs[t].Panicked?
  {
    hide WholeStep, Go2, WholeAfter;
    Sleeps(WholeAfter(device, n, run), t);
    var r1 := WholeTwo(device, n, run, t);
    Signals(WholeAfter(device, n, r1), t);
    var r2 := WholeTwo(device, n, r1, 0);
    WholeOne(device, n, r2, 0);
    var r3 := r2 + [Go(0)];
    Returns(WholeAfter(device, n, r3), t);
    var r4 := WholeTwo(device, n, r3, t);
    Finds(WholeAfter(device, n, r4), t);
    var r5 := WholeTwo(device, n, r4, t);
    GivesUp(WholeAfter(device, n, r5), t);
    var r6 := WholeTwo(device, n, r5, t);
    WholeOne(device, n, r6, t);
    Fails(WholeAfter(device, n, r6 + [Go(t)]), t);
    WholeOne(device, n, r6 + [Go(t)], t);
    more := r6 + [Go(t)] + [Go(t)];
  }

  /** The thread after the crowd finds no permit. */
  lemma GetsStuck(s: State, w: Whole)
    requires Inv(s) && SLOTS < |s.pcs| && w == Whole(s, seq(|s.pcs|, _ => Off)) && s.permits == 0 && s.lock.None? && |s.device| > 0
    requires s.pcs[SLOTS] == Hit(HitPermit, R, 0) && s.Caches(0, 0) && s.slots[0].value.holder == Some(SLOTS)
    requires forall j :: 0 <= j < |s.pcs| && j != SLOTS ==> s.pcs[j].Idle? || (s.pcs[j].Leave? && s.pcs[j].leave == LeavePermit)
    requires s.pcs[0].Leave?
    ensures Stuck(WholeStep(w, SLOTS), SLOTS, ToLock(true))
  {
    forall u | 0 <= u < |s.pcs| ensures s.wakeLock != Some(u) {
      assert Own(s, u);
    }
    var e := s.slots[0].value;
    assert Step(s, SLOTS) == s.SetEntry(0, e.(holder := None)).Goto(SLOTS, Starved(R));
  }

  lemma ManyFail(device: seq<Data>, n: nat) returns (run: seq<Action>)
    requires |device| > 0 && n > SLOTS
    ensures WholeAfter(device, n, run).s.pcs[SLOTS].Panicked?
  {
    var crowd := Crowd(device, n, SLOTS);
    EnterHit(After(device, n, crowd), SLOTS);
    AfterOne(device, n, crowd, Call(SLOTS, R));
    var enter := AfterSprint(device, n, crowd + [Call(SLOTS, R)], SLOTS, 5);
    var s := After(device, n, enter);
    assert !AnyStarved(s);
    SameRun(device, n, enter);
    AlwaysInv(device, n, enter);
    GetsStuck(s, WholeAfter(device, n, enter));
    WholeOne(device, n, enter, SLOTS);
    run := FailsFrom(device, n, enter + [Go(SLOTS)], SLOTS);
  }

  /** Over a device with a sector, no run fails an ASSERT if and only if at most 64 threads use
      the cache. */
  lemma AssertsHoldExactly(device: seq<Data>, n: nat)
    requires |device| > 0
    ensures n <= SLOTS <==> forall run, t :: 0 <= t < n ==> !WholeAfter(device, n, run).s.pcs[t].Panicked?
  {
    if n <= SLOTS {
      forall run, t | 0 <= t < n ensures !WholeAfter(device, n, run).s.pcs[t].Panicked? {
        FewNeverFail(device, n, run, t);
      }
    } else {
      var run := ManyFail(device, n);
      assert WholeAfter(device, n, run).s.pcs[SLOTS].Panicked?;
    }
  }
}
