/** The 64 permits are exactly enough for 64 threads: with one thread more there
    is a run in which sema_try_down fails and the cache's waiting path begins. */
module BufferCacheStarvation {
  import opened Storage
  import opened BufferCache
  import opened BufferCacheProgress

  function Iterate<S>(f: S -> S, s: S, m: nat): S
    decreases m
  {
    if m == 0 then s else Iterate(f, f(s), m - 1)
  }

  lemma {:induction false} IterateAdds<S>(f: S -> S, s: S, m: nat, k: nat)
    ensures Iterate(f, Iterate(f, s, m), k) == Iterate(f, s, m + k)
    decreases m
  {
    if m > 0 { IterateAdds(f, f(s), m - 1, k); }
  }

  /** A step of thread `t`. */
  function Mover(t: nat): State -> State {
    (s: State) => if Shape(s) && t < |s.pcs| then Step(s, t) else s
  }

  /** Thread `t` takes `m` steps in a row. */
  function Sprint(s: State, t: nat, m: nat): State {
    Iterate(Mover(t), s, m)
  }

  lemma {:induction false} SprintShape(s: State, t: nat, m: nat)
    requires Shape(s) && t < |s.pcs|
    ensures Shape(Sprint(s, t, m)) && |Sprint(s, t, m).pcs| == |s.pcs|
    decreases m
  {
    if m > 0 { SprintShape(Step(s, t), t, m - 1); }
  }

  lemma SprintAdds(s: State, t: nat, m: nat, k: nat)
    ensures Sprint(Sprint(s, t, m), t, k) == Sprint(s, t, m + k)
  {
    IterateAdds(Mover(t), s, m, k);
  }

  lemma Three(s: State, t: nat, s1: State, s2: State, s3: State)
    requires Shape(s) && Shape(s1) && Shape(s2) && t < |s.pcs| && t < |s1.pcs| && t < |s2.pcs|
    requires s1 == Step(s, t) && s2 == Step(s1, t) && s3 == Step(s2, t)
    ensures Sprint(s, t, 3) == s3
  {
    assert Sprint(s2, t, 1) == s3;
    assert Sprint(s1, t, 2) == s3;
  }

  lemma Five(s: State, t: nat, s1: State, s2: State, s3: State, s4: State, s5: State)
    requires Shape(s) && Shape(s1) && Shape(s2) && t < |s.pcs| && t < |s1.pcs| && t < |s2.pcs|
    requires Shape(s3) && Shape(s4) && t < |s3.pcs| && t < |s4.pcs|
    requires s1 == Step(s, t) && s2 == Step(s1, t) && s3 == Step(s2, t) && s4 == Step(s3, t) && s5 == Step(s4, t)
    ensures Sprint(s, t, 5) == s5
  {
    Three(s2, t, s3, s4, s5);
    assert Sprint(s1, t, 4) == s5;
  }

  lemma AfterOne(device: seq<Data>, n: nat, run: seq<Action>, a: Action)
    ensures After(device, n, run + [a]) == Do(After(device, n, run), a)
  {
    assert (run + [a])[..|run + [a]| - 1] == run;
  }

  /** A run may go on with any number of steps of thread `t`. */
  lemma {:induction false} AfterSprint(device: seq<Data>, n: nat, run: seq<Action>, t: nat, m: nat)
      returns (more: seq<Action>)
    requires t < n
    ensures After(device, n, more) == Sprint(After(device, n, run), t, m)
    decreases m
  {
    if m == 0 {
      more := run;
    } else {
      AfterOne(device, n, run, Go(t));
      more := AfterSprint(device, n, run + [Go(t)], t, m - 1);
    }
  }

  /** The first `k` threads stand just before giving their permits back, the
      others have not called yet. */
  ghost predicate Crowded(s: State, k: nat) {
    && Shape(s) && k <= |s.pcs| && |s.device| > 0 && s.lock.None? && s.permits == SLOTS - k
    && (forall j :: 0 <= j < k ==> s.pcs[j].Leave? && s.pcs[j].leave == LeavePermit)
    && (forall j :: k <= j < |s.pcs| ==> s.pcs[j].Idle?)
    && (if k == 0 then s.hand == 0 && (forall i :: 0 <= i < SLOTS ==> s.slots[i].None?)
        else s.Caches(0, 0) && s.slots[0].value.holder.None?)
  }

  const R: Req := Read(0, 0, 0)

  /** A hit in slot 0 from its call up to the permit. */
  lemma EnterHit(s: State, k: nat)
    requires 0 < k < |s.pcs| && Crowded(s, k)
    ensures var s' := Sprint(Do(s, Call(k, R)), k, 5);
      && Shape(s') && s'.pcs == s.pcs[k := Hit(HitPermit, R, 0)] && s'.permits == s.permits && s'.lock.None?
      && s'.device == s.device && s'.Caches(0, 0) && s'.slots[0].value.holder == Some(k)
  {
    hide Sprint;
    var s0 := Do(s, Call(k, R));
    var s1 := Step(s0, k);
    assert s1 == s0.(lock := Some(k)).Goto(k, Hit(HitScan, R, 0));
    var s2 := Step(s1, k);
    assert s2 == s1.Goto(k, Hit(HitEntry, R, 0));
    var s3 := Step(s2, k);
    assert s3.pcs[k] == Hit(HitUse, R, 0) && s3.lock == Some(k);
    var s4 := Step(s3, k);
    assert s4.pcs[k] == Hit(HitUnlock, R, 0) && s4.lock == Some(k);
    var s5 := Step(s4, k);
    Five(s0, k, s1, s2, s3, s4, s5);
  }

  /** From the permit on: the copy and the release of the entry's lock. */
  lemma FinishHit(s: State, k: nat)
    requires Shape(s) && k < |s.pcs| && s.pcs[k] == Hit(HitPermit, R, 0) && s.permits > 0
    requires s.Caches(0, 0) && s.slots[0].value.holder == Some(k) && |s.device| > 0
    ensures var s' := Sprint(s, k, 3);
      && Shape(s') && s'.pcs[k].Leave? && s'.pcs[k].leave == LeavePermit && s'.pcs == s.pcs[k := s'.pcs[k]]
      && s'.permits == s.permits - 1 && s'.lock == s.lock && s'.device == s.device
      && s'.Caches(0, 0) && s'.slots[0].value.holder.None?
  {
    var s1 := Step(s, k);
    assert s1 == s.(permits := s.permits - 1).Goto(k, Hit(HitCopy, R, 0));
    var s2 := Step(s1, k);
    assert s2.pcs[k] == Leave(LeaveEntry, 0, ResultOn(R, s.slots[0].value.buffer));
    var s3 := Step(s2, k);
    Three(s, k, s1, s2, s3);
  }

  ghost predicate Empty(s: State) {
    |s.slots| == SLOTS && forall i :: 0 <= i < SLOTS ==> s.slots[i].None?
  }

  /** Scanning an empty cache finds nothing. */
  lemma {:induction false} HitScansThrough(s: State, t: nat, i: nat)
    requires Shape(s) && t < |s.pcs| && Empty(s) && i <= SLOTS && s.pcs[t] == Hit(HitScan, R, i)
    ensures Sprint(s, t, SLOTS - i) == s.Goto(t, Hit(HitScan, R, SLOTS))
    decreases SLOTS - i
  {
    if i < SLOTS {
      var s1 := s.Goto(t, Hit(HitScan, R, i + 1));
      assert Step(s, t) == s1;
      HitScansThrough(s1, t, i + 1);
    } else {
      assert s.pcs[t := s.pcs[t]] == s.pcs;
    }
  }

  lemma {:induction false} MissScansThrough(s: State, t: nat, i: nat)
    requires Shape(s) && t < |s.pcs| && Empty(s) && i <= SLOTS && s.pcs[t] == Miss(MissScan, R, i)
    ensures Sprint(s, t, SLOTS - i) == s.Goto(t, Miss(MissScan, R, SLOTS))
    decreases SLOTS - i
  {
    if i < SLOTS {
      var s1 := s.Goto(t, Miss(MissScan, R, i + 1));
      assert Step(s, t) == s1;
      MissScansThrough(s1, t, i + 1);
    } else {
      assert s.pcs[t := s.pcs[t]] == s.pcs;
    }
  }

  /** The very first call misses in the lookup... */
  lemma FirstLookup(s: State)
    requires 0 < |s.pcs| && Crowded(s, 0)
    ensures var s' := Sprint(Do(s, Call(0, R)), 0, 1 + (SLOTS + 1));
      && Shape(s') && s'.pcs == s.pcs[0 := Miss(MissLock, R, 0)] && s'.lock.None? && s'.slots == s.slots
      && s'.device == s.device && s'.permits == s.permits && s'.hand == s.hand
  {
    var s0 := Do(s, Call(0, R));
    var s1 := Step(s0, 0);
    assert s1 == s0.(lock := Some(0)).Goto(0, Hit(HitScan, R, 0));
    HitScansThrough(s1, 0, 0);
    var s2 := s1.Goto(0, Hit(HitScan, R, SLOTS));
    Joins(s0, 0, s1, s2);
  }

  /** ... and again under the lock, ... */
  lemma FirstMiss(s: State)
    requires Shape(s) && 0 < |s.pcs| && Empty(s) && s.pcs[0] == Miss(MissLock, R, 0) && s.lock.None?
    ensures var s' := Sprint(s, 0, 1 + (SLOTS + 1));
      && Shape(s') && s'.pcs == s.pcs[0 := Miss(MissPermit, R, 0)] && s'.lock == Some(0) && s'.slots == s.slots
      && s'.device == s.device && s'.permits == s.permits && s'.hand == s.hand
  {
    var s1 := Step(s, 0);
    assert s1 == s.(lock := Some(0)).Goto(0, Miss(MissScan, R, 0));
    MissScansThrough(s1, 0, 0);
    var s2 := s1.Goto(0, Miss(MissScan, R, SLOTS));
    Joins(s, 0, s1, s2);
  }

  /** One step, a whole scan, and one more step. */
  lemma Joins(s: State, t: nat, s1: State, s2: State)
    requires Shape(s) && t < |s.pcs| && s1 == Step(s, t)
    requires Shape(s2) && t < |s2.pcs| && Sprint(s1, t, SLOTS) == s2
    ensures Sprint(s, t, 1 + (SLOTS + 1)) == Step(s2, t)
  {
    SprintAdds(s1, t, SLOTS, 1);
    assert Sprint(s2, t, 1) == Step(s2, t);
  }

  /** ... and then fills slot 0. */
  lemma FirstFill(s: State)
    requires Shape(s) && 0 < |s.pcs| && Empty(s) && s.pcs[0] == Miss(MissPermit, R, 0) && s.lock == Some(0)
    requires s.permits > 0 && s.hand == 0 && |s.device| > 0
    ensures var s' := Sprint(s, 0, 5);
      && Shape(s') && s'.pcs[0].Leave? && s'.pcs[0].leave == LeavePermit && s'.pcs == s.pcs[0 := s'.pcs[0]]
      && s'.permits == s.permits - 1 && s'.lock.None? && s'.device == s.device
      && s'.Caches(0, 0) && s'.slots[0].value.holder.None?
  {
    var s1 := Step(s, 0);
    assert s1 == s.(permits := s.permits - 1).Goto(0, Miss(MissFetch, R, 0));
    var s2 := Step(s1, 0);
    assert s2 == s1.Goto(0, Clock(ClockLook, R, s.device[0], 0));
    var s3 := Step(s2, 0);
    assert s3 == s2.Advance().Goto(0, Install(R, s.device[0], 0));
    var s4 := Step(s3, 0);
    assert s4.pcs[0].Leave? && s4.pcs[0].leave == LeaveGlobal;
    var s5 := Step(s4, 0);
    Five(s, 0, s1, s2, s3, s4, s5);
  }

  const SCAN: nat := 1 + (SLOTS + 1)

  lemma FirstScans(s: State)
    requires 0 < |s.pcs| && Crowded(s, 0)
    ensures var s' := Sprint(Do(s, Call(0, R)), 0, SCAN + SCAN);
      && Shape(s') && s'.pcs == s.pcs[0 := Miss(MissPermit, R, 0)] && s'.lock == Some(0) && s'.slots == s.slots
      && s'.device == s.device && s'.permits == s.permits && s'.hand == s.hand
  {
    var s0 := Do(s, Call(0, R));
    FirstLookup(s);
    FirstMiss(Sprint(s0, 0, SCAN));
    SprintAdds(s0, 0, SCAN, SCAN);
  }

  lemma FirstCall(s: State)
    requires 0 < |s.pcs| && Crowded(s, 0)
    ensures Crowded(Sprint(Do(s, Call(0, R)), 0, SCAN + SCAN + 5), 1)
  {
    var s0 := Do(s, Call(0, R));
    FirstScans(s);
    var s2 := Sprint(s0, 0, SCAN + SCAN);
    FirstFill(s2);
    SprintAdds(s0, 0, SCAN + SCAN, 5);
    var s3 := Sprint(s2, 0, 5);
    assert Crowded(s3, 1);
  }

  lemma LaterCall(s: State, k: nat)
    requires 0 < k < SLOTS && k < |s.pcs| && Crowded(s, k)
    ensures Crowded(Sprint(Do(s, Call(k, R)), k, 8), k + 1)
  {
    EnterHit(s, k);
    FinishHit(Sprint(Do(s, Call(k, R)), k, 5), k);
    SprintAdds(Do(s, Call(k, R)), k, 5, 3);
  }

  /** One more thread joins the crowd. */
  lemma Join(device: seq<Data>, n: nat, run: seq<Action>, k: nat) returns (more: seq<Action>)
    requires k < SLOTS && k < n && Crowded(After(device, n, run), k)
    ensures Crowded(After(device, n, more), k + 1)
  {
    var s := After(device, n, run);
    var m := if k == 0 then SCAN + SCAN + 5 else 8;
    if k == 0 { FirstCall(s); } else { LaterCall(s, k); }
    AfterOne(device, n, run, Call(k, R));
    more := AfterSprint(device, n, run + [Call(k, R)], k, m);
  }

  lemma {:induction false} Crowd(device: seq<Data>, n: nat, k: nat) returns (run: seq<Action>)
    requires |device| > 0 && k <= SLOTS && k <= n
    ensures Crowded(After(device, n, run), k)
  {
    if k == 0 {
      run := [];
    } else {
      var less := Crowd(device, n, k - 1);
      run := Join(device, n, less, k - 1);
    }
  }

  lemma NoPermitLeft(s: State, k: nat)
    requires Shape(s) && k < |s.pcs| && s.pcs[k] == Hit(HitPermit, R, 0) && s.permits == 0
    requires s.Caches(0, 0) && s.slots[0].value.holder == Some(k)
    ensures Step(s, k).pcs[k].Starved?
  {
  }

  lemma Overcrowd(device: seq<Data>, n: nat) returns (run: seq<Action>)
    requires |device| > 0 && n > SLOTS
    ensures After(device, n, run).pcs[SLOTS].Starved?
  {
    var crowd := Crowd(device, n, SLOTS);
    EnterHit(After(device, n, crowd), SLOTS);
    AfterOne(device, n, crowd, Call(SLOTS, R));
    var enter := AfterSprint(device, n, crowd + [Call(SLOTS, R)], SLOTS, 5);
    AfterOne(device, n, enter, Go(SLOTS));
    NoPermitLeft(After(device, n, enter), SLOTS);
    run := enter + [Go(SLOTS)];
  }

  /** The condition is exact: over a device with a sector, no run leaves a thread
      without a permit if and only if at most 64 threads use the cache. */
  lemma StarvationExactlyBeyond64(device: seq<Data>, n: nat)
    requires |device| > 0
    ensures n <= SLOTS <==>
      forall run, t :: 0 <= t < n ==> !After(device, n, run).pcs[t].Starved?
  {
    if n <= SLOTS {
      forall run, t | 0 <= t < n ensures !After(device, n, run).pcs[t].Starved? {
        NeverStarved(device, n, run);
      }
    } else {
      var run := Overcrowd(device, n);
      assert After(device, n, run).pcs[SLOTS].Starved?;
    }
  }
}
