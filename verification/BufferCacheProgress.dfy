/** With at most 64 threads the cache never runs out of permits, an eviction ends
    within 128 moves of the clock hand, and no set of threads is ever deadlocked. */
module BufferCacheProgress {
  import opened Counting
  import opened Storage
  import opened BufferCache
  import opened BufferCacheSafety

  // ---------- Permits ----------

  /** The thread has taken a permit and not given it back. */
  predicate HasPermit(pc: Pc) {
    match pc
    case Hit(at, _, _) => at == HitCopy || at == HitDirty
    case Miss(at, _, _) => at == MissFetch
    case Clock(_, _, _, _) => true
    case Install(_, _, _) => true
    case Leave(at, _, _) => at == LeaveEntry || at == LeaveGlobal || at == LeavePermit
    case _ => false
  }

  function PermitsOut(pcs: seq<Pc>): (n: nat)
    ensures n <= |pcs|
  {
    if pcs == [] then 0 else (if HasPermit(pcs[0]) then 1 else 0) + PermitsOut(pcs[1..])
  }

  lemma {:induction false} PermitsOutUpdate(pcs: seq<Pc>, t: nat, pc: Pc)
    requires t < |pcs|
    ensures PermitsOut(pcs[t := pc]) ==
      PermitsOut(pcs) - (if HasPermit(pcs[t]) then 1 else 0) + (if HasPermit(pc) then 1 else 0)
  {
    if t == 0 {
      assert pcs[t := pc][1..] == pcs[1..];
    } else {
      assert pcs[t := pc][1..] == pcs[1..][t - 1 := pc];
      PermitsOutUpdate(pcs[1..], t - 1, pc);
    }
  }

  lemma {:induction false} SomeoneWithout(pcs: seq<Pc>, t: nat)
    requires t < |pcs| && !HasPermit(pcs[t])
    ensures PermitsOut(pcs) < |pcs|
  {
    if t > 0 {
      SomeoneWithout(pcs[1..], t - 1);
    }
  }

  lemma StepPcs(s: State, t: nat)
    requires Inv(s) && t < |s.pcs|
    ensures Step(s, t).pcs == s.pcs[t := Step(s, t).pcs[t]]
  {
    assert Own(s, t);
    StepGuarantee(s, t);
  }

  lemma HitPermits(s: State, t: nat, at: HitAt, r: Req, i: nat)
    requires Shape(s) && t < |s.pcs| && s.pcs[t] == Hit(at, r, i) && !StepHit(s, t, at, r, i).pcs[t].Panicked?
    ensures var s' := StepHit(s, t, at, r, i);
      s'.permits - s.permits == Bit(HasPermit(s.pcs[t])) - Bit(HasPermit(s'.pcs[t]))
  {
  }

  lemma ClockPermits(s: State, t: nat, at: ClockAt, r: Req, buf: Data, moves: nat)
    requires Shape(s) && t < |s.pcs| && s.pcs[t] == Clock(at, r, buf, moves)
    requires !StepClock(s, t, at, r, buf, moves).pcs[t].Panicked?
    ensures var s' := StepClock(s, t, at, r, buf, moves);
      s'.permits == s.permits && HasPermit(s'.pcs[t])
  {
  }

  lemma OtherPermits(s: State, t: nat)
    requires Shape(s) && t < |s.pcs| && !s.pcs[t].Hit? && !s.pcs[t].Clock? && !Step(s, t).pcs[t].Panicked?
    ensures var s' := Step(s, t);
      s'.permits - s.permits == Bit(HasPermit(s.pcs[t])) - Bit(HasPermit(s'.pcs[t]))
  {
  }

  lemma StepPermits(s: State, t: nat)
    requires Inv(s) && t < |s.pcs|
    ensures var s' := Step(s, t);
      s'.permits - s.permits == Bit(HasPermit(s.pcs[t])) - Bit(HasPermit(s'.pcs[t]))
  {
    assert Own(s, t);
    StepOwn(s, t);
    match s.pcs[t]
    case Hit(at, r, i) => HitPermits(s, t, at, r, i);
    case Clock(at, r, buf, moves) => ClockPermits(s, t, at, r, buf, moves);
    case Idle | Panicked =>
    case _ => OtherPermits(s, t);
  }

  lemma {:induction false} AlwaysPermits(device: seq<Data>, n: nat, run: seq<Action>)
    ensures var s := After(device, n, run); |s.pcs| == n && s.permits + PermitsOut(s.pcs) == SLOTS
  {
    if run == [] {
      NoneOut(n);
    } else {
      var s := After(device, n, run[..|run| - 1]);
      var a := run[|run| - 1];
      AlwaysPermits(device, n, run[..|run| - 1]);
      AlwaysInv(device, n, run[..|run| - 1]);
      if a.t < |s.pcs| {
        if a.Go? {
          StepPcs(s, a.t);
          StepPermits(s, a.t);
          PermitsOutUpdate(s.pcs, a.t, Step(s, a.t).pcs[a.t]);
        } else if Do(s, a) != s {
          PermitsOutUpdate(s.pcs, a.t, Do(s, a).pcs[a.t]);
        }
      }
    }
  }

  lemma {:induction false} NoneOut(n: nat)
    ensures PermitsOut(seq(n, _ => Idle)) == 0
  {
    if n > 0 {
      assert seq(n, _ => Idle)[1..] == seq(n - 1, _ => Idle);
      NoneOut(n - 1);
    }
  }

  lemma StepNotStarved(s: State, t: nat)
    requires Shape(s) && t < |s.pcs| && !s.pcs[t].Starved? && s.permits > 0
    ensures !Step(s, t).pcs[t].Starved?
  {
  }

  /** Only a thread without a permit asks for one. */
  lemma OnlyWithout(s: State, t: nat)
    requires Shape(s) && t < |s.pcs| && !s.pcs[t].Starved? && Step(s, t).pcs[t].Starved?
    ensures !HasPermit(s.pcs[t])
  {
  }

  /** With at most 64 threads sema_try_down never fails. */
  lemma {:induction false} NeverStarved(device: seq<Data>, n: nat, run: seq<Action>)
    requires n <= SLOTS
    ensures forall t :: 0 <= t < n ==> !After(device, n, run).pcs[t].Starved?
  {
    if run != [] {
      var past, a := run[..|run| - 1], run[|run| - 1];
      var s := After(device, n, past);
      NeverStarved(device, n, past);
      AlwaysInv(device, n, past);
      AlwaysPermits(device, n, past);
      if a.t < n && a.Go? {
        StepPcs(s, a.t);
        if s.permits > 0 {
          StepNotStarved(s, a.t);
        } else if Step(s, a.t).pcs[a.t].Starved? {
          OnlyWithout(s, a.t);
          SomeoneWithout(s.pcs, a.t);
        }
      }
    }
  }

  // ---------- The clock ----------

  /** How many moves bring the hand to slot `w`. */
  function Distance(hand: nat, w: nat): (d: int)
    requires hand < SLOTS && w < SLOTS
  {
    if hand <= w then w - hand else w - hand + SLOTS
  }

  /** Slot `w` is empty or no thread other than `t` holds its lock. */
  ghost predicate Free(s: State, t: nat, w: nat)
    requires Shape(s)
  {
    w < SLOTS && (s.slots[w].None? || s.slots[w].value.holder.None? || HeldBy(s, w, t))
  }

  /** An upper bound on the hand moves before slot `w` is given up: its distance,
      and one more round if its use bit must be cleared first. */
  ghost function Remaining(s: State, pc: Pc, w: nat): nat
    requires Shape(s) && w < SLOTS && pc.Clock?
  {
    Distance(s.hand, w) +
    (if (s.slots[w].Some? && s.slots[w].value.use) || (pc.clock == ClockSkip && w == s.hand) then SLOTS else 0)
  }

  ghost predicate EndsAt(s: State, t: nat, w: nat)
    requires Shape(s) && t < |s.pcs| && s.pcs[t].Clock?
  {
    Free(s, t, w) && s.pcs[t].moves + Remaining(s, s.pcs[t], w) < 2 * SLOTS
  }

  ghost predicate ClockEnds(s: State, t: nat)
    requires Shape(s) && t < |s.pcs| && s.pcs[t].Clock?
  {
    exists w :: 0 <= w < SLOTS && EndsAt(s, t, w)
  }

  lemma ClockStable(s: State, t: nat, s': State, u: nat)
    requires Shape(s) && Shape(s') && t < |s.pcs| && u < |s.pcs| && u != t
    requires Own(s, u) && Guarantee(s, t, s') && s.pcs[u].Clock? && ClockEnds(s, u)
    ensures ClockEnds(s', u)
  {
    var w :| 0 <= w < SLOTS && EndsAt(s, u, w);
    assert SlotGuarantee(s, t, s', w);
    assert EndsAt(s', u, w);
  }

  lemma ClockDescends(s: State, t: nat, at: ClockAt, r: Req, buf: Data, moves: nat)
    requires Shape(s) && t < |s.pcs| && s.pcs[t] == Clock(at, r, buf, moves) && Own(s, t)
    requires ClockEnds(s, t) && StepClock(s, t, at, r, buf, moves).pcs[t].Clock?
    ensures ClockEnds(StepClock(s, t, at, r, buf, moves), t)
  {
    var s' := StepClock(s, t, at, r, buf, moves);
    var w :| 0 <= w < SLOTS && EndsAt(s, t, w);
    assert HoldsEntry(s.pcs[t], s.hand, s.hand) <==> HeldBy(s, s.hand, t);
    if at == ClockSkip {
      SkipDescends(s, t, r, buf, moves, w);
    } else if at == ClockLook {
      LookDescends(s, t, r, buf, moves, w);
    } else {
      TestDescends(s, t, at, r, buf, moves, w);
    }
    assert EndsAt(s', t, w);
  }

  lemma LookDescends(s: State, t: nat, r: Req, buf: Data, moves: nat, w: nat)
    requires Shape(s) && t < |s.pcs| && s.pcs[t] == Clock(ClockLook, r, buf, moves) && EndsAt(s, t, w)
    requires StepClock(s, t, ClockLook, r, buf, moves).pcs[t].Clock? && !HeldBy(s, s.hand, t)
    ensures EndsAt(StepClock(s, t, ClockLook, r, buf, moves), t, w)
  {
  }

  lemma TestDescends(s: State, t: nat, at: ClockAt, r: Req, buf: Data, moves: nat, w: nat)
    requires Shape(s) && t < |s.pcs| && s.pcs[t] == Clock(at, r, buf, moves) && EndsAt(s, t, w) && HeldBy(s, s.hand, t)
    requires at != ClockLook && at != ClockSkip && StepClock(s, t, at, r, buf, moves).pcs[t].Clock?
    ensures EndsAt(StepClock(s, t, at, r, buf, moves), t, w)
  {
  }

  lemma SkipDescends(s: State, t: nat, r: Req, buf: Data, moves: nat, w: nat)
    requires Shape(s) && t < |s.pcs| && s.pcs[t] == Clock(ClockSkip, r, buf, moves) && Own(s, t)
    requires HeldBy(s, s.hand, t) && EndsAt(s, t, w)
    ensures StepClock(s, t, ClockSkip, r, buf, moves).pcs[t].Clock?
    ensures EndsAt(StepClock(s, t, ClockSkip, r, buf, moves), t, w)
  {
  }

  // ---------- With at most 64 threads some slot is free ----------

  lemma {:induction false} Pigeonhole(xs: seq<nat>, n: nat)
    requires forall i :: 0 <= i < |xs| ==> xs[i] < n
    requires forall i, j :: 0 <= i < j < |xs| ==> xs[i] != xs[j]
    ensures |xs| <= n
    decreases n
  {
    if xs != [] {
      assert xs[0] < n;
      if k :| 0 <= k < |xs| && xs[k] == n - 1 {
        Pigeonhole(xs[..k] + xs[k + 1..], n - 1);
      } else {
        Pigeonhole(xs, n - 1);
      }
    }
  }

  /** Numbering the threads other than `t` from 0. */
  function Skip(t: nat, u: nat): nat
    requires u != t
  {
    if u < t then u else u - 1
  }

  lemma SomeSlotFree(s: State, t: nat)
    requires Inv(s) && |s.pcs| <= SLOTS && t < |s.pcs|
    ensures exists w :: 0 <= w < SLOTS && Free(s, t, w)
  {
    if forall w :: 0 <= w < SLOTS ==> !Free(s, t, w) {
      assert forall w :: 0 <= w < SLOTS ==> !Free(s, t, w);
      forall w | 0 <= w < SLOTS
        ensures s.slots[w].Some? && s.slots[w].value.holder.Some? && s.slots[w].value.holder.value < |s.pcs|
        ensures s.slots[w].value.holder.value != t
        ensures HoldsEntry(s.pcs[s.slots[w].value.holder.value], s.hand, w)
      {
        assert !Free(s, t, w);
        HolderHolds(s, w);
      }
      var others := seq(SLOTS, w requires 0 <= w < SLOTS => Skip(t, s.slots[w].value.holder.value));
      Pigeonhole(others, |s.pcs| - 1);
    }
  }

  lemma HolderHolds(s: State, w: nat)
    requires Inv(s) && w < SLOTS && s.slots[w].Some? && s.slots[w].value.holder.Some?
    ensures s.slots[w].value.holder.value < |s.pcs|
    ensures HoldsEntry(s.pcs[s.slots[w].value.holder.value], s.hand, w)
  {
    var u := s.slots[w].value.holder.value;
    assert Own(s, u);
    assert HeldBy(s, w, u);
  }

  // ---------- Every eviction ends ----------

  lemma StepClockEnds(s: State, t: nat)
    requires Inv(s) && |s.pcs| <= SLOTS && t < |s.pcs|
    requires s.pcs[t].Clock? ==> ClockEnds(s, t)
    requires Step(s, t).pcs[t].Clock?
    ensures ClockEnds(Step(s, t), t)
  {
    assert Own(s, t);
    match s.pcs[t]
    case Clock(at, r, buf, moves) => ClockDescends(s, t, at, r, buf, moves);
    case Miss(at, r, i) =>
      SomeSlotFree(s, t);
      var w :| 0 <= w < SLOTS && Free(s, t, w);
      assert EndsAt(Step(s, t), t, w);
    case _ => OnlyMissStartsClock(s, t);
  }

  lemma OnlyMissStartsClock(s: State, t: nat)
    requires Shape(s) && t < |s.pcs| && Step(s, t).pcs[t].Clock?
    ensures s.pcs[t].Clock? || s.pcs[t].Miss?
  {
  }

  lemma DoClockEnds(s: State, a: Action, t: nat)
    requires Inv(s) && |s.pcs| <= SLOTS && t < |s.pcs| && a.t < |s.pcs|
    requires s.pcs[t].Clock? ==> ClockEnds(s, t)
    requires Do(s, a).pcs[t].Clock?
    ensures ClockEnds(Do(s, a), t)
  {
    var s' := Do(s, a);
    if a.Call? {
      assert s.pcs[t].Clock?;
      var w :| 0 <= w < SLOTS && EndsAt(s, t, w);
      assert EndsAt(s', t, w);
    } else if t == a.t {
      StepClockEnds(s, t);
    } else {
      assert Own(s, t) && Own(s, a.t);
      StepGuarantee(s, a.t);
      ClockStable(s, a.t, s', t);
    }
  }

  lemma {:induction false} AlwaysClockEnds(device: seq<Data>, n: nat, run: seq<Action>, t: nat)
    requires n <= SLOTS && t < n && After(device, n, run).pcs[t].Clock?
    ensures ClockEnds(After(device, n, run), t)
  {
    if run != [] {
      var past, a := run[..|run| - 1], run[|run| - 1];
      var s := After(device, n, past);
      AlwaysInv(device, n, past);
      if s.pcs[t].Clock? { AlwaysClockEnds(device, n, past, t); }
      if a.t < n { DoClockEnds(s, a, t); }
    }
  }

  /** clock_algorithm_evict returns within 128 moves of the hand, wherever the hand
      starts, whatever the use bits are and whatever the other threads do. */
  lemma EvictionBounded(device: seq<Data>, n: nat, run: seq<Action>, t: nat)
    requires n <= SLOTS && t < n && After(device, n, run).pcs[t].Clock?
    ensures After(device, n, run).pcs[t].moves < 2 * SLOTS
  {
    AlwaysClockEnds(device, n, run, t);
    var s := After(device, n, run);
    var w :| 0 <= w < SLOTS && EndsAt(s, t, w);
  }

  // ---------- No deadlock ----------

  /** A thread inside a call and not waiting for a lock. */
  predicate CanGo(s: State, t: nat)
    requires Shape(s) && t < |s.pcs|
  {
    match s.pcs[t]
    case Idle | Panicked | Starved(_) => false
    case Hit(at, _, i) =>
      && (at == HitLock ==> s.lock.None?)
      && (at == HitEntry ==> s.slots[i].None? || s.slots[i].value.holder.None?)
    case Miss(at, _, _) => at == MissLock ==> s.lock.None?
    case Clock(_, _, _, _) => true
    case Install(_, _, _) => true
    case Leave(at, _, _) => at == LeaveWake ==> s.wakeLock.None?
    case Sync(at, i) =>
      && (at == SyncLock ==> s.lock.None?)
      && (at == SyncEntry ==> s.slots[i].None? || s.slots[i].value.holder.None?)
  }

  /** A thread that can go does change its program point. */
  lemma CanGoMoves(s: State, t: nat)
    requires Inv(s) && t < |s.pcs| && CanGo(s, t)
    ensures Step(s, t).pcs[t] != s.pcs[t]
  {
    assert Own(s, t);
    StepOwn(s, t);
    match s.pcs[t]
    case Hit(at, r, i) => HitMoves(s, t, at, r, i);
    case Clock(at, r, buf, moves) => ClockMoves(s, t, at, r, buf, moves);
    case _ =>
  }

  lemma HitMoves(s: State, t: nat, at: HitAt, r: Req, i: nat)
    requires Shape(s) && t < |s.pcs| && s.pcs[t] == Hit(at, r, i) && CanGo(s, t)
    ensures StepHit(s, t, at, r, i).pcs[t] != s.pcs[t]
  {
  }

  lemma ClockMoves(s: State, t: nat, at: ClockAt, r: Req, buf: Data, moves: nat)
    requires Shape(s) && t < |s.pcs| && s.pcs[t] == Clock(at, r, buf, moves)
    ensures StepClock(s, t, at, r, buf, moves).pcs[t] != s.pcs[t]
  {
  }

  /** The holder of an entry's lock that another thread waits for can go on. */
  lemma HolderCanGo(s: State, t: nat, i: nat)
    requires Inv(s) && t < |s.pcs| && HoldsGlobal(s.pcs[t]) && !HeldBy(s, i, t)
    requires i < SLOTS && s.slots[i].Some? && s.slots[i].value.holder.Some?
    ensures exists u :: 0 <= u < |s.pcs| && CanGo(s, u)
  {
    HolderHolds(s, i);
    var u := s.slots[i].value.holder.value;
    assert Own(s, t) && Own(s, u);
    assert CanGo(s, u);
  }

  /** Whenever some thread is inside a call, some thread inside a call can take a
      step that moves it on: no set of threads is ever deadlocked. */
  lemma NoDeadlock(device: seq<Data>, n: nat, run: seq<Action>, t: nat)
    requires n <= SLOTS && t < n && !After(device, n, run).pcs[t].Idle?
    ensures var s := After(device, n, run);
      exists u :: 0 <= u < n && !s.pcs[u].Idle? && Step(s, u).pcs[u] != s.pcs[u]
  {
    var s := After(device, n, run);
    AlwaysInv(device, n, run);
    NeverStarved(device, n, run);
    SomeoneCanGo(s, t);
    var u :| 0 <= u < n && CanGo(s, u);
    CanGoMoves(s, u);
  }

  lemma SomeoneCanGo(s: State, t: nat)
    requires Inv(s) && t < |s.pcs| && !s.pcs[t].Idle? && !s.pcs[t].Starved?
    ensures exists u :: 0 <= u < |s.pcs| && CanGo(s, u)
  {
    assert Own(s, t);
    if CanGo(s, t) {
    } else if s.pcs[t].Leave? {
      var u := s.wakeLock.value;
      assert Own(s, u);
      assert CanGo(s, u);
    } else if !HoldsGlobal(s.pcs[t]) {
      var u := s.lock.value;
      assert Own(s, u);
      if !CanGo(s, u) { EntryWaitEnds(s, u); }
    } else {
      EntryWaitEnds(s, t);
    }
  }

  lemma EntryWaitEnds(s: State, t: nat)
    requires Inv(s) && t < |s.pcs| && HoldsGlobal(s.pcs[t]) && !CanGo(s, t)
    ensures exists u :: 0 <= u < |s.pcs| && CanGo(s, u)
  {
    assert Own(s, t);
    var i := s.pcs[t].i;
    assert HoldsEntry(s.pcs[t], s.hand, i) <==> HeldBy(s, i, t);
    HolderCanGo(s, t, i);
  }
}
