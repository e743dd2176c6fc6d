/** What every step of the buffer cache keeps: lock ownership, one slot per
    sector, clean entries equal to the device, and the facts each program point
    relies on.  No thread ever fails an ASSERT or touches a freed entry. */
module BufferCacheSafety {
  import opened Storage
  import opened BufferCache

  /** The thread holds buffer_cache_lock. */
  predicate HoldsGlobal(pc: Pc) {
    match pc
    case Hit(at, _, _) => at == HitScan || at == HitEntry || at == HitUse || at == HitUnlock
    case Miss(at, _, _) => at != MissLock
    case Clock(_, _, _, _) => true
    case Install(_, _, _) => true
    case Leave(at, _, _) => at == LeaveGlobal
    case Sync(at, _) => at != SyncLock
    case _ => false
  }

  /** The thread holds the sector_lock of the entry in slot `i`. */
  predicate HoldsEntry(pc: Pc, hand: nat, i: int) {
    match pc
    case Hit(at, _, j) => i == j && at != HitLock && at != HitScan && at != HitEntry
    case Clock(at, _, _, _) => i == hand && at != ClockLook
    case Leave(at, j, _) => i == j && at == LeaveEntry
    case Sync(at, j) => i == j && (at == SyncWriteback || at == SyncDrop)
    case _ => false
  }

  predicate HoldsWake(pc: Pc) {
    pc.Leave? && pc.leave == LeaveDone
  }

  /** Thread `t` holds the sector_lock of the entry in slot `i`. */
  ghost predicate HeldBy(s: State, i: int, t: nat)
  {
    0 <= i < |s.slots| && s.slots[i].Some? && s.slots[i].value.holder == Some(t)
  }

  /** No sector sits in two slots. */
  ghost predicate Distinct(s: State)
  {
    forall i, j :: 0 <= i < j < |s.slots| && s.slots[i].Some? && s.slots[j].Some?
                   ==> s.slots[i].value.sector != s.slots[j].value.sector
  }

  ghost predicate AbsentBelow(s: State, n: nat, sector: nat)
    requires n <= |s.slots|
  {
    forall j :: 0 <= j < n && s.slots[j].Some? ==> s.slots[j].value.sector != sector
  }

  /** The entry in slot `i` agrees with the device. */
  ghost predicate Clean(s: State, i: nat)
    requires Shape(s)
  {
    i < SLOTS && s.slots[i].Some? && s.slots[i].value.buffer == s.device[s.slots[i].value.sector]
  }

  ghost predicate PointOk(s: State, pc: Pc)
    requires Shape(s) && PcOk(pc, |s.device|)
  {
    match pc
    case Panicked => false
    case Hit(at, r, i) => at == HitLock || at == HitScan || s.Caches(i, r.sector)
    case Miss(at, r, i) =>
      at == MissLock || AbsentBelow(s, if at == MissScan then i else SLOTS, r.sector)
    case Clock(at, r, buf, _) =>
      && AbsentBelow(s, SLOTS, r.sector)
      && buf == s.device[r.sector]
      && (at == ClockDrop ==> Clean(s, s.hand))
      && (at != ClockLook && at != ClockTest ==> s.slots[s.hand].Some? && !s.slots[s.hand].value.use)
    case Install(r, buf, i) =>
      AbsentBelow(s, SLOTS, r.sector) && buf == s.device[r.sector] && s.slots[i].None?
    case Sync(at, i) =>
      && (at == SyncLock || forall j :: 0 <= j < i ==> s.slots[j].None?)
      && (at == SyncEntry ==> s.slots[i].Some?)
      && (at == SyncDrop ==> Clean(s, i))
    case _ => true
  }

  /** The locks thread `t` holds are the ones its program point says, and what
      that point relies on is true. */
  ghost predicate Own(s: State, t: nat)
    requires Shape(s) && t < |s.pcs|
  {
    && (HoldsGlobal(s.pcs[t]) <==> s.lock == Some(t))
    && (HoldsWake(s.pcs[t]) <==> s.wakeLock == Some(t))
    && (forall i :: 0 <= i < SLOTS ==> (HoldsEntry(s.pcs[t], s.hand, i) <==> HeldBy(s, i, t)))
    && PointOk(s, s.pcs[t])
  }

  /** Every lock is free or held by an existing thread. */
  ghost predicate HoldersExist(s: State)
    requires Shape(s)
  {
    && (s.lock.Some? ==> s.lock.value < |s.pcs|)
    && (s.wakeLock.Some? ==> s.wakeLock.value < |s.pcs|)
    && (forall i :: 0 <= i < SLOTS && s.slots[i].Some? && s.slots[i].value.holder.Some?
                    ==> s.slots[i].value.holder.value < |s.pcs|)
  }

  /** The holder of slot `i` has copied into it and is about to set its dirty bit. */
  ghost predicate Dirtying(s: State, i: nat)
    requires Shape(s) && i < SLOTS && s.slots[i].Some?
  {
    match s.slots[i].value.holder
    case None => false
    case Some(t) => t < |s.pcs| && s.pcs[t].Hit? && s.pcs[t].hit == HitDirty
  }

  /** A slot whose dirty bit is clear agrees with the device, unless its lock
      holder has just written to it. */
  ghost predicate CleanOk(s: State)
    requires Shape(s)
  {
    forall i :: 0 <= i < SLOTS && s.slots[i].Some? && !s.slots[i].value.dirty ==>
      Clean(s, i) || Dirtying(s, i)
  }

  ghost predicate Inv(s: State) {
    && Shape(s) && HoldersExist(s) && Distinct(s) && CleanOk(s)
    && (forall t :: 0 <= t < |s.pcs| ==> Own(s, t))
  }

  // ---------- What a step of one thread may do to the others ----------

  /** How a step of `t` may change slot `i`: never while another thread holds the
      entry's lock, and filling, freeing, locking or setting the use bit only
      under buffer_cache_lock. */
  ghost predicate SlotGuarantee(s: State, t: nat, s': State, i: nat)
    requires Shape(s) && Shape(s') && t < |s.pcs| && i < SLOTS
  {
    var was, now := s.slots[i], s'.slots[i];
    || was == now
    || (was.None? && now.Some? && s.lock == Some(t) && s.pcs[t].Install? && now.value.holder.None?)
    || (was.Some? && now.None? && s.lock == Some(t) && HeldBy(s, i, t))
    || (was.Some? && s.lock == Some(t) && was.value.holder.None? && now == Some(was.value.(holder := Some(t))))
    || (was.Some? && now.Some? && HeldBy(s, i, t)
        && now.value.sector == was.value.sector
        && (now.value.holder == Some(t) || now.value.holder.None?)
        && (now.value.use != was.value.use ==> s.lock == Some(t)))
  }

  /** The device changes only by writing back an entry that `t` has locked. */
  ghost predicate DeviceGuarantee(s: State, t: nat, s': State)
    requires Shape(s) && Shape(s') && t < |s.pcs|
  {
    || s'.device == s.device
    || (s.lock == Some(t) && s'.slots == s.slots && exists i :: 0 <= i < SLOTS && WritesBack(s, t, s', i))
  }

  ghost predicate WritesBack(s: State, t: nat, s': State, i: nat)
    requires Shape(s) && Shape(s') && t < |s.pcs| && i < SLOTS
  {
    HeldBy(s, i, t) && s'.device == s.device[s.slots[i].value.sector := s.slots[i].value.buffer]
  }

  ghost predicate LockGuarantee(was: Option<nat>, t: nat, now: Option<nat>) {
    was == now || (was.None? && now == Some(t)) || (was == Some(t) && now.None?)
  }

  ghost predicate Guarantee(s: State, t: nat, s': State)
    requires Shape(s) && Shape(s') && t < |s.pcs|
  {
    && |s'.pcs| == |s.pcs|
    && (forall u :: 0 <= u < |s.pcs| && u != t ==> s'.pcs[u] == s.pcs[u])
    && LockGuarantee(s.lock, t, s'.lock)
    && LockGuarantee(s.wakeLock, t, s'.wakeLock)
    && (s'.hand != s.hand ==> s.lock == Some(t))
    && (forall i :: 0 <= i < SLOTS ==> SlotGuarantee(s, t, s', i))
    && DeviceGuarantee(s, t, s')
  }

  lemma HitGuarantee(s: State, t: nat, at: HitAt, r: Req, i: nat)
    requires Shape(s) && t < |s.pcs| && s.pcs[t] == Hit(at, r, i) && Own(s, t)
    ensures Guarantee(s, t, StepHit(s, t, at, r, i))
  {
    assert i < SLOTS ==> (HoldsEntry(s.pcs[t], s.hand, i) <==> HeldBy(s, i, t));
  }

  lemma MissGuarantee(s: State, t: nat, at: MissAt, r: Req, i: nat)
    requires Shape(s) && t < |s.pcs| && s.pcs[t] == Miss(at, r, i) && Own(s, t)
    ensures Guarantee(s, t, StepMiss(s, t, at, r, i))
  {
  }

  lemma WritebackGuarantee(s: State, t: nat, i: nat, next: Pc)
    requires Shape(s) && t < |s.pcs| && Own(s, t) && s.lock == Some(t) && i < SLOTS && HeldBy(s, i, t)
    requires PcOk(next, |s.device|)
    ensures Guarantee(s, t, Writeback(s, t, i, next))
  {
    var s' := Writeback(s, t, i, next);
    assert WritesBack(s, t, s', i) || s'.device == s.device;
  }

  lemma ClockGuarantee(s: State, t: nat, at: ClockAt, r: Req, buf: Data, moves: nat)
    requires Shape(s) && t < |s.pcs| && s.pcs[t] == Clock(at, r, buf, moves) && Own(s, t)
    ensures Guarantee(s, t, StepClock(s, t, at, r, buf, moves))
  {
    assert HoldsEntry(s.pcs[t], s.hand, s.hand) <==> HeldBy(s, s.hand, t);
    if at == ClockWriteback {
      WritebackGuarantee(s, t, s.hand, Clock(ClockDrop, r, buf, moves));
    }
  }

  lemma LeaveGuarantee(s: State, t: nat, at: LeaveAt, i: nat, res: Result)
    requires Shape(s) && t < |s.pcs| && s.pcs[t] == Leave(at, i, res) && Own(s, t)
    ensures Guarantee(s, t, StepLeave(s, t, at, i, res))
  {
  }

  lemma SyncGuarantee(s: State, t: nat, at: SyncAt, i: nat)
    requires Shape(s) && t < |s.pcs| && s.pcs[t] == Sync(at, i) && Own(s, t)
    ensures Guarantee(s, t, StepSync(s, t, at, i))
  {
    assert i < SLOTS ==> (HoldsEntry(s.pcs[t], s.hand, i) <==> HeldBy(s, i, t));
    if at == SyncWriteback {
      WritebackGuarantee(s, t, i, Sync(SyncDrop, i));
    }
  }

  lemma StepGuarantee(s: State, t: nat)
    requires Shape(s) && t < |s.pcs| && Own(s, t)
    ensures Guarantee(s, t, Step(s, t))
  {
    match s.pcs[t]
    case Idle | Panicked | Starved(_) =>
    case Hit(at, r, i) => HitGuarantee(s, t, at, r, i);
    case Miss(at, r, i) => MissGuarantee(s, t, at, r, i);
    case Clock(at, r, buf, moves) => ClockGuarantee(s, t, at, r, buf, moves);
    case Install(r, buf, i) =>
    case Leave(at, i, res) => LeaveGuarantee(s, t, at, i, res);
    case Sync(at, i) => SyncGuarantee(s, t, at, i);
  }

  // ---------- A thread's own facts survive the steps of others ----------

  lemma LocksStable(s: State, t: nat, s': State, u: nat)
    requires Shape(s) && Shape(s') && t < |s.pcs| && u < |s.pcs| && u != t
    requires Own(s, u) && Own(s, t) && Guarantee(s, t, s')
    ensures HoldsGlobal(s'.pcs[u]) <==> s'.lock == Some(u)
    ensures HoldsWake(s'.pcs[u]) <==> s'.wakeLock == Some(u)
    ensures forall i :: 0 <= i < SLOTS ==> (HoldsEntry(s'.pcs[u], s'.hand, i) <==> HeldBy(s', i, u))
  {
    forall i | 0 <= i < SLOTS
      ensures HoldsEntry(s'.pcs[u], s'.hand, i) <==> HeldBy(s', i, u)
    {
      assert SlotGuarantee(s, t, s', i);
      assert HoldsEntry(s.pcs[u], s.hand, i) <==> HeldBy(s, i, u);
    }
  }

  lemma SectorsStable(s: State, t: nat, s': State)
    requires Shape(s) && Shape(s') && t < |s.pcs| && Guarantee(s, t, s') && s.lock != Some(t)
    ensures s'.device == s.device && s'.hand == s.hand
    ensures forall i :: 0 <= i < SLOTS ==>
      s'.slots[i].Some? == s.slots[i].Some?
      && (s.slots[i].Some? ==> s'.slots[i].value.sector == s.slots[i].value.sector)
  {
    forall i | 0 <= i < SLOTS
      ensures s'.slots[i].Some? == s.slots[i].Some?
      ensures s.slots[i].Some? ==> s'.slots[i].value.sector == s.slots[i].value.sector
    {
      assert SlotGuarantee(s, t, s', i);
    }
  }

  lemma PointStable(s: State, t: nat, s': State, u: nat)
    requires Shape(s) && Shape(s') && t < |s.pcs| && u < |s.pcs| && u != t
    requires Own(s, u) && Guarantee(s, t, s')
    ensures PointOk(s', s'.pcs[u])
  {
    var pc := s.pcs[u];
    if HoldsGlobal(pc) {
      SectorsStable(s, t, s');
    }
    forall i | 0 <= i < SLOTS && HeldBy(s, i, u) ensures s'.slots[i] == s.slots[i] {
      assert SlotGuarantee(s, t, s', i);
    }
    match pc
    case Hit(at, r, i) =>
      if at != HitLock && at != HitScan && at != HitEntry {
        assert HoldsEntry(pc, s.hand, i);
      }
    case Clock(at, _, _, _) =>
      if at != ClockLook { assert HoldsEntry(pc, s.hand, s.hand); }
    case Sync(at, i) =>
      if at == SyncDrop { assert HoldsEntry(pc, s.hand, i); }
    case _ =>
  }

  // ---------- The stepping thread ----------

  lemma HitOwn(s: State, t: nat, at: HitAt, r: Req, i: nat)
    requires Shape(s) && CleanOk(s) && t < |s.pcs| && Own(s, t) && s.pcs[t] == Hit(at, r, i)
    ensures Own(StepHit(s, t, at, r, i), t)
  {
    var s' := StepHit(s, t, at, r, i);
    assert i < SLOTS ==> (HoldsEntry(s.pcs[t], s.hand, i) <==> HeldBy(s, i, t));
    forall j | 0 <= j < SLOTS
      ensures HoldsEntry(s'.pcs[t], s'.hand, j) <==> HeldBy(s', j, t)
    {
      assert HoldsEntry(s.pcs[t], s.hand, j) <==> HeldBy(s, j, t);
    }
  }

  lemma MissOwn(s: State, t: nat, at: MissAt, r: Req, i: nat)
    requires Shape(s) && CleanOk(s) && t < |s.pcs| && Own(s, t) && s.pcs[t] == Miss(at, r, i)
    ensures Own(StepMiss(s, t, at, r, i), t)
  {
    var s' := StepMiss(s, t, at, r, i);
    forall j | 0 <= j < SLOTS
      ensures HoldsEntry(s'.pcs[t], s'.hand, j) <==> HeldBy(s', j, t)
    {
      assert HoldsEntry(s.pcs[t], s.hand, j) <==> HeldBy(s, j, t);
    }
  }

  lemma ClockOwn(s: State, t: nat, at: ClockAt, r: Req, buf: Data, moves: nat)
    requires Shape(s) && CleanOk(s) && t < |s.pcs| && Own(s, t) && s.pcs[t] == Clock(at, r, buf, moves)
    ensures Own(StepClock(s, t, at, r, buf, moves), t)
  {
    var s' := StepClock(s, t, at, r, buf, moves);
    assert (HoldsEntry(s.pcs[t], s.hand, s.hand) <==> HeldBy(s, s.hand, t));
    forall j | 0 <= j < SLOTS
      ensures HoldsEntry(s'.pcs[t], s'.hand, j) <==> HeldBy(s', j, t)
    {
      assert HoldsEntry(s.pcs[t], s.hand, j) <==> HeldBy(s, j, t);
    }
  }

  lemma InstallOwn(s: State, t: nat, r: Req, buf: Data, i: nat)
    requires Shape(s) && CleanOk(s) && t < |s.pcs| && Own(s, t) && s.pcs[t] == Install(r, buf, i)
    ensures Own(StepInstall(s, t, r, buf, i), t)
  {
    var s' := StepInstall(s, t, r, buf, i);
    forall j | 0 <= j < SLOTS
      ensures HoldsEntry(s'.pcs[t], s'.hand, j) <==> HeldBy(s', j, t)
    {
      assert HoldsEntry(s.pcs[t], s.hand, j) <==> HeldBy(s, j, t);
    }
  }

  lemma LeaveOwn(s: State, t: nat, at: LeaveAt, i: nat, res: Result)
    requires Shape(s) && CleanOk(s) && t < |s.pcs| && Own(s, t) && s.pcs[t] == Leave(at, i, res)
    ensures Own(StepLeave(s, t, at, i, res), t)
  {
    var s' := StepLeave(s, t, at, i, res);
    assert i < SLOTS ==> (HoldsEntry(s.pcs[t], s.hand, i) <==> HeldBy(s, i, t));
    forall j | 0 <= j < SLOTS
      ensures HoldsEntry(s'.pcs[t], s'.hand, j) <==> HeldBy(s', j, t)
    {
      assert HoldsEntry(s.pcs[t], s.hand, j) <==> HeldBy(s, j, t);
    }
  }

  lemma SyncOwn(s: State, t: nat, at: SyncAt, i: nat)
    requires Shape(s) && CleanOk(s) && t < |s.pcs| && Own(s, t) && s.pcs[t] == Sync(at, i)
    ensures Own(StepSync(s, t, at, i), t)
  {
    var s' := StepSync(s, t, at, i);
    assert i < SLOTS ==> (HoldsEntry(s.pcs[t], s.hand, i) <==> HeldBy(s, i, t));
    forall j | 0 <= j < SLOTS
      ensures HoldsEntry(s'.pcs[t], s'.hand, j) <==> HeldBy(s', j, t)
    {
      assert HoldsEntry(s.pcs[t], s.hand, j) <==> HeldBy(s, j, t);
    }
  }

  lemma StepOwn(s: State, t: nat)
    requires Shape(s) && CleanOk(s) && t < |s.pcs| && Own(s, t)
    ensures Own(Step(s, t), t)
  {
    match s.pcs[t]
    case Idle | Panicked | Starved(_) =>
    case Hit(at, r, i) => HitOwn(s, t, at, r, i);
    case Miss(at, r, i) => MissOwn(s, t, at, r, i);
    case Clock(at, r, buf, moves) => ClockOwn(s, t, at, r, buf, moves);
    case Install(r, buf, i) => InstallOwn(s, t, r, buf, i);
    case Leave(at, i, res) => LeaveOwn(s, t, at, i, res);
    case Sync(at, i) => SyncOwn(s, t, at, i);
  }

  lemma InstallKeepsDistinct(s: State, t: nat, r: Req, buf: Data, i: nat)
    requires Inv(s) && t < |s.pcs| && s.pcs[t] == Install(r, buf, i)
    ensures Distinct(StepInstall(s, t, r, buf, i))
  {
    assert Own(s, t);
  }

  lemma StepKeepsDistinct(s: State, t: nat, s': State)
    requires Shape(s) && Shape(s') && Distinct(s) && t < |s.pcs| && !s.pcs[t].Install? && Guarantee(s, t, s')
    ensures Distinct(s')
  {
    forall i | 0 <= i < SLOTS
      ensures s'.slots[i].Some? ==> s.slots[i].Some? && s'.slots[i].value.sector == s.slots[i].value.sector
    {
      assert SlotGuarantee(s, t, s', i);
    }
  }

  lemma StepKeepsHolders(s: State, t: nat, s': State)
    requires Shape(s) && Shape(s') && HoldersExist(s) && t < |s.pcs| && Guarantee(s, t, s')
    ensures HoldersExist(s')
  {
    forall i | 0 <= i < SLOTS && s'.slots[i].Some? && s'.slots[i].value.holder.Some?
      ensures s'.slots[i].value.holder.value < |s'.pcs|
    {
      assert SlotGuarantee(s, t, s', i);
    }
  }

  /** An entry that `t` has not locked keeps agreeing with the device. */
  lemma CleanStable(s: State, t: nat, s': State, i: nat)
    requires Shape(s) && Shape(s') && Distinct(s) && t < |s.pcs| && Guarantee(s, t, s')
    requires i < SLOTS && Clean(s, i) && !HeldBy(s, i, t) && s'.slots[i].Some?
    ensures Clean(s', i)
  {
    assert SlotGuarantee(s, t, s', i);
  }

  lemma HitKeepsClean(s: State, t: nat, at: HitAt, r: Req, i: nat)
    requires Inv(s) && t < |s.pcs| && s.pcs[t] == Hit(at, r, i) && i < SLOTS && HeldBy(s, i, t)
    ensures var s' := StepHit(s, t, at, r, i);
      s'.slots[i].Some? && !s'.slots[i].value.dirty ==> Clean(s', i) || Dirtying(s', i)
  {
    assert Own(s, t);
    assert HoldsEntry(s.pcs[t], s.hand, i);
  }

  /** Outside the copy of a hit, a thread changes neither the bytes nor the dirty
      bit of an entry it has locked. */
  lemma HeldUnchanged(s: State, t: nat, i: nat)
    requires Shape(s) && t < |s.pcs| && !s.pcs[t].Hit? && Own(s, t) && i < SLOTS && HeldBy(s, i, t)
    ensures var s' := Step(s, t);
      s'.slots[i].Some? ==> s'.slots[i].value.buffer == s.slots[i].value.buffer
                            && s'.slots[i].value.dirty == s.slots[i].value.dirty
  {
    assert HoldsEntry(s.pcs[t], s.hand, i);
  }

  lemma StepKeepsClean(s: State, t: nat)
    requires Inv(s) && t < |s.pcs| && Guarantee(s, t, Step(s, t))
    ensures CleanOk(Step(s, t))
  {
    var s' := Step(s, t);
    forall i | 0 <= i < SLOTS && s'.slots[i].Some? && !s'.slots[i].value.dirty
      ensures Clean(s', i) || Dirtying(s', i)
    {
      SlotKeepsClean(s, t, i);
    }
  }

  lemma SlotKeepsClean(s: State, t: nat, i: nat)
    requires Inv(s) && t < |s.pcs| && Guarantee(s, t, Step(s, t))
    requires i < SLOTS && Step(s, t).slots[i].Some? && !Step(s, t).slots[i].value.dirty
    ensures Clean(Step(s, t), i) || Dirtying(Step(s, t), i)
  {
    var s' := Step(s, t);
    assert SlotGuarantee(s, t, s', i) && Own(s, t);
    if s.slots[i].None? {
    } else if !HeldBy(s, i, t) {
      if Clean(s, i) { CleanStable(s, t, s', i); }
    } else if s.pcs[t].Hit? {
      assert HoldsEntry(s.pcs[t], s.hand, i);
      HitKeepsClean(s, t, s.pcs[t].hit, s.pcs[t].r, i);
    } else {
      HeldUnchanged(s, t, i);
    }
  }

  // ---------- Every run ----------

  lemma StepKeepsInv(s: State, t: nat)
    requires Inv(s) && t < |s.pcs|
    ensures Inv(Step(s, t))
  {
    var s' := Step(s, t);
    assert Own(s, t);
    StepGuarantee(s, t);
    StepOwn(s, t);
    StepKeepsHolders(s, t, s');
    StepKeepsClean(s, t);
    if s.pcs[t].Install? {
      InstallKeepsDistinct(s, t, s.pcs[t].r, s.pcs[t].buf, s.pcs[t].i);
    } else {
      StepKeepsDistinct(s, t, s');
    }
    forall u | 0 <= u < |s.pcs| && u != t ensures Own(s', u) {
      LocksStable(s, t, s', u);
      PointStable(s, t, s', u);
    }
  }

  /** A call only moves an idle thread to the start of its request. */
  lemma CallKeepsInv(s: State, t: nat, r: Req)
    requires Inv(s) && t < |s.pcs|
    ensures Inv(Do(s, Call(t, r)))
  {
    var s' := Do(s, Call(t, r));
    assert Own(s, t);
    forall u | 0 <= u < |s.pcs| ensures Own(s', u) {
      assert Own(s, u);
      forall i | 0 <= i < SLOTS
        ensures HoldsEntry(s'.pcs[u], s'.hand, i) <==> HeldBy(s', i, u)
      {
        assert HoldsEntry(s.pcs[u], s.hand, i) <==> HeldBy(s, i, u);
      }
    }
    forall i | 0 <= i < SLOTS && s'.slots[i].Some? && !s'.slots[i].value.dirty
      ensures Clean(s', i) || Dirtying(s', i)
    {
      assert Clean(s, i) || Dirtying(s, i);
    }
  }

  lemma {:induction false} AlwaysInv(device: seq<Data>, n: nat, run: seq<Action>)
    ensures Inv(After(device, n, run))
  {
    if run != [] {
      var s := After(device, n, run[..|run| - 1]);
      var a := run[|run| - 1];
      AlwaysInv(device, n, run[..|run| - 1]);
      if a.t < |s.pcs| {
        if a.Go? { StepKeepsInv(s, a.t); } else { CallKeepsInv(s, a.t, a.r); }
      }
    }
  }

  /** No run fails an ASSERT, releases a lock it does not hold, takes one it
      already holds, or follows a freed entry; and no sector is ever in two slots. */
  lemma NeverPanics(device: seq<Data>, n: nat, run: seq<Action>)
    ensures var s := After(device, n, run);
      && (forall t :: 0 <= t < |s.pcs| ==> !s.pcs[t].Panicked?)
      && (forall i, j :: 0 <= i < j < SLOTS && s.slots[i].Some? && s.slots[j].Some?
                         ==> s.slots[i].value.sector != s.slots[j].value.sector)
  {
    var s := After(device, n, run);
    AlwaysInv(device, n, run);
    forall t | 0 <= t < |s.pcs| ensures !s.pcs[t].Panicked? {
      assert Own(s, t);
    }
  }

  /** A slot whose sector_lock a thread holds is not changed or freed by any
      action of another thread. */
  lemma LockedSlotUntouched(device: seq<Data>, n: nat, run: seq<Action>, a: Action, u: nat, i: nat)
    requires i < SLOTS && a.t != u && HeldBy(After(device, n, run), i, u)
    ensures Do(After(device, n, run), a).slots[i] == After(device, n, run).slots[i]
  {
    var s := After(device, n, run);
    AlwaysInv(device, n, run);
    if a.Go? && a.t < |s.pcs| {
      assert Own(s, a.t);
      StepGuarantee(s, a.t);
      assert SlotGuarantee(s, a.t, Do(s, a), i);
    }
  }

  /** While one thread is freeing an entry, no other thread is waiting for that
      entry's lock or about to ask for it. */
  lemma NobodyWaitsOnFreedEntry(device: seq<Data>, n: nat, run: seq<Action>, t: nat, u: nat)
    requires var s := After(device, n, run);
      && t < |s.pcs| && u < |s.pcs| && t != u
      && exists i :: 0 <= i < SLOTS && s.slots[i].Some? && Step(s, t).slots[i].None?
    ensures var s := After(device, n, run);
      && !HoldsGlobal(s.pcs[u])
      && !(s.pcs[u].Hit? && s.pcs[u].hit == HitEntry) && !(s.pcs[u].Sync? && s.pcs[u].sync == SyncEntry)
  {
    var s := After(device, n, run);
    AlwaysInv(device, n, run);
    assert Own(s, t) && Own(s, u);
    StepGuarantee(s, t);
    var i :| 0 <= i < SLOTS && s.slots[i].Some? && Step(s, t).slots[i].None?;
    assert SlotGuarantee(s, t, Step(s, t), i);
  }

  /** The clock frees only an entry that the evicting thread itself has locked and
      whose use bit is clear. */
  lemma EvictsUnused(device: seq<Data>, n: nat, run: seq<Action>, t: nat, i: nat)
    requires var s := After(device, n, run);
      && t < n && i < SLOTS && s.pcs[t].Clock? && s.slots[i].Some? && Step(s, t).slots[i].None?
    ensures var s := After(device, n, run);
      i == s.hand && HeldBy(s, i, t) && !s.slots[i].value.use && Clean(s, i)
  {
    AlwaysInv(device, n, run);
    assert Own(After(device, n, run), t);
  }
}
