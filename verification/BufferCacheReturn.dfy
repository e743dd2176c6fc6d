/** Every call returns: with at most 64 threads, a thread that is inside the cache while no
    other one is comes out of it within 784 of its own steps. */
module BufferCacheReturn {
  import opened Storage
  import opened BufferCache
  import opened BufferCacheSafety
  import opened BufferCacheProgress

  /** No thread but `t` is inside the cache. */
  ghost predicate Alone(s: State, t: nat) {
    forall u :: 0 <= u < |s.pcs| && u != t ==> s.pcs[u].Idle?
  }

  /** A scan from slot `i` on meets the sector. */
  ghost predicate Ahead(s: State, i: nat, sector: nat)
    requires Shape(s)
  {
    exists j :: i <= j < SLOTS && s.slots[j].Some? && s.slots[j].value.sector == sector
  }

  function LeaveRank(at: LeaveAt): nat {
    match at
    case LeaveEntry => 4
    case LeaveGlobal => 4
    case LeavePermit => 3
    case LeaveWake => 2
    case LeaveDone => 1
  }

  ghost function HitRank(s: State, at: HitAt, r: Req, i: nat): nat
    requires Shape(s) && i <= SLOTS && AccessOk(r, |s.device|)
  {
    match at
    case HitDirty => 5
    case HitCopy => 6
    case HitPermit => 7
    case HitUnlock => 8
    case HitUse => 9
    case HitEntry => 10
    case HitScan => (if Ahead(s, i, r.sector) then 11 else 719) + SLOTS - i
    case HitLock => if Ahead(s, 0, r.sector) then 76 else 784
  }

  function MissRank(at: MissAt, i: nat): nat
    requires i <= SLOTS
  {
    match at
    case MissFetch => 651
    case MissPermit => 652
    case MissScan => 653 + SLOTS - i
    case MissLock => 718
  }

  function ClockRank(at: ClockAt, moves: nat): int {
    5 * (2 * SLOTS - moves) +
    match at
    case ClockLook => 10
    case ClockTest => 9
    case ClockSkip => 8
    case ClockWriteback => 8
    case ClockDrop => 7
  }

  function SyncRank(at: SyncAt, i: nat): int {
    4 * (SLOTS - i) +
    match at
    case SyncScan => 1
    case SyncEntry => 0
    case SyncWriteback => -1
    case SyncDrop => -2
    case SyncLock => 258
  }

  /** How many steps of its own thread `t` is at most away from the end of its call. */
  ghost function Rank(s: State, t: nat): int
    requires Shape(s) && t < |s.pcs|
  {
    match s.pcs[t]
    case Hit(at, r, i) => HitRank(s, at, r, i)
    case Miss(at, _, i) => MissRank(at, i)
    case Clock(at, _, _, moves) => ClockRank(at, moves)
    case Install(_, _, _) => 5
    case Leave(at, _, _) => LeaveRank(at)
    case Sync(at, i) => SyncRank(at, i)
    case Idle | Panicked | Starved(_) => 0
  }

  /** Nobody else holds a lock. */
  lemma LocksFree(s: State, t: nat)
    requires Inv(s) && t < |s.pcs| && Alone(s, t)
    ensures s.lock.None? || s.lock == Some(t)
    ensures s.wakeLock.None? || s.wakeLock == Some(t)
    ensures forall i :: 0 <= i < SLOTS && s.slots[i].Some? ==> s.slots[i].value.holder.None? || s.slots[i].value.holder == Some(t)
  {
    if s.lock.Some? { assert Own(s, s.lock.value); }
    if s.wakeLock.Some? { assert Own(s, s.wakeLock.value); }
    forall i | 0 <= i < SLOTS && s.slots[i].Some? && s.slots[i].value.holder.Some? ensures s.slots[i].value.holder == Some(t) {
      HolderHolds(s, i);
    }
  }

  lemma HitDrops(s: State, t: nat, at: HitAt, r: Req, i: nat)
    requires Shape(s) && t < |s.pcs| && s.pcs[t] == Hit(at, r, i) && CanGo(s, t)
    requires var pc := StepHit(s, t, at, r, i).pcs[t]; !pc.Panicked? && !pc.Starved?
    ensures Rank(StepHit(s, t, at, r, i), t) < Rank(s, t)
  {
    var s' := StepHit(s, t, at, r, i);
    if at == HitLock {
      assert s'.slots == s.slots;
      assert Ahead(s', 0, r.sector) <==> Ahead(s, 0, r.sector);
    } else if at == HitScan && i < SLOTS && !s.Caches(i, r.sector) {
      assert s'.slots == s.slots;
      assert Ahead(s', i + 1, r.sector) <==> Ahead(s, i, r.sector);
    } else if at == HitScan && i < SLOTS {
      assert Ahead(s, i, r.sector);
    }
  }

  lemma MissDrops(s: State, t: nat, at: MissAt, r: Req, i: nat)
    requires Shape(s) && t < |s.pcs| && s.pcs[t] == Miss(at, r, i) && CanGo(s, t)
    requires var pc := StepMiss(s, t, at, r, i).pcs[t]; !pc.Panicked? && !pc.Starved?
    ensures Rank(StepMiss(s, t, at, r, i), t) < Rank(s, t)
  {
    var s' := StepMiss(s, t, at, r, i);
    if at == MissScan && i < SLOTS && s.Caches(i, r.sector) {
      assert s'.Caches(i, r.sector);
      assert Ahead(s', 0, r.sector);
    }
  }

  lemma ClockDrops(s: State, t: nat, at: ClockAt, r: Req, buf: Data, moves: nat)
    requires Shape(s) && t < |s.pcs| && s.pcs[t] == Clock(at, r, buf, moves) && moves < 2 * SLOTS
    requires !StepClock(s, t, at, r, buf, moves).pcs[t].Panicked?
    requires s.slots[s.hand].Some? ==> s.slots[s.hand].value.holder.None? || s.slots[s.hand].value.holder == Some(t)
    ensures Rank(StepClock(s, t, at, r, buf, moves), t) < Rank(s, t)
  {
  }

  lemma OtherDrops(s: State, t: nat)
    requires Shape(s) && t < |s.pcs| && (s.pcs[t].Install? || s.pcs[t].Leave? || s.pcs[t].Sync?) && CanGo(s, t)
    requires !Step(s, t).pcs[t].Panicked?
    ensures Rank(Step(s, t), t) < Rank(s, t)
  {
    hide StepHit, StepMiss, StepClock, HitRank, MissRank, ClockRank;
  }

  lemma AloneCanGo(s: State, t: nat)
    requires Inv(s) && t < |s.pcs| && Alone(s, t) && !s.pcs[t].Idle? && !s.pcs[t].Starved?
    ensures CanGo(s, t)
  {
    SomeoneCanGo(s, t);
    var u :| 0 <= u < |s.pcs| && CanGo(s, u);
  }

  lemma StepDrops(s: State, t: nat)
    requires Inv(s) && t < |s.pcs| && Alone(s, t) && !s.pcs[t].Idle? && !s.pcs[t].Starved? && !Step(s, t).pcs[t].Starved?
    requires s.pcs[t].Clock? ==> s.pcs[t].moves < 2 * SLOTS
    ensures Rank(Step(s, t), t) < Rank(s, t)
  {
    hide StepHit, StepMiss, StepClock, StepInstall, StepLeave, StepSync, Rank;
    assert Own(s, t);
    AloneCanGo(s, t);
    LocksFree(s, t);
    StepOwn(s, t);
    match s.pcs[t]
    case Hit(at, r, i) => HitDrops(s, t, at, r, i);
    case Miss(at, r, i) => MissDrops(s, t, at, r, i);
    case Clock(at, r, buf, moves) => ClockDrops(s, t, at, r, buf, moves);
    case _ => OtherDrops(s, t);
  }

  lemma RankBound(s: State, t: nat)
    requires Shape(s) && t < |s.pcs| && (s.pcs[t].Clock? ==> s.pcs[t].moves < 2 * SLOTS)
    ensures 0 <= Rank(s, t) <= 784
    ensures !s.pcs[t].Idle? && !s.pcs[t].Panicked? && !s.pcs[t].Starved? ==> Rank(s, t) > 0
  {
  }

  function Steps(t: nat, k: nat): seq<Action> {
    seq(k, _ => Go(t))
  }

  /** A step of a thread that is alone. */
  lemma OneStep(device: seq<Data>, n: nat, run: seq<Action>, t: nat)
    requires n <= SLOTS && t < n && Alone(After(device, n, run), t) && !After(device, n, run).pcs[t].Idle?
    ensures var s, s' := After(device, n, run), After(device, n, run + [Go(t)]);
      Alone(s', t) && Rank(s, t) > 0 && Rank(s', t) < Rank(s, t)
  {
    var s := After(device, n, run);
    AlwaysInv(device, n, run);
    NeverStarved(device, n, run);
    NeverStarved(device, n, run + [Go(t)]);
    if s.pcs[t].Clock? { EvictionBounded(device, n, run, t); }
    assert (run + [Go(t)])[..|run|] == run;
    assert After(device, n, run + [Go(t)]) == Step(s, t);
    hide Rank, Step, After;
    assert Own(s, t);
    StepPcs(s, t);
    RankBound(s, t);
    StepDrops(s, t);
  }

  lemma {:induction false} ReturnsIn(device: seq<Data>, n: nat, run: seq<Action>, t: nat, rank: nat) returns (k: nat)
    requires n <= SLOTS && t < n && Alone(After(device, n, run), t) && Rank(After(device, n, run), t) <= rank
    ensures k <= rank && After(device, n, run + Steps(t, k)).pcs[t].Idle?
    decreases rank
  {
    hide Rank, After, Alone;
    if After(device, n, run).pcs[t].Idle? {
      assert run + Steps(t, 0) == run;
      return 0;
    }
    OneStep(device, n, run, t);
    var j := ReturnsIn(device, n, run + [Go(t)], t, rank - 1);
    assert run + [Go(t)] + Steps(t, j) == run + Steps(t, j + 1);
    return j + 1;
  }

  /** In every run with at most 64 threads, a thread whose call is the only one going on
      returns from it within 784 further steps. */
  lemma ReturnsAlone(device: seq<Data>, n: nat, run: seq<Action>, t: nat)
    requires n <= SLOTS && t < n && forall u :: 0 <= u < n && u != t ==> After(device, n, run).pcs[u].Idle?
    ensures exists k :: 0 <= k <= 784 && After(device, n, run + Steps(t, k)).pcs[t].Idle?
  {
    var s := After(device, n, run);
    if s.pcs[t].Clock? { EvictionBounded(device, n, run, t); }
    RankBound(s, t);
    var k := ReturnsIn(device, n, run, t, 784);
  }
}
