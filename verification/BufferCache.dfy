/** The write-back buffer cache as a state machine: any number of threads, each
    at a program point of read_buffered, write_buffered, their miss paths or
    flush_buffer_cache, take turns in any order.  One step performs one access
    to shared state. */
module BufferCache {
  import opened Storage

  const SLOTS: nat := 64

  /** One call into the cache. */
  datatype Req =
    | Read(sector: nat, start: nat, end: nat)
    | Write(sector: nat, start: nat, bytes: seq<Byte>)
    | Flush

  datatype Result =
    | Bytes(bytes: seq<Byte>)
    | Written
    | Synced(device: seq<Data>)   // what the device holds when a flush takes effect

  /** A buffer_entry; `holder` is the thread that holds its sector_lock. */
  datatype Entry = Entry(sector: nat, buffer: Data, use: bool, dirty: bool, holder: Option<nat>)

  // Program points, in the order a call passes through them.

  /** acquire_buffer_entry_lock, then read_buffered / write_buffered. */
  datatype HitAt = HitLock | HitScan | HitEntry | HitUse | HitUnlock | HitPermit | HitCopy | HitDirty

  /** read_not_buffered / write_not_buffered up to the eviction. */
  datatype MissAt = MissLock | MissScan | MissPermit | MissFetch

  /** clock_algorithm_evict. */
  datatype ClockAt = ClockLook | ClockTest | ClockSkip | ClockWriteback | ClockDrop

  /** The tail of a call: drop the lock still held, give back the permit, wake waiters. */
  datatype LeaveAt = LeaveEntry | LeaveGlobal | LeavePermit | LeaveWake | LeaveDone

  /** flush_buffer_cache. */
  datatype SyncAt = SyncLock | SyncScan | SyncEntry | SyncWriteback | SyncDrop

  /** The next thing a thread does.  `r` is its request, `i` a slot index, `buf` the
      private copy of a sector on its way into the cache, `moves` the number of
      times the clock hand has moved in this eviction. */
  datatype Pc =
    | Idle
    | Panicked                     // a failed ASSERT or a null entry
    | Starved(r: Req)              // sema_try_down failed
    | Hit(hit: HitAt, r: Req, i: nat)
    | Miss(miss: MissAt, r: Req, i: nat)
    | Clock(clock: ClockAt, r: Req, buf: Data, moves: nat)
    | Install(r: Req, buf: Data, i: nat)
    | Leave(leave: LeaveAt, i: nat, res: Result)
    | Sync(sync: SyncAt, i: nat)

  datatype Event =
    | Invoke(t: nat, r: Req)
    | Commit(t: nat, r: Req, res: Result)
    | Return(t: nat, res: Result)

  datatype State = State(
    device: seq<Data>,
    slots: seq<Option<Entry>>,
    hand: nat,
    lock: Option<nat>,          // holder of buffer_cache_lock
    wakeLock: Option<nat>,      // holder of inactive_lock
    permits: nat,               // value of active_sema
    pcs: seq<Pc>,
    trace: seq<Event>           // observer: what has happened so far
  ) {
    predicate Caches(i: nat, sector: nat)
      requires i < |slots|
    {
      slots[i].Some? && slots[i].value.sector == sector
    }

    function Goto(t: nat, pc: Pc): (s': State)
      requires t < |pcs|
      ensures Shape(this) && PcOk(pc, |device|) ==> Shape(s')
    {
      this.(pcs := pcs[t := pc])
    }

    function Panic(t: nat): (s': State)
      requires t < |pcs|
      ensures Shape(this) ==> Shape(s')
    {
      Goto(t, Panicked)
    }

    function SetEntry(i: nat, e: Entry): (s': State)
      requires i < |slots|
      ensures Shape(this) && e.sector < |device| ==> Shape(s')
    {
      this.(slots := slots[i := Some(e)])
    }

    function Log(e: Event): (s': State)
      ensures Shape(this) ==> Shape(s')
    {
      this.(trace := trace + [e])
    }

    function Advance(): (s': State)
      ensures Shape(this) ==> Shape(s')
    {
      this.(hand := (hand + 1) % SLOTS)
    }
  }

  // ---------- Locks ----------

  function LockGlobal(s: State, t: nat, next: Pc): (s': State)
    requires t < |s.pcs|
    ensures |s'.pcs| == |s.pcs| && (Shape(s) && PcOk(next, |s.device|) ==> Shape(s'))
  {
    if s.lock == Some(t) then s.Panic(t)
    else if s.lock.Some? then s
    else s.(lock := Some(t)).Goto(t, next)
  }

  function UnlockGlobal(s: State, t: nat, next: Pc): (s': State)
    requires t < |s.pcs|
    ensures |s'.pcs| == |s.pcs| && (Shape(s) && PcOk(next, |s.device|) ==> Shape(s'))
  {
    if s.lock != Some(t) then s.Panic(t) else s.(lock := None).Goto(t, next)
  }

  function LockEntry(s: State, t: nat, i: nat, next: Pc): (s': State)
    requires t < |s.pcs| && i < |s.slots|
    ensures |s'.pcs| == |s.pcs| && (Shape(s) && PcOk(next, |s.device|) ==> Shape(s'))
  {
    match s.slots[i]
    case None => s.Panic(t)
    case Some(e) =>
      if e.holder == Some(t) then s.Panic(t)
      else if e.holder.Some? then s
      else s.SetEntry(i, e.(holder := Some(t))).Goto(t, next)
  }

  function UnlockEntry(s: State, t: nat, i: nat, next: Pc): (s': State)
    requires t < |s.pcs| && i < |s.slots|
    ensures |s'.pcs| == |s.pcs| && (Shape(s) && PcOk(next, |s.device|) ==> Shape(s'))
  {
    if s.slots[i].None? || s.slots[i].value.holder != Some(t) then s.Panic(t)
    else s.SetEntry(i, s.slots[i].value.(holder := None)).Goto(t, next)
  }

  // ---------- buffer_evict ----------

  predicate MayEvict(s: State, t: nat, i: nat)
    requires i < |s.slots|
  {
    s.lock == Some(t) && s.slots[i].Some? && s.slots[i].value.holder == Some(t)
  }

  function Writeback(s: State, t: nat, i: nat, next: Pc): (s': State)
    requires Shape(s) && t < |s.pcs| && i < SLOTS
    ensures |s'.pcs| == |s.pcs| && (PcOk(next, |s.device|) ==> Shape(s'))
  {
    if !MayEvict(s, t, i) then s.Panic(t)
    else
      var e := s.slots[i].value;
      (if e.dirty then s.(device := s.device[e.sector := e.buffer]) else s).Goto(t, next)
  }

  function Drop(s: State, t: nat, i: nat, next: Pc): (s': State)
    requires Shape(s) && t < |s.pcs| && i < SLOTS
    ensures |s'.pcs| == |s.pcs| && (PcOk(next, |s.device|) ==> Shape(s'))
  {
    if !MayEvict(s, t, i) then s.Panic(t)
    else s.(slots := s.slots[i := None]).Goto(t, next)
  }

  // ---------- One step of one thread ----------

  /** A read or write whose byte range lies in one sector. */
  predicate InSector(r: Req) {
    match r
    case Read(_, start, end) => start <= end <= SECTOR_SIZE
    case Write(_, start, bytes) => start + |bytes| <= SECTOR_SIZE
    case Flush => false
  }

  /** The request of a thread inside read_buffered or write_buffered. */
  predicate AccessOk(r: Req, sectors: nat) {
    InSector(r) && r.sector < sectors
  }

  predicate PcOk(pc: Pc, sectors: nat) {
    match pc
    case Idle | Panicked | Starved(_) => true
    case Hit(at, r, i) => AccessOk(r, sectors) && i <= SLOTS && (i == SLOTS ==> at == HitScan)
    case Miss(at, r, i) => AccessOk(r, sectors) && i <= SLOTS
    case Clock(_, r, _, _) => AccessOk(r, sectors)
    case Install(r, _, i) => AccessOk(r, sectors) && i < SLOTS
    case Leave(_, i, _) => i < SLOTS
    case Sync(at, i) => i <= SLOTS && (i == SLOTS ==> at == SyncScan)
  }

  /** Indices and requests are in range: what the C types and check_sector give. */
  predicate Shape(s: State) {
    && |s.slots| == SLOTS
    && s.hand < SLOTS
    && (forall i :: 0 <= i < SLOTS && s.slots[i].Some? ==> s.slots[i].value.sector < |s.device|)
    && (forall t :: 0 <= t < |s.pcs| ==> PcOk(s.pcs[t], |s.device|))
  }

  /** What a read hands back from a sector with contents `d`. */
  function ResultOn(r: Req, d: Data): Result
    requires InSector(r)
  {
    if r.Read? then Bytes(d[r.start..r.end]) else Written
  }

  /** The sector contents after the request has been applied to `d`. */
  function ApplyTo(r: Req, d: Data): Data
    requires InSector(r)
  {
    if r.Write? then Patch(d, r.start, r.bytes) else d
  }

  function StepHit(s: State, t: nat, at: HitAt, r: Req, i: nat): (s': State)
    requires Shape(s) && t < |s.pcs| && s.pcs[t] == Hit(at, r, i)
    ensures Shape(s') && |s'.pcs| == |s.pcs|
  {
    match at
    case HitLock => LockGlobal(s, t, Hit(HitScan, r, 0))
    case HitScan =>
      if i == SLOTS then UnlockGlobal(s, t, Miss(MissLock, r, 0))
      else if s.Caches(i, r.sector) then s.Goto(t, Hit(HitEntry, r, i))
      else s.Goto(t, Hit(HitScan, r, i + 1))
    case HitEntry => LockEntry(s, t, i, Hit(HitUse, r, i))
    case HitUse =>
      if s.slots[i].None? then s.Panic(t)
      else s.SetEntry(i, s.slots[i].value.(use := true)).Goto(t, Hit(HitUnlock, r, i))
    case HitUnlock => UnlockGlobal(s, t, Hit(HitPermit, r, i))
    case HitPermit =>
      if s.permits == 0 then UnlockEntry(s, t, i, Starved(r))
      else s.(permits := s.permits - 1).Goto(t, Hit(HitCopy, r, i))
    case HitCopy =>
      if s.slots[i].None? then s.Panic(t)
      else
        var e := s.slots[i].value;
        var res := ResultOn(r, e.buffer);
        s.SetEntry(i, e.(buffer := ApplyTo(r, e.buffer)))
         .Log(Commit(t, r, res))
         .Goto(t, if r.Write? then Hit(HitDirty, r, i) else Leave(LeaveEntry, i, res))
    case HitDirty =>
      if s.slots[i].None? then s.Panic(t)
      else s.SetEntry(i, s.slots[i].value.(dirty := true)).Goto(t, Leave(LeaveEntry, i, Written))
  }

  function StepMiss(s: State, t: nat, at: MissAt, r: Req, i: nat): (s': State)
    requires Shape(s) && t < |s.pcs| && s.pcs[t] == Miss(at, r, i)
    ensures Shape(s') && |s'.pcs| == |s.pcs|
  {
    match at
    case MissLock => LockGlobal(s, t, Miss(MissScan, r, 0))
    case MissScan =>
      if i == SLOTS then s.Goto(t, Miss(MissPermit, r, 0))
      else if s.Caches(i, r.sector) then UnlockGlobal(s, t, Hit(HitLock, r, 0))
      else s.Goto(t, Miss(MissScan, r, i + 1))
    case MissPermit =>
      if s.permits == 0 then UnlockGlobal(s, t, Starved(r))
      else s.(permits := s.permits - 1).Goto(t, Miss(MissFetch, r, 0))
    case MissFetch => s.Goto(t, Clock(ClockLook, r, s.device[r.sector], 0))
  }

  function StepClock(s: State, t: nat, at: ClockAt, r: Req, buf: Data, moves: nat): (s': State)
    requires Shape(s) && t < |s.pcs| && s.pcs[t] == Clock(at, r, buf, moves)
    ensures Shape(s') && |s'.pcs| == |s.pcs|
  {
    var slot := s.slots[s.hand];
    match at
    case ClockLook =>
      if slot.None? then s.Advance().Goto(t, Install(r, buf, s.hand))
      else if slot.value.holder.Some? && slot.value.holder != Some(t) then
        s.Advance().Goto(t, Clock(ClockLook, r, buf, moves + 1))
      else LockEntry(s, t, s.hand, Clock(ClockTest, r, buf, moves))
    case ClockTest =>
      if slot.None? then s.Panic(t)
      else if slot.value.use then
        s.SetEntry(s.hand, slot.value.(use := false)).Goto(t, Clock(ClockSkip, r, buf, moves))
      else s.Goto(t, Clock(ClockWriteback, r, buf, moves))
    case ClockSkip => UnlockEntry(s, t, s.hand, Clock(ClockLook, r, buf, moves + 1)).Advance()
    case ClockWriteback => Writeback(s, t, s.hand, Clock(ClockDrop, r, buf, moves))
    case ClockDrop => Drop(s, t, s.hand, Install(r, buf, s.hand)).Advance()
  }

  function StepInstall(s: State, t: nat, r: Req, buf: Data, i: nat): (s': State)
    requires Shape(s) && t < |s.pcs| && s.pcs[t] == Install(r, buf, i)
    ensures Shape(s') && |s'.pcs| == |s.pcs|
  {
    if s.slots[i].Some? then s.Panic(t)
    else
      var res := ResultOn(r, buf);
      s.SetEntry(i, Entry(r.sector, ApplyTo(r, buf), true, r.Write?, None))
       .Log(Commit(t, r, res))
       .Goto(t, Leave(LeaveGlobal, i, res))
  }

  function StepLeave(s: State, t: nat, at: LeaveAt, i: nat, res: Result): (s': State)
    requires Shape(s) && t < |s.pcs| && s.pcs[t] == Leave(at, i, res)
    ensures Shape(s') && |s'.pcs| == |s.pcs|
  {
    match at
    case LeaveEntry => UnlockEntry(s, t, i, Leave(LeavePermit, i, res))
    case LeaveGlobal => UnlockGlobal(s, t, Leave(LeavePermit, i, res))
    case LeavePermit => s.(permits := s.permits + 1).Goto(t, Leave(LeaveWake, i, res))
    case LeaveWake =>
      if s.wakeLock == Some(t) then s.Panic(t)
      else if s.wakeLock.Some? then s
      else s.(wakeLock := Some(t)).Goto(t, Leave(LeaveDone, i, res))
    case LeaveDone =>
      if s.wakeLock != Some(t) then s.Panic(t)
      else s.(wakeLock := None).Log(Return(t, res)).Goto(t, Idle)
  }

  function StepSync(s: State, t: nat, at: SyncAt, i: nat): (s': State)
    requires Shape(s) && t < |s.pcs| && s.pcs[t] == Sync(at, i)
    ensures Shape(s') && |s'.pcs| == |s.pcs|
  {
    match at
    case SyncLock => LockGlobal(s, t, Sync(SyncScan, 0))
    case SyncScan =>
      if i == SLOTS then
        var res := Synced(s.device);
        UnlockGlobal(s.Log(Commit(t, Flush, res)).Log(Return(t, res)), t, Idle)
      else if s.slots[i].None? then s.Goto(t, Sync(SyncScan, i + 1))
      else s.Goto(t, Sync(SyncEntry, i))
    case SyncEntry => LockEntry(s, t, i, Sync(SyncWriteback, i))
    case SyncWriteback => Writeback(s, t, i, Sync(SyncDrop, i))
    case SyncDrop => Drop(s, t, i, Sync(SyncScan, i + 1))
  }

  /** The next step of thread `t`; a thread that must wait for a lock stays put. */
  function Step(s: State, t: nat): (s': State)
    requires Shape(s) && t < |s.pcs|
    ensures Shape(s') && |s'.pcs| == |s.pcs|
  {
    match s.pcs[t]
    case Idle | Panicked | Starved(_) => s
    case Hit(at, r, i) => StepHit(s, t, at, r, i)
    case Miss(at, r, i) => StepMiss(s, t, at, r, i)
    case Clock(at, r, buf, moves) => StepClock(s, t, at, r, buf, moves)
    case Install(r, buf, i) => StepInstall(s, t, r, buf, i)
    case Leave(at, i, res) => StepLeave(s, t, at, i, res)
    case Sync(at, i) => StepSync(s, t, at, i)
  }

  // ---------- Runs ----------

  datatype Action = Call(t: nat, r: Req) | Go(t: nat)

  /** One move of the whole machine: an idle thread calls in, or a thread steps. */
  function Do(s: State, a: Action): (s': State)
    requires Shape(s)
    ensures Shape(s') && |s'.pcs| == |s.pcs|
  {
    if a.t >= |s.pcs| then s
    else if a.Go? then Step(s, a.t)
    else if !s.pcs[a.t].Idle? || !(a.r.Flush? || AccessOk(a.r, |s.device|)) then s
    else s.Log(Invoke(a.t, a.r)).Goto(a.t, if a.r.Flush? then Sync(SyncLock, 0) else Hit(HitLock, a.r, 0))
  }

  /** init_buffer_cache over a device, with `n` threads about to use it. */
  function Init(device: seq<Data>, n: nat): (s: State)
    ensures Shape(s)
  {
    State(device, seq(SLOTS, _ => None), 0, None, None, SLOTS, seq(n, _ => Idle), [])
  }

  /** The state after the actions of `run`, in order. */
  function After(device: seq<Data>, n: nat, run: seq<Action>): (s: State)
    ensures Shape(s) && |s.pcs| == n
  {
    if run == [] then Init(device, n)
    else Do(After(device, n, run[..|run| - 1]), run[|run| - 1])
  }
}
