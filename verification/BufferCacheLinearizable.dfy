/** The cache is linearizable: in every run, each call takes effect at one moment
    between its start and its return, and in the order of those moments the
    calls behave exactly like calls on a plain disk. */
module BufferCacheLinearizable {
  import opened Storage
  import opened BufferCache
  import opened BufferCacheSafety

  // ---------- The plain disk ----------

  predicate ReqOk(r: Req, sectors: nat) {
    r.Flush? || AccessOk(r, sectors)
  }

  /** The plain disk after one call. */
  function DiskAfter(disk: seq<Data>, r: Req): (d: seq<Data>)
    requires ReqOk(r, |disk|)
    ensures |d| == |disk|
  {
    if r.Write? then disk[r.sector := Patch(disk[r.sector], r.start, r.bytes)] else disk
  }

  /** What the plain disk answers. */
  function Answer(disk: seq<Data>, r: Req): Result
    requires ReqOk(r, |disk|)
  {
    match r
    case Read(sector, start, end) => Bytes(disk[sector][start..end])
    case Write(_, _, _) => Written
    case Flush => Synced(disk)
  }

  /** The plain disk after the committed calls of a trace. */
  function Replay(disk: seq<Data>, trace: seq<Event>): (d: seq<Data>)
    ensures |d| == |disk|
  {
    if trace == [] then disk
    else
      var d := Replay(disk, trace[..|trace| - 1]);
      var e := trace[|trace| - 1];
      if e.Commit? && ReqOk(e.r, |d|) then DiskAfter(d, e.r) else d
  }

  /** Every committed call got the plain disk's answer. */
  predicate Legal(disk: seq<Data>, trace: seq<Event>) {
    trace == [] ||
    var past, e := trace[..|trace| - 1], trace[|trace| - 1];
    && Legal(disk, past)
    && (e.Commit? ==> ReqOk(e.r, |disk|) && e.res == Answer(Replay(disk, past), e.r))
  }

  // ---------- One thread's calls ----------

  datatype Session = Ready | Called(r: Req) | Done(res: Result) | Broken

  /** Where thread `t` is according to the trace.  A session is Broken unless its
      events are Invoke, Commit of the same request, Return of the same result,
      over and over. */
  function SessionOf(trace: seq<Event>, t: nat): Session {
    if trace == [] then Ready
    else
      var was := SessionOf(trace[..|trace| - 1], t);
      match trace[|trace| - 1]
      case Invoke(u, r) => if u != t then was else if was.Ready? then Called(r) else Broken
      case Commit(u, r, res) => if u != t then was else if was == Called(r) then Done(res) else Broken
      case Return(u, res) => if u != t then was else if was == Done(res) then Ready else Broken
  }

  /** Where thread `t` is according to its program point. */
  function SessionAt(pc: Pc): Session {
    match pc
    case Idle => Ready
    case Panicked => Broken
    case Starved(r) => Called(r)
    case Hit(at, r, _) => if at == HitDirty then Done(Written) else Called(r)
    case Miss(_, r, _) => Called(r)
    case Clock(_, r, _, _) => Called(r)
    case Install(r, _, _) => Called(r)
    case Leave(_, _, res) => Done(res)
    case Sync(_, _) => Called(Flush)
  }

  // ---------- The logical disk ----------

  /** `disk` is what the cache stands for: cached bytes over device bytes. */
  ghost predicate Represents(s: State, disk: seq<Data>)
    requires Shape(s)
  {
    && |disk| == |s.device|
    && (forall i :: 0 <= i < SLOTS && s.slots[i].Some? ==> disk[s.slots[i].value.sector] == s.slots[i].value.buffer)
    && (forall k :: 0 <= k < |disk| && AbsentBelow(s, SLOTS, k) ==> disk[k] == s.device[k])
  }

  /** Steps that leave every entry's bytes and the device alone. */
  lemma SameBytes(s: State, s': State, disk: seq<Data>)
    requires Shape(s) && Shape(s') && Represents(s, disk) && s'.device == s.device
    requires forall i :: 0 <= i < SLOTS ==>
      s'.slots[i].Some? == s.slots[i].Some?
      && (s.slots[i].Some? ==> s'.slots[i].value.sector == s.slots[i].value.sector
                               && s'.slots[i].value.buffer == s.slots[i].value.buffer)
    ensures Represents(s', disk)
  {
    forall k | 0 <= k < |disk| && AbsentBelow(s', SLOTS, k) ensures disk[k] == s'.device[k] {
      assert AbsentBelow(s, SLOTS, k);
    }
  }

  lemma WritebackRepresents(s: State, t: nat, i: nat, next: Pc, disk: seq<Data>)
    requires Shape(s) && Represents(s, disk) && t < |s.pcs| && i < SLOTS && PcOk(next, |s.device|)
    ensures Represents(Writeback(s, t, i, next), disk)
  {
    var s' := Writeback(s, t, i, next);
    forall k | 0 <= k < |disk| && AbsentBelow(s', SLOTS, k) ensures disk[k] == s'.device[k] {
      assert AbsentBelow(s, SLOTS, k);
    }
  }

  lemma DropRepresents(s: State, t: nat, i: nat, next: Pc, disk: seq<Data>)
    requires Shape(s) && Represents(s, disk) && t < |s.pcs| && i < SLOTS && PcOk(next, |s.device|)
    requires Clean(s, i)
    ensures Represents(Drop(s, t, i, next), disk)
  {
    var s' := Drop(s, t, i, next);
    forall k | 0 <= k < |disk| && AbsentBelow(s', SLOTS, k) ensures disk[k] == s'.device[k] {
      if k != s.slots[i].value.sector {
        forall j | 0 <= j < SLOTS && s.slots[j].Some? ensures s.slots[j].value.sector != k {
          assert j != i ==> s'.slots[j] == s.slots[j];
        }
        assert AbsentBelow(s, SLOTS, k);
      }
    }
  }

  /** A copy into a cached entry is the same write on the logical disk. */
  lemma CopyRepresents(s: State, s': State, i: nat, r: Req, disk: seq<Data>)
    requires Shape(s) && Shape(s') && Distinct(s) && Represents(s, disk) && AccessOk(r, |s.device|)
    requires i < SLOTS && s.Caches(i, r.sector) && s'.device == s.device
    requires s'.slots == s.slots[i := Some(s.slots[i].value.(buffer := ApplyTo(r, s.slots[i].value.buffer)))]
    ensures Represents(s', DiskAfter(disk, r))
  {
    var d := DiskAfter(disk, r);
    forall k | 0 <= k < |d| && AbsentBelow(s', SLOTS, k) ensures d[k] == s'.device[k] {
      assert k != r.sector by { assert s'.slots[i].value.sector == r.sector; }
      forall j | 0 <= j < SLOTS && s.slots[j].Some? ensures s.slots[j].value.sector != k {
        assert s'.slots[j].value.sector == s.slots[j].value.sector;
      }
      assert AbsentBelow(s, SLOTS, k);
    }
  }

  /** Installing a fetched (and perhaps patched) sector is the call on the logical disk. */
  lemma InstallRepresents(s: State, s': State, i: nat, r: Req, buf: Data, disk: seq<Data>)
    requires Shape(s) && Shape(s') && Represents(s, disk) && AccessOk(r, |s.device|)
    requires i < SLOTS && s.slots[i].None? && AbsentBelow(s, SLOTS, r.sector) && buf == s.device[r.sector]
    requires s'.device == s.device && s'.slots[i].Some?
    requires s'.slots == s.slots[i := s'.slots[i]]
    requires s'.slots[i].value.sector == r.sector && s'.slots[i].value.buffer == ApplyTo(r, buf)
    ensures Represents(s', DiskAfter(disk, r))
  {
    var d := DiskAfter(disk, r);
    forall k | 0 <= k < |d| && AbsentBelow(s', SLOTS, k) ensures d[k] == s'.device[k] {
      assert k != r.sector by { assert s'.slots[i].value.sector == r.sector; }
      forall j | 0 <= j < SLOTS && s.slots[j].Some? ensures s.slots[j].value.sector != k {
        assert s'.slots[j] == s.slots[j];
      }
    }
  }

  /** When every slot is empty the device is the logical disk. */
  lemma EmptyRepresents(s: State, disk: seq<Data>)
    requires Shape(s) && Represents(s, disk) && forall j :: 0 <= j < SLOTS ==> s.slots[j].None?
    ensures disk == s.device
  {
    forall k | 0 <= k < |disk| ensures disk[k] == s.device[k] {
      assert AbsentBelow(s, SLOTS, k);
    }
  }

  /** There is only one logical disk. */
  lemma RepresentsUnique(s: State, d1: seq<Data>, d2: seq<Data>)
    requires Shape(s) && Represents(s, d1) && Represents(s, d2)
    ensures d1 == d2
  {
    forall k | 0 <= k < |d1| ensures d1[k] == d2[k] {
      if !AbsentBelow(s, SLOTS, k) {
        var j :| 0 <= j < SLOTS && s.slots[j].Some? && s.slots[j].value.sector == k;
      }
    }
  }

  // ---------- Every step keeps the correspondence ----------

  ghost predicate Linear(disk: seq<Data>, s: State)
    requires Shape(s)
  {
    && Represents(s, Replay(disk, s.trace))
    && Legal(disk, s.trace)
    && (forall t :: 0 <= t < |s.pcs| ==> SessionOf(s.trace, t) == SessionAt(s.pcs[t]))
  }

  /** What one more event does to a trace. */
  lemma Extend(disk: seq<Data>, trace: seq<Event>, e: Event)
    ensures Replay(disk, trace + [e]) ==
      var d := Replay(disk, trace);
      if e.Commit? && ReqOk(e.r, |d|) then DiskAfter(d, e.r) else d
    ensures Legal(disk, trace + [e]) <==>
      Legal(disk, trace) && (e.Commit? ==> ReqOk(e.r, |disk|) && e.res == Answer(Replay(disk, trace), e.r))
    ensures forall t :: t != e.t ==> SessionOf(trace + [e], t) == SessionOf(trace, t)
    ensures SessionOf(trace + [e], e.t) ==
      var was := SessionOf(trace, e.t);
      match e
      case Invoke(_, r) => if was.Ready? then Called(r) else Broken
      case Commit(_, r, res) => if was == Called(r) then Done(res) else Broken
      case Return(_, res) => if was == Done(res) then Ready else Broken
  {
    assert (trace + [e])[..|trace + [e]| - 1] == trace;
  }

  /** A step that logs nothing and stands for the same disk. */
  lemma SilentLinear(disk: seq<Data>, s: State, t: nat, s': State)
    requires Shape(s) && Shape(s') && Linear(disk, s) && t < |s.pcs|
    requires s'.trace == s.trace && |s'.pcs| == |s.pcs|
    requires forall u :: 0 <= u < |s.pcs| && u != t ==> s'.pcs[u] == s.pcs[u]
    requires SessionAt(s'.pcs[t]) == SessionAt(s.pcs[t])
    requires Represents(s', Replay(disk, s.trace))
    ensures Linear(disk, s')
  {
  }

  /** A step that logs one event. */
  lemma LoggedLinear(disk: seq<Data>, s: State, e: Event, s': State)
    requires Shape(s) && Shape(s') && Linear(disk, s) && e.t < |s.pcs|
    requires s'.trace == s.trace + [e] && |s'.pcs| == |s.pcs|
    requires forall u :: 0 <= u < |s.pcs| && u != e.t ==> s'.pcs[u] == s.pcs[u]
    requires SessionAt(s'.pcs[e.t]) == SessionOf(s'.trace, e.t)
    requires e.Commit? ==> ReqOk(e.r, |disk|) && e.res == Answer(Replay(disk, s.trace), e.r)
    requires Represents(s', Replay(disk, s'.trace))
    ensures Linear(disk, s')
  {
    Extend(disk, s.trace, e);
  }

  lemma HitLinear(disk: seq<Data>, s: State, t: nat, at: HitAt, r: Req, i: nat)
    requires Inv(s) && Linear(disk, s) && t < |s.pcs| && s.pcs[t] == Hit(at, r, i) && at != HitCopy
    ensures Linear(disk, StepHit(s, t, at, r, i))
  {
    var s' := StepHit(s, t, at, r, i);
    assert Own(s, t);
    assert i < SLOTS ==> (HoldsEntry(s.pcs[t], s.hand, i) <==> HeldBy(s, i, t));
    SameBytes(s, s', Replay(disk, s.trace));
    SilentLinear(disk, s, t, s');
  }

  lemma CopyLinear(disk: seq<Data>, s: State, t: nat, r: Req, i: nat)
    requires Inv(s) && Linear(disk, s) && t < |s.pcs| && s.pcs[t] == Hit(HitCopy, r, i)
    ensures Linear(disk, StepHit(s, t, HitCopy, r, i))
  {
    var s', d := StepHit(s, t, HitCopy, r, i), Replay(disk, s.trace);
    assert Own(s, t);
    var e := Commit(t, r, ResultOn(r, s.slots[i].value.buffer));
    Extend(disk, s.trace, e);
    CopyRepresents(s, s', i, r, d);
    LoggedLinear(disk, s, e, s');
  }

  lemma MissLinear(disk: seq<Data>, s: State, t: nat, at: MissAt, r: Req, i: nat)
    requires Inv(s) && Linear(disk, s) && t < |s.pcs| && s.pcs[t] == Miss(at, r, i)
    ensures Linear(disk, StepMiss(s, t, at, r, i))
  {
    var s' := StepMiss(s, t, at, r, i);
    assert Own(s, t);
    SameBytes(s, s', Replay(disk, s.trace));
    SilentLinear(disk, s, t, s');
  }

  lemma ClockLinear(disk: seq<Data>, s: State, t: nat, at: ClockAt, r: Req, buf: Data, moves: nat)
    requires Inv(s) && Linear(disk, s) && t < |s.pcs| && s.pcs[t] == Clock(at, r, buf, moves)
    ensures Linear(disk, StepClock(s, t, at, r, buf, moves))
  {
    var s', d := StepClock(s, t, at, r, buf, moves), Replay(disk, s.trace);
    assert Own(s, t);
    assert HoldsEntry(s.pcs[t], s.hand, s.hand) <==> HeldBy(s, s.hand, t);
    if at == ClockWriteback {
      WritebackRepresents(s, t, s.hand, Clock(ClockDrop, r, buf, moves), d);
    } else if at == ClockDrop {
      var s1 := Drop(s, t, s.hand, Install(r, buf, s.hand));
      DropRepresents(s, t, s.hand, Install(r, buf, s.hand), d);
      SameBytes(s1, s', d);
    } else {
      SameBytes(s, s', d);
    }
    SilentLinear(disk, s, t, s');
  }

  lemma InstallLinear(disk: seq<Data>, s: State, t: nat, r: Req, buf: Data, i: nat)
    requires Inv(s) && Linear(disk, s) && t < |s.pcs| && s.pcs[t] == Install(r, buf, i)
    ensures Linear(disk, StepInstall(s, t, r, buf, i))
  {
    var s', d := StepInstall(s, t, r, buf, i), Replay(disk, s.trace);
    assert Own(s, t);
    var e := Commit(t, r, ResultOn(r, buf));
    Extend(disk, s.trace, e);
    InstallRepresents(s, s', i, r, buf, d);
    LoggedLinear(disk, s, e, s');
  }

  lemma LeaveLinear(disk: seq<Data>, s: State, t: nat, at: LeaveAt, i: nat, res: Result)
    requires Inv(s) && Linear(disk, s) && t < |s.pcs| && s.pcs[t] == Leave(at, i, res) && at != LeaveDone
    ensures Linear(disk, StepLeave(s, t, at, i, res))
  {
    var s' := StepLeave(s, t, at, i, res);
    assert Own(s, t);
    assert HoldsEntry(s.pcs[t], s.hand, i) <==> HeldBy(s, i, t);
    SameBytes(s, s', Replay(disk, s.trace));
    SilentLinear(disk, s, t, s');
  }

  lemma ReturnLinear(disk: seq<Data>, s: State, t: nat, i: nat, res: Result)
    requires Inv(s) && Linear(disk, s) && t < |s.pcs| && s.pcs[t] == Leave(LeaveDone, i, res)
    ensures Linear(disk, StepLeave(s, t, LeaveDone, i, res))
  {
    var s' := StepLeave(s, t, LeaveDone, i, res);
    assert Own(s, t);
    assert s'.slots == s.slots && s'.device == s.device;
    SameBytes(s, s', Replay(disk, s.trace));
    Extend(disk, s.trace, Return(t, res));
    LoggedLinear(disk, s, Return(t, res), s');
  }

  lemma SyncLinear(disk: seq<Data>, s: State, t: nat, at: SyncAt, i: nat)
    requires Inv(s) && Linear(disk, s) && t < |s.pcs| && s.pcs[t] == Sync(at, i) && !(at == SyncScan && i == SLOTS)
    ensures Linear(disk, StepSync(s, t, at, i))
  {
    var s', d := StepSync(s, t, at, i), Replay(disk, s.trace);
    assert Own(s, t);
    assert HoldsEntry(s.pcs[t], s.hand, i) <==> HeldBy(s, i, t);
    if at == SyncWriteback {
      WritebackRepresents(s, t, i, Sync(SyncDrop, i), d);
    } else if at == SyncDrop {
      DropRepresents(s, t, i, Sync(SyncScan, i + 1), d);
    } else {
      SameBytes(s, s', d);
    }
    SilentLinear(disk, s, t, s');
  }

  /** A flush takes effect when its scan ends: every slot is then empty, so the
      device itself is the logical disk, whoever else is using the cache. */
  lemma SyncedLinear(disk: seq<Data>, s: State, t: nat)
    requires Inv(s) && Linear(disk, s) && t < |s.pcs| && s.pcs[t] == Sync(SyncScan, SLOTS)
    ensures Linear(disk, StepSync(s, t, SyncScan, SLOTS))
  {
    var s', d := StepSync(s, t, SyncScan, SLOTS), Replay(disk, s.trace);
    assert Own(s, t);
    EmptyRepresents(s, d);
    var c, e := Commit(t, Flush, Synced(s.device)), Return(t, Synced(s.device));
    Extend(disk, s.trace, c);
    Extend(disk, s.trace + [c], e);
    SameBytes(s, s', d);
    assert s'.trace == s.trace + [c] + [e];
  }

  lemma StepLinear(disk: seq<Data>, s: State, t: nat)
    requires Inv(s) && Linear(disk, s) && t < |s.pcs|
    ensures Linear(disk, Step(s, t))
  {
    match s.pcs[t]
    case Idle | Panicked | Starved(_) =>
    case Hit(at, r, i) => if at == HitCopy { CopyLinear(disk, s, t, r, i); } else { HitLinear(disk, s, t, at, r, i); }
    case Miss(at, r, i) => MissLinear(disk, s, t, at, r, i);
    case Clock(at, r, buf, moves) => ClockLinear(disk, s, t, at, r, buf, moves);
    case Install(r, buf, i) => InstallLinear(disk, s, t, r, buf, i);
    case Leave(at, i, res) => if at == LeaveDone { ReturnLinear(disk, s, t, i, res); } else { LeaveLinear(disk, s, t, at, i, res); }
    case Sync(at, i) => if at == SyncScan && i == SLOTS { SyncedLinear(disk, s, t); } else { SyncLinear(disk, s, t, at, i); }
  }

  lemma CallLinear(disk: seq<Data>, s: State, t: nat, r: Req)
    requires Inv(s) && Linear(disk, s) && t < |s.pcs|
    ensures Linear(disk, Do(s, Call(t, r)))
  {
    var s' := Do(s, Call(t, r));
    if s' != s {
      Extend(disk, s.trace, Invoke(t, r));
      SameBytes(s, s', Replay(disk, s.trace));
      LoggedLinear(disk, s, Invoke(t, r), s');
    }
  }

  lemma {:induction false} AlwaysLinear(device: seq<Data>, n: nat, run: seq<Action>)
    ensures Linear(device, After(device, n, run))
  {
    if run != [] {
      var s := After(device, n, run[..|run| - 1]);
      var a := run[|run| - 1];
      AlwaysLinear(device, n, run[..|run| - 1]);
      AlwaysInv(device, n, run[..|run| - 1]);
      if a.t < |s.pcs| {
        if a.Go? { StepLinear(device, s, a.t); } else { CallLinear(device, s, a.t, a.r); }
      }
    }
  }

  // ---------- The calls of a run are the calls of its trace ----------

  /** The requests with which thread `t` calls in during a run: those of its Call actions that
      come when all its earlier calls have returned and that name a range inside the device. */
  function Calls(device: seq<Data>, n: nat, run: seq<Action>, t: nat): seq<Req> {
    if run == [] then []
    else
      var past, a := run[..|run| - 1], run[|run| - 1];
      Calls(device, n, past, t) +
      if a.Call? && a.t == t && SessionOf(After(device, n, past).trace, t).Ready? && ReqOk(a.r, |device|) then [a.r] else []
  }

  /** The requests in the Invoke events of thread `t`. */
  function Invoked(trace: seq<Event>, t: nat): seq<Req> {
    if trace == [] then []
    else
      var e := trace[|trace| - 1];
      Invoked(trace[..|trace| - 1], t) + if e.Invoke? && e.t == t then [e.r] else []
  }

  lemma InvokedMore(trace: seq<Event>, e: Event, t: nat)
    ensures Invoked(trace + [e], t) == Invoked(trace, t) + if e.Invoke? && e.t == t then [e.r] else []
  {
    assert (trace + [e])[..|trace|] == trace;
  }

  /** A step inside a call is no call. */
  lemma StepInvokes(s: State, u: nat, t: nat)
    requires Shape(s) && u < |s.pcs|
    ensures Invoked(Step(s, u).trace, t) == Invoked(s.trace, t)
  {
    var s' := Step(s, u);
    if s'.trace != s.trace {
      var e := s'.trace[|s.trace|];
      if |s'.trace| == |s.trace| + 1 {
        assert s'.trace == s.trace + [e];
        InvokedMore(s.trace, e, t);
      } else {
        var c, r := Commit(u, Flush, Synced(s.device)), Return(u, Synced(s.device));
        assert s'.trace == s.trace + [c] + [r];
        InvokedMore(s.trace, c, t);
        InvokedMore(s.trace + [c], r, t);
      }
    }
  }

  lemma CallInvokes(device: seq<Data>, s: State, a: Action, t: nat)
    requires Shape(s) && Linear(device, s) && a.Call? && t < |s.pcs|
    ensures Invoked(Do(s, a).trace, t) == Invoked(s.trace, t) +
      if a.t == t && SessionOf(s.trace, t).Ready? && ReqOk(a.r, |device|) then [a.r] else []
  {
    assert SessionOf(s.trace, t) == SessionAt(s.pcs[t]);
    assert |device| == |s.device|;
    hide Linear, Represents, Legal, Replay, SessionOf, Invoked, Shape;
    InvokedMore(s.trace, Invoke(a.t, a.r), t);
  }

  lemma {:induction false} InvokedAreCalls(device: seq<Data>, n: nat, run: seq<Action>, t: nat)
    requires t < n
    ensures Invoked(After(device, n, run).trace, t) == Calls(device, n, run, t)
  {
    if run != [] {
      var past, a := run[..|run| - 1], run[|run| - 1];
      var s := After(device, n, past);
      InvokedAreCalls(device, n, past, t);
      AlwaysLinear(device, n, past);
      if a.Call? {
        CallInvokes(device, s, a, t);
      } else if a.t < n {
        StepInvokes(s, a.t, t);
      }
    }
  }

  /** Linearizability: for every device, any number of threads and every run, the trace
      contains the calls that the threads make, the commits form a legal history of the plain
      disk, each thread's events are calls with exactly one commit each between invocation and
      return, and the cache stands for the disk those commits produce. */
  lemma Linearizable(device: seq<Data>, n: nat, run: seq<Action>)
    ensures var s := After(device, n, run);
      && Legal(device, s.trace)
      && (forall t :: 0 <= t < |s.pcs| ==> !SessionOf(s.trace, t).Broken?)
      && (forall t :: 0 <= t < |s.pcs| ==> Invoked(s.trace, t) == Calls(device, n, run, t))
      && Represents(s, Replay(device, s.trace))
  {
    var s := After(device, n, run);
    AlwaysLinear(device, n, run);
    AlwaysInv(device, n, run);
    forall t | 0 <= t < |s.pcs| ensures !SessionOf(s.trace, t).Broken? {
      assert Own(s, t);
      assert SessionOf(s.trace, t) == SessionAt(s.pcs[t]);
    }
    forall t | 0 <= t < |s.pcs| ensures Invoked(s.trace, t) == Calls(device, n, run, t) {
      InvokedAreCalls(device, n, run, t);
    }
  }
}
