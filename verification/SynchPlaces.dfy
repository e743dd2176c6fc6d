/** Every thread that has not exited is in exactly one place: on the processor, once
    on the ready list, or once on one semaphore's wait list. */
module SynchPlaces {
  import L = Lists
  import opened Storage
  import opened Synch

  /** Thread `t` sleeps in sema_down on semaphore `k`. */
  ghost predicate Sleeps(s: State, t: nat, k: nat)
    requires t < |s.threads|
  {
    s.threads[t].status == Blocked && s.threads[t].pc.Want? && s.threads[t].pc.s == k && !s.threads[t].pc.woken
  }

  /** A blocked thread is on the wait list of the semaphore it wants, a ready one on the
      ready list. */
  ghost predicate Listed(s: State, t: nat)
    requires Shape(s) && t < |s.threads|
  {
    && (s.threads[t].status == Ready ==> t in s.ready)
    && (s.threads[t].status == Blocked ==>
          s.threads[t].pc.Want? && s.threads[t].pc.s < |s.semas| && t in s.semas[s.threads[t].pc.s].waiters)
  }

  ghost predicate WaitersOk(s: State, k: nat)
    requires Shape(s) && k < |s.semas|
  {
    && L.NoDup(s.semas[k].waiters)
    && (forall i :: 0 <= i < |s.semas[k].waiters| ==>
          s.semas[k].waiters[i] < |s.threads| && Sleeps(s, s.semas[k].waiters[i], k))
  }

  ghost predicate ReadyOk(s: State) {
    && L.NoDup(s.ready)
    && (forall i :: 0 <= i < |s.ready| ==> s.ready[i] < |s.threads| && s.threads[s.ready[i]].status == Ready)
  }

  ghost predicate Lists(s: State) {
    && Shape(s) && ReadyOk(s)
    && (forall k :: 0 <= k < |s.semas| ==> WaitersOk(s, k))
    && (forall t :: 0 <= t < |s.threads| ==> Listed(s, t))
  }

  /** The running thread is the one the processor runs. */
  ghost predicate Cpu(s: State) {
    forall t :: 0 <= t < |s.threads| ==> (s.threads[t].status == Running <==> s.current == Some(t))
  }

  ghost predicate NoneRuns(s: State) {
    forall t :: 0 <= t < |s.threads| ==> s.threads[t].status != Running
  }

  ghost predicate Placed(s: State) {
    Lists(s) && Cpu(s)
  }

  // ---------- Shape ----------

  lemma {:induction false} PcGrows(pc: Pc, semas: nat, semas': nat, locks: nat, conds: nat)
    requires PcOk(pc, semas, locks, conds) && semas <= semas'
    ensures PcOk(pc, semas', locks, conds)
    decreases pc
  {
    match pc
    case Want(_, _, next) => PcGrows(next, semas, semas', locks, conds);
    case Raise(_, next) => PcGrows(next, semas, semas', locks, conds);
    case Clear(_, next) => PcGrows(next, semas, semas', locks, conds);
    case _ =>
  }

  lemma StepShape(s: State, t: nat)
    requires Shape(s) && t < |s.threads|
    ensures Shape(Step(s, t))
  {
    var pc := s.threads[t].pc;
    assert PcOk(pc, |s.semas|, |s.holders|, |s.conds|);
    match pc
    case Want(k, _, next) => DownShape(s, t, k, next);
    case Raise(k, next) => UpShape(s.SetPc(t, next), k);
    case Broadcast(c) => SignalShape(s, t, c, Broadcast(c));
    case _ =>
  }

  lemma BlockShape(s: State, t: nat)
    requires Shape(s) && t < |s.threads|
    ensures Shape(Block(s, t))
  {
    hide PcOk;
  }

  lemma SetsShape(s: State, t: nat, k: nat, x: Sema, pc: Pc)
    requires Shape(s) && t < |s.threads| && k < |s.semas| && PcOk(pc, |s.semas|, |s.holders|, |s.conds|)
    requires Below(x.waiters, |s.threads|)
    ensures Shape(s.SetSema(k, x).SetPc(t, pc))
  {
    hide PcOk;
  }

  lemma DownShape(s: State, t: nat, k: nat, next: Pc)
    requires Shape(s) && t < |s.threads| && k < |s.semas| && PcOk(next, |s.semas|, |s.holders|, |s.conds|)
    ensures Shape(DownRound(s, t, k, next))
  {
    var x := s.semas[k];
    if x.value == 0 {
      var y := x.(waiters := x.waiters + [t]);
      SetsShape(s, t, k, y, Want(k, false, next));
      BlockShape(s.SetSema(k, y).SetPc(t, Want(k, false, next)), t);
    } else {
      SetsShape(s, t, k, x.(value := x.value - 1, downs := x.downs + 1), next);
    }
  }

  lemma UpShape(s: State, k: nat)
    requires Shape(s) && k < |s.semas|
    ensures Shape(UpSema(s, k))
  {
    if s.semas[k].waiters != [] {
      var w := s.semas[k].waiters[0];
      assert PcOk(s.threads[w].pc, |s.semas|, |s.holders|, |s.conds|);
    }
  }

  lemma SignalShape(s: State, t: nat, c: nat, next: Pc)
    requires Shape(s) && t < |s.threads| && c < |s.conds| && PcOk(next, |s.semas|, |s.holders|, |s.conds|)
    ensures Shape(Signal(s, t, c, next))
  {
  }

  lemma GrownShape(s: State, x: Sema)
    requires Shape(s) && Below(x.waiters, |s.threads|)
    ensures Shape(s.(semas := s.semas + [x]))
  {
    forall t | 0 <= t < |s.threads| ensures PcOk(s.threads[t].pc, |s.semas| + 1, |s.holders|, |s.conds|) {
      PcGrows(s.threads[t].pc, |s.semas|, |s.semas| + 1, |s.holders|, |s.conds|);
    }
  }

  lemma WaitShape(s: State, t: nat, c: nat)
    requires Shape(s) && t < |s.threads| && c < |s.conds|
    ensures Shape(Wait(s, t, c))
  {
    var x := Sema(0, [], true, 0, 0, 0);
    GrownShape(s, x);
    var s1 := s.(semas := s.semas + [x]);
    assert Below(s.conds[c].waiters + [|s.semas|], |s1.semas|);
    assert Shape(s1.(conds := s.conds[c := s.conds[c].(waiters := s.conds[c].waiters + [|s.semas|])]));
    var l := s.conds[c].lock;
    var sleep := Want(|s.semas|, false, Want(l, false, Take(l)));
    assert PcOk(sleep, |s1.semas|, |s.holders|, |s.conds|);
    assert PcOk(Clear(l, Raise(l, sleep)), |s1.semas|, |s.holders|, |s.conds|);
  }

  lemma CallShape(s: State, t: nat, call: Call)
    requires Shape(s) && t < |s.threads| && MayCall(s, t, call)
    ensures Shape(DoCall(s, t, call))
  {
    match call
    case CondWait(c) => WaitShape(s, t, c);
    case CondSignal(c) => SignalShape(s, t, c, Run);
    case Create => CreateShape(s);
    case Release(l) => assert PcOk(Raise(l, Run), |s.semas|, |s.holders|, |s.conds|);
    case _ =>
  }

  lemma CreateShape(s: State)
    requires Shape(s)
    ensures Shape(s.(threads := s.threads + [Thread(Ready, Run)], ready := s.ready + [|s.threads|]))
  {
    forall k | 0 <= k < |s.semas| ensures Below(s.semas[k].waiters, |s.threads| + 1) {
      assert Below(s.semas[k].waiters, |s.threads|);
    }
  }

  lemma DoShape(s: State, a: Action)
    requires Shape(s)
    ensures Shape(Do(s, a))
  {
    match a
    case Go => if s.current.Some? { StepShape(s, s.current.value); }
    case Begin(call) =>
      if s.current.Some? && s.threads[s.current.value].pc.Run? && MayCall(s, s.current.value, call) {
        CallShape(s, s.current.value, call);
      }
    case IrqUp(k) => if Public(s, k) { UpShape(s, k); }
    case NewSema(v) => GrownShape(s, Sema(v, [], false, v, 0, 0));
    case _ =>
  }

  // ---------- Primitives ----------

  lemma ScheduleLists(s: State)
    requires Lists(s) && NoneRuns(s)
    ensures Placed(Schedule(s))
  {
    var s' := Schedule(s);
    forall k | 0 <= k < |s'.semas| ensures Below(s'.semas[k].waiters, |s'.threads|) && (Shape(s') ==> WaitersOk(s', k)) {
      assert WaitersOk(s, k);
    }
    forall t | 0 <= t < |s'.threads| && Shape(s') ensures Listed(s', t) {
      assert Listed(s, t);
    }
  }

  /** Changes that leave the lists alone and keep the running thread running. */
  lemma SameLists(s: State, s': State)
    requires Placed(s) && Shape(s')
    requires s'.ready == s.ready && s'.current == s.current && |s'.threads| == |s.threads|
    requires forall u :: 0 <= u < |s.threads| ==>
      s'.threads[u] == s.threads[u] || (s.threads[u].status == Running && s'.threads[u].status == Running)
    requires |s.semas| <= |s'.semas|
    requires forall k :: 0 <= k < |s.semas| ==> s'.semas[k].waiters == s.semas[k].waiters
    requires forall k :: |s.semas| <= k < |s'.semas| ==> s'.semas[k].waiters == []
    ensures Placed(s')
  {
    forall k | 0 <= k < |s'.semas| ensures WaitersOk(s', k) {
      if k < |s.semas| {
        assert WaitersOk(s, k);
        forall i | 0 <= i < |s.semas[k].waiters| ensures Sleeps(s', s'.semas[k].waiters[i], k) {
          assert Sleeps(s, s.semas[k].waiters[i], k);
        }
      }
    }
    forall t | 0 <= t < |s'.threads| ensures Listed(s', t) {
      assert Listed(s, t);
    }
  }

  /** The running thread goes to sleep on semaphore `k`. */
  function Asleep(s: State, t: nat, k: nat, next: Pc): State
    requires t < |s.threads| && k < |s.semas|
  {
    s.(semas := s.semas[k := s.semas[k].(waiters := s.semas[k].waiters + [t])],
       threads := s.threads[t := Thread(Blocked, Want(k, false, next))])
  }

  lemma SleepLists(s: State, t: nat, k: nat, next: Pc)
    requires Placed(s) && s.current == Some(t) && k < |s.semas| && Shape(Asleep(s, t, k, next))
    ensures Lists(Asleep(s, t, k, next)) && NoneRuns(Asleep(s, t, k, next))
  {
    var s' := Asleep(s, t, k, next);
    assert s.threads[t].status == Running;
    forall j | 0 <= j < |s'.semas| ensures WaitersOk(s', j) {
      SleepWaiters(s, t, k, next, j);
    }
    forall u | 0 <= u < |s'.threads| ensures Listed(s', u) {
      assert Listed(s, u);
      if u == t { assert s'.semas[k].waiters[|s.semas[k].waiters|] == t; }
      if u != t && s.threads[u].status == Blocked {
        var m := s.threads[u].pc.s;
        var i :| 0 <= i < |s.semas[m].waiters| && s.semas[m].waiters[i] == u;
        assert s'.semas[m].waiters[i] == u;
      }
    }
  }

  lemma SleepWaiters(s: State, t: nat, k: nat, next: Pc, j: nat)
    requires Placed(s) && t < |s.threads| && s.threads[t].status == Running && k < |s.semas| && j < |s.semas|
    requires Shape(Asleep(s, t, k, next))
    ensures WaitersOk(Asleep(s, t, k, next), j)
  {
    var s' := Asleep(s, t, k, next);
    assert WaitersOk(s, j);
    var xs, ys := s.semas[j].waiters, s'.semas[j].waiters;
    forall i | 0 <= i < |xs| ensures xs[i] != t && Sleeps(s', xs[i], j) {
      assert Sleeps(s, xs[i], j);
    }
    assert ys == if j == k then xs + [t] else xs;
  }

  /** The running thread goes to the back of the ready list. */
  lemma YieldLists(s: State, t: nat)
    requires Placed(s) && s.current == Some(t)
    ensures var s' := s.(threads := s.threads[t := s.threads[t].(status := Ready)], ready := s.ready + [t]);
      Lists(s') && NoneRuns(s')
  {
    var s' := s.(threads := s.threads[t := s.threads[t].(status := Ready)], ready := s.ready + [t]);
    assert s.threads[t].status == Running;
    OthersSleep(s, s', t);
    forall u | 0 <= u < |s'.threads| ensures Listed(s', u) {
      assert Listed(s, u);
      if u == t { assert s'.ready[|s.ready|] == t; } else if u in s.ready { assert u in s'.ready; }
    }
  }

  /** A change of a thread that is on no wait list leaves the wait lists in order. */
  lemma OthersSleep(s: State, s': State, t: nat)
    requires Lists(s) && Shape(s') && t < |s.threads| <= |s'.threads| && s.threads[t].status != Blocked
    requires s'.semas == s.semas && forall u :: 0 <= u < |s.threads| && u != t ==> s'.threads[u] == s.threads[u]
    ensures forall k :: 0 <= k < |s'.semas| ==> WaitersOk(s', k)
  {
    forall k | 0 <= k < |s'.semas| ensures WaitersOk(s', k) {
      assert WaitersOk(s, k);
      forall i | 0 <= i < |s.semas[k].waiters| ensures Sleeps(s', s.semas[k].waiters[i], k) {
        assert Sleeps(s, s.semas[k].waiters[i], k);
      }
    }
  }

  lemma ExitLists(s: State, t: nat)
    requires Placed(s) && s.current == Some(t)
    ensures var s' := s.(threads := s.threads[t := s.threads[t].(status := Dying)]);
      Lists(s') && NoneRuns(s')
  {
    var s' := s.(threads := s.threads[t := s.threads[t].(status := Dying)]);
    assert s.threads[t].status == Running;
    OthersSleep(s, s', t);
    forall u | 0 <= u < |s'.threads| ensures Listed(s', u) {
      assert Listed(s, u);
    }
  }

  lemma CreateLists(s: State)
    requires Placed(s)
    ensures Placed(s.(threads := s.threads + [Thread(Ready, Run)], ready := s.ready + [|s.threads|]))
  {
    var s' := s.(threads := s.threads + [Thread(Ready, Run)], ready := s.ready + [|s.threads|]);
    CreateShape(s);
    forall k | 0 <= k < |s'.semas| ensures WaitersOk(s', k) {
      assert WaitersOk(s, k);
      forall i | 0 <= i < |s.semas[k].waiters| ensures Sleeps(s', s.semas[k].waiters[i], k) {
        assert Sleeps(s, s.semas[k].waiters[i], k);
      }
    }
    forall u | 0 <= u < |s'.threads| ensures Listed(s', u) {
      if u < |s.threads| {
        assert Listed(s, u);
        if u in s.ready { assert u in s'.ready; }
      } else {
        assert s'.ready[|s.ready|] == u;
      }
    }
  }

  /** sema_up keeps every thread in one place. */
  lemma UpLists(s: State, k: nat)
    requires Placed(s) && k < |s.semas|
    ensures Placed(UpSema(s, k))
  {
    var s' := UpSema(s, k);
    UpShape(s, k);
    if s.semas[k].waiters == [] {
      SameLists(s, s');
    } else {
      var w := s.semas[k].waiters[0];
      assert WaitersOk(s, k) && Sleeps(s, w, k);
      forall j | 0 <= j < |s'.semas| ensures WaitersOk(s', j) {
        WakeWaiters(s, k, j);
      }
      forall u | 0 <= u < |s'.threads| ensures Listed(s', u) {
        WakeListed(s, k, u);
      }
    }
  }

  lemma WakeWaiters(s: State, k: nat, j: nat)
    requires Placed(s) && k < |s.semas| && j < |s.semas| && s.semas[k].waiters != [] && Shape(UpSema(s, k))
    ensures WaitersOk(UpSema(s, k), j)
  {
    var s', w := UpSema(s, k), s.semas[k].waiters[0];
    assert WaitersOk(s, k) && WaitersOk(s, j) && Sleeps(s, w, k);
    var xs, ys := s.semas[j].waiters, s'.semas[j].waiters;
    assert ys == if j == k then xs[1..] else xs;
    forall i | 0 <= i < |ys| ensures Sleeps(s', ys[i], j) {
      assert Sleeps(s, ys[i], j) by { assert ys[i] == xs[if j == k then i + 1 else i]; }
      assert ys[i] != w;
    }
  }

  lemma WakeListed(s: State, k: nat, u: nat)
    requires Placed(s) && k < |s.semas| && s.semas[k].waiters != [] && Shape(UpSema(s, k)) && u < |s.threads|
    ensures Listed(UpSema(s, k), u)
  {
    var s', w := UpSema(s, k), s.semas[k].waiters[0];
    assert WaitersOk(s, k) && Sleeps(s, w, k) && Listed(s, u);
    assert s'.ready == s.ready + [w];
    if u == w {
      assert s'.ready[|s.ready|] == w;
    } else if s.threads[u].status == Blocked && s.threads[u].pc.s == k {
      var i :| 0 <= i < |s.semas[k].waiters| && s.semas[k].waiters[i] == u;
      assert s'.semas[k].waiters[i - 1] == u;
    }
  }

  // ---------- Every action ----------

  lemma DownPlaced(s: State, t: nat, k: nat, next: Pc)
    requires Placed(s) && s.current == Some(t) && k < |s.semas| && PcOk(next, |s.semas|, |s.holders|, |s.conds|)
    ensures Placed(DownRound(s, t, k, next))
  {
    DownShape(s, t, k, next);
    if s.semas[k].value == 0 {
      DownSleeps(s, t, k, next);
      AsleepShape(s, t, k, next);
      SleepLists(s, t, k, next);
      ScheduleLists(Asleep(s, t, k, next));
    } else {
      SameLists(s, DownRound(s, t, k, next));
    }
  }

  lemma DownSleeps(s: State, t: nat, k: nat, next: Pc)
    requires Shape(s) && t < |s.threads| && k < |s.semas| && s.semas[k].value == 0
    ensures DownRound(s, t, k, next) == Schedule(Asleep(s, t, k, next))
  {
    hide PcOk;
    var s1 := s.SetSema(k, s.semas[k].(waiters := s.semas[k].waiters + [t])).SetPc(t, Want(k, false, next));
    assert s1.(threads := s1.threads[t := s1.threads[t].(status := Blocked)]) == Asleep(s, t, k, next);
  }

  lemma AsleepShape(s: State, t: nat, k: nat, next: Pc)
    requires Shape(s) && t < |s.threads| && k < |s.semas| && PcOk(next, |s.semas|, |s.holders|, |s.conds|)
    ensures Shape(Asleep(s, t, k, next))
  {
  }

  lemma StepPlaced(s: State, t: nat)
    requires Placed(s) && s.current == Some(t)
    ensures Placed(Step(s, t))
  {
    var pc := s.threads[t].pc;
    assert PcOk(pc, |s.semas|, |s.holders|, |s.conds|) && s.threads[t].status == Running;
    StepShape(s, t);
    match pc
    case Want(k, _, next) => DownPlaced(s, t, k, next);
    case Raise(k, next) =>
      SameLists(s, s.SetPc(t, next));
      UpLists(s.SetPc(t, next), k);
    case _ => SameLists(s, Step(s, t));
  }

  lemma CallPlaced(s: State, t: nat, call: Call)
    requires Placed(s) && s.current == Some(t) && MayCall(s, t, call)
    ensures Placed(DoCall(s, t, call))
  {
    CallShape(s, t, call);
    assert s.threads[t].status == Running;
    match call
    case Create => CreateLists(s);
    case Exit =>
      ExitLists(s, t);
      ScheduleLists(s.(threads := s.threads[t := s.threads[t].(status := Dying)]));
    case _ => SameLists(s, DoCall(s, t, call));
  }

  lemma DoPlaced(s: State, a: Action)
    requires Placed(s)
    ensures Placed(Do(s, a))
  {
    DoShape(s, a);
    match a
    case Go => if s.current.Some? { StepPlaced(s, s.current.value); }
    case Begin(call) =>
      if s.current.Some? && s.threads[s.current.value].pc.Run? && MayCall(s, s.current.value, call) {
        CallPlaced(s, s.current.value, call);
      }
    case Preempt =>
      if s.current.Some? {
        var t := s.current.value;
        YieldLists(s, t);
        ScheduleLists(s.(threads := s.threads[t := s.threads[t].(status := Ready)], ready := s.ready + [t]));
      }
    case IrqUp(k) => if Public(s, k) { UpLists(s, k); }
    case Resume => if s.current.None? { ScheduleLists(s); }
    case NewSema(_) => SameLists(s, Do(s, a));
  }

  ghost predicate Starts(locks: nat, condLocks: seq<nat>) {
    Below(condLocks, locks)
  }

  lemma {:induction false} AlwaysPlaced(locks: nat, condLocks: seq<nat>, run: seq<Action>)
    requires Starts(locks, condLocks)
    ensures Placed(After(locks, condLocks, run))
  {
    if run != [] {
      AlwaysPlaced(locks, condLocks, run[..|run| - 1]);
      DoPlaced(After(locks, condLocks, run[..|run| - 1]), run[|run| - 1]);
    }
  }

  /** Where a thread can be. */
  datatype Place = OnCpu | InReady(i: nat) | InWait(k: nat, i: nat)

  ghost predicate At(s: State, t: nat, p: Place) {
    match p
    case OnCpu => s.current == Some(t)
    case InReady(i) => i < |s.ready| && s.ready[i] == t
    case InWait(k, i) => k < |s.semas| && i < |s.semas[k].waiters| && s.semas[k].waiters[i] == t
  }

  lemma PlaceMeansStatus(s: State, t: nat, p: Place)
    requires Placed(s) && t < |s.threads| && At(s, t, p)
    ensures match p
      case OnCpu => s.threads[t].status == Running
      case InReady(_) => s.threads[t].status == Ready
      case InWait(k, _) => s.threads[t].status == Blocked && s.threads[t].pc.Want? && s.threads[t].pc.s == k
  {
    if p.InWait? {
      assert WaitersOk(s, p.k);
      assert Sleeps(s, s.semas[p.k].waiters[p.i], p.k);
    }
  }

  lemma SomePlace(s: State, t: nat) returns (p: Place)
    requires Placed(s) && t < |s.threads| && s.threads[t].status != Dying
    ensures At(s, t, p)
  {
    assert Listed(s, t);
    match s.threads[t].status
    case Running => p := OnCpu;
    case Ready =>
      var i :| 0 <= i < |s.ready| && s.ready[i] == t;
      p := InReady(i);
    case Blocked =>
      var k := s.threads[t].pc.s;
      var i :| 0 <= i < |s.semas[k].waiters| && s.semas[k].waiters[i] == t;
      p := InWait(k, i);
  }

  /** In every run, a thread that has not exited is in exactly one place and one that
      has is in none; so `elem` may serve the ready list and the wait lists. */
  lemma ExactlyOnePlace(locks: nat, condLocks: seq<nat>, run: seq<Action>, t: nat)
    requires Starts(locks, condLocks) && t < |After(locks, condLocks, run).threads|
    ensures var s := After(locks, condLocks, run);
      && (s.threads[t].status != Dying <==> exists p :: At(s, t, p))
      && (forall p, q :: At(s, t, p) && At(s, t, q) ==> p == q)
  {
    var s := After(locks, condLocks, run);
    AlwaysPlaced(locks, condLocks, run);
    forall p | At(s, t, p) ensures s.threads[t].status != Dying {
      PlaceMeansStatus(s, t, p);
    }
    forall p, q | At(s, t, p) && At(s, t, q) ensures p == q {
      PlaceMeansStatus(s, t, p);
      PlaceMeansStatus(s, t, q);
      if p.InWait? { assert WaitersOk(s, p.k); }
    }
    if s.threads[t].status != Dying {
      var p := SomePlace(s, t);
    }
  }
}
