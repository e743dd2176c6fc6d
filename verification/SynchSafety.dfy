/** What every run of the synchronisation machine keeps: semaphore accounting, no lost
    wakeups, mutual exclusion by locks, and no wakeup from a condition without a signal. */
module SynchSafety {
  import opened Storage
  import opened Counting
  import opened Synch
  import opened SynchPlaces

  // ---------- Program points ----------

  /** The shapes that the operations give to a thread's program point: a lock's semaphore
      is lowered only to take the lock and raised only to give it up. */
  predicate Form(pc: Pc, locks: nat)
    decreases pc
  {
    match pc
    case Run => true
    case Want(k, _, next) =>
      if k < locks then next == Take(k)
      else next == Run || (next.Want? && next.s < locks && next == Want(next.s, false, Take(next.s)))
    case Raise(k, next) =>
      if k < locks then
        next == Run || (next.Want? && next.s >= locks && !next.woken && next.next == Want(k, false, Take(k)))
      else next == Run || next.Broadcast?
    case Take(l) => l < locks
    case Clear(l, next) => l < locks && next.Raise? && next.s == l && Form(next, locks)
    case Broadcast(_) => true
  }

  /** How a thread's program point and the holder fields agree. */
  ghost predicate HolderOk(s: State, t: nat)
    requires Shape(s) && t < |s.threads|
  {
    var pc := s.threads[t].pc;
    && Form(pc, |s.holders|)
    && (pc.Take? ==> s.holders[pc.l] != Some(t))
    && (pc.Clear? ==> s.holders[pc.l] == Some(t))
    && (pc.Raise? && pc.s < |s.holders| ==> s.holders[pc.s] != Some(t))
    && (pc.Want? && pc.s < |s.holders| ==> s.holders[pc.s] != Some(t))
    && (pc.Want? && pc.s >= |s.holders| && pc.next.Want? ==> s.holders[pc.next.s] != Some(t))
    && (pc.Broadcast? ==> HoldsCond(s, t, pc.c))
    && (pc.Raise? && pc.next.Broadcast? ==> HoldsCond(s, t, pc.next.c))
  }

  ghost predicate HoldersOk(s: State) {
    && Shape(s)
    && (forall t :: 0 <= t < |s.threads| ==> HolderOk(s, t))
    && (forall l :: 0 <= l < |s.holders| && s.holders[l].Some? ==> s.holders[l].value < |s.threads|)
  }

  // ---------- Semaphore accounting ----------

  /** The value is the initial value plus the ups minus the completed downs. */
  ghost predicate Balanced(x: Sema) {
    x.value + x.downs == x.init + x.ups
  }

  ghost predicate Books(s: State) {
    forall k :: 0 <= k < |s.semas| ==> Balanced(s.semas[k])
  }

  lemma DoBooks(s: State, a: Action)
    requires Shape(s) && Books(s)
    ensures Books(Do(s, a))
  {
    match a
    case Go => if s.current.Some? { StepBooks(s, s.current.value); }
    case _ =>
  }

  lemma StepBooks(s: State, t: nat)
    requires Shape(s) && Books(s) && t < |s.threads|
    ensures Books(Step(s, t))
  {
    assert PcOk(s.threads[t].pc, |s.semas|, |s.holders|, |s.conds|);
  }

  // ---------- Holders ----------

  /** Only thread `t` and the holder fields it owns have changed. */
  lemma OneHolder(s: State, s': State, t: nat)
    requires HoldersOk(s) && Shape(s') && t < |s.threads| == |s'.threads| && |s'.holders| == |s.holders|
    requires forall u :: 0 <= u < |s.threads| && u != t ==> s'.threads[u].pc == s.threads[u].pc
    requires forall l :: 0 <= l < |s.holders| ==>
      s'.holders[l] == s.holders[l] || s'.holders[l] == Some(t) || (s.holders[l] == Some(t) && s'.holders[l].None?)
    requires forall l, u :: 0 <= l < |s.holders| && u != t && s.holders[l] == Some(u) ==> s'.holders[l] == Some(u)
    requires |s'.conds| == |s.conds| && forall c :: 0 <= c < |s.conds| ==> s'.conds[c].lock == s.conds[c].lock
    requires HolderOk(s', t)
    ensures HoldersOk(s')
  {
    forall u | 0 <= u < |s'.threads| ensures HolderOk(s', u) {
      assert HolderOk(s, u);
    }
  }

  lemma WokenForm(s: State, k: nat)
    requires HoldersOk(s) && k < |s.semas| && Shape(UpSema(s, k))
    ensures HoldersOk(UpSema(s, k))
  {
    var s' := UpSema(s, k);
    forall u | 0 <= u < |s'.threads| ensures HolderOk(s', u) {
      assert HolderOk(s, u);
    }
  }

  // ---------- Locks ----------

  /** Thread `t` is between the completed sema_down of lock `l` and its sema_up. */
  ghost predicate Owns(s: State, t: nat, l: nat)
    requires t < |s.threads| && l < |s.holders|
  {
    || s.holders[l] == Some(t)
    || s.threads[t].pc == Take(l)
    || (s.threads[t].pc.Raise? && s.threads[t].pc.s == l)
  }

  ghost function OwnFlags(s: State, l: nat): seq<bool>
    requires l < |s.holders|
  {
    seq(|s.threads|, t requires 0 <= t < |s.threads| => Owns(s, t, l))
  }

  /** A lock's unit is either in its semaphore or with exactly one thread. */
  ghost predicate LockOk(s: State, l: nat)
    requires Shape(s) && l < |s.holders|
  {
    s.semas[l].value + Count(OwnFlags(s, l)) == 1
  }

  ghost predicate Locks(s: State) {
    Shape(s) && forall l :: 0 <= l < |s.holders| ==> LockOk(s, l)
  }

  lemma OneOwner(s: State, l: nat, t: nat, u: nat)
    requires Locks(s) && l < |s.holders| && t < |s.threads| && u < |s.threads| && Owns(s, t, l) && Owns(s, u, l)
    ensures t == u
  {
    assert LockOk(s, l);
    var b := OwnFlags(s, l);
    assert b[t] && b[u];
    if t < u { CountTwo(b, t, u); } else if u < t { CountTwo(b, u, t); }
  }

  /** Only thread `t` gives or takes units of locks, and each unit is accounted for. */
  lemma LockBy(s: State, s': State, t: nat, l: nat)
    requires Shape(s) && Shape(s') && t < |s.threads| == |s'.threads| && |s'.holders| == |s.holders|
    requires l < |s.holders| && LockOk(s, l)
    requires forall u :: 0 <= u < |s.threads| && u != t ==> Owns(s', u, l) == Owns(s, u, l)
    requires s'.semas[l].value + Bit(Owns(s', t, l)) == s.semas[l].value + Bit(Owns(s, t, l))
    ensures LockOk(s', l)
  {
    assert OwnFlags(s', l) == OwnFlags(s, l)[t := Owns(s', t, l)];
    CountUpdate(OwnFlags(s, l), t, Owns(s', t, l));
  }

  /** Nothing about lock `l` has changed. */
  lemma LockSame(s: State, s': State, l: nat)
    requires Shape(s) && Shape(s') && |s.threads| == |s'.threads| && |s'.holders| == |s.holders|
    requires l < |s.holders| && LockOk(s, l) && s'.semas[l].value == s.semas[l].value
    requires forall u :: 0 <= u < |s.threads| ==> Owns(s', u, l) == Owns(s, u, l)
    ensures LockOk(s', l)
  {
    assert OwnFlags(s', l) == OwnFlags(s, l);
  }

  lemma LockCreate(s: State, s': State, l: nat)
    requires Shape(s) && Shape(s') && s'.threads == s.threads + [Thread(Ready, Run)] && s'.holders == s.holders
    requires HoldersOk(s) && l < |s.holders| && LockOk(s, l) && s'.semas == s.semas
    ensures LockOk(s', l)
  {
    assert !Owns(s', |s.threads|, l);
    assert OwnFlags(s', l) == OwnFlags(s, l) + [false];
  }

  // ---------- Wakeups ----------

  ghost predicate Woken(pc: Pc, k: nat) {
    pc.Want? && pc.s == k && pc.woken
  }

  ghost function WokenFlags(s: State, k: nat): seq<bool> {
    seq(|s.threads|, t requires 0 <= t < |s.threads| => Woken(s.threads[t].pc, k))
  }

  /** If threads sleep on a semaphore with a positive value, then for each of its units a
      thread has been woken and is on its way to take it. */
  ghost predicate WakeOk(s: State, k: nat)
    requires k < |s.semas|
  {
    s.semas[k].waiters != [] ==> s.semas[k].value <= Count(WokenFlags(s, k))
  }

  ghost predicate Wakeups(s: State) {
    forall k :: 0 <= k < |s.semas| ==> WakeOk(s, k)
  }

  lemma WakeBy(s: State, s': State, t: nat, k: nat)
    requires t < |s.threads| == |s'.threads| && k < |s.semas| && k < |s'.semas|
    requires forall u :: 0 <= u < |s.threads| && u != t ==> Woken(s'.threads[u].pc, k) == Woken(s.threads[u].pc, k)
    ensures Count(WokenFlags(s', k)) ==
      Count(WokenFlags(s, k)) - Bit(Woken(s.threads[t].pc, k)) + Bit(Woken(s'.threads[t].pc, k))
  {
    assert WokenFlags(s', k) == WokenFlags(s, k)[t := Woken(s'.threads[t].pc, k)];
    CountUpdate(WokenFlags(s, k), t, Woken(s'.threads[t].pc, k));
  }

  lemma WakeSame(s: State, s': State, k: nat)
    requires |s.threads| == |s'.threads|
    requires forall u :: 0 <= u < |s.threads| ==> Woken(s'.threads[u].pc, k) == Woken(s.threads[u].pc, k)
    ensures WokenFlags(s', k) == WokenFlags(s, k)
  {
  }

  // ---------- Conditions ----------

  /** A semaphore queued on a condition has never been raised and nobody is about to. */
  ghost predicate Unsignalled(s: State, w: nat)
    requires w < |s.semas|
  {
    && w >= |s.holders| && s.semas[w].private && s.semas[w].ups == 0 && s.semas[w].init == 0
    && (forall t :: 0 <= t < |s.threads| ==> !(s.threads[t].pc.Raise? && s.threads[t].pc.s == w))
  }

  ghost predicate CondOk(s: State, c: nat)
    requires Shape(s) && c < |s.conds|
  {
    forall i :: 0 <= i < |s.conds[c].waiters| ==>
      s.conds[c].waiters[i] < |s.semas| && Unsignalled(s, s.conds[c].waiters[i])
  }

  /** No semaphore is queued twice. */
  ghost predicate CondsDistinct(s: State) {
    forall c, i, d, j :: Queued(s, c, i) && Queued(s, d, j) && (c != d || i != j) ==>
      s.conds[c].waiters[i] != s.conds[d].waiters[j]
  }

  ghost predicate Queued(s: State, c: int, i: int) {
    0 <= c < |s.conds| && 0 <= i < |s.conds[c].waiters|
  }

  ghost predicate Conds(s: State) {
    Shape(s) && CondsDistinct(s) && forall c :: 0 <= c < |s.conds| ==> CondOk(s, c)
  }

  // ---------- The invariant ----------

  ghost predicate Inv(s: State) {
    HoldersOk(s) && Locks(s) && Wakeups(s) && Conds(s)
  }

  /** A step of thread `t` that moves its program point, may take units and set or clear
      holder fields, and leaves all lists alone. */
  ghost predicate Quiet(s: State, s': State, t: nat) {
    && Shape(s) && Shape(s') && t < |s.threads| == |s'.threads|
    && |s'.semas| == |s.semas| && |s'.holders| == |s.holders| && s'.conds == s.conds
    && (forall u :: 0 <= u < |s.threads| && u != t ==> s'.threads[u].pc == s.threads[u].pc)
    && (forall k :: 0 <= k < |s.semas| ==> SemaQuiet(s, s', t, k))
    && (s'.threads[t].pc.Raise? ==> s'.threads[t].pc.s < |s.holders| || !s.semas[s'.threads[t].pc.s].private)
    && HolderOk(s', t)
  }

  /** Units only leave; a woken thread leaves its loop only with a unit. */
  ghost predicate SemaQuiet(s: State, s': State, t: nat, k: nat)
    requires Shape(s) && Shape(s') && t < |s.threads| == |s'.threads| && |s'.semas| == |s.semas| && k < |s.semas|
  {
    && s'.semas[k].waiters == s.semas[k].waiters && s'.semas[k].private == s.semas[k].private
    && s'.semas[k].init == s.semas[k].init && s'.semas[k].ups == s.semas[k].ups
    && s'.semas[k].value <= s.semas[k].value
    && (Woken(s.threads[t].pc, k) ==> s'.semas[k].value < s.semas[k].value || Woken(s'.threads[t].pc, k))
  }

  lemma QuietWakeups(s: State, s': State, t: nat)
    requires Quiet(s, s', t) && Wakeups(s)
    ensures Wakeups(s')
  {
    forall k | 0 <= k < |s'.semas| ensures WakeOk(s', k) {
      assert SemaQuiet(s, s', t, k) && WakeOk(s, k);
      WakeBy(s, s', t, k);
    }
  }

  lemma QuietConds(s: State, s': State, t: nat)
    requires Quiet(s, s', t) && Conds(s)
    ensures Conds(s')
  {
    forall c | 0 <= c < |s'.conds| ensures CondOk(s', c) {
      assert CondOk(s, c);
      forall i | 0 <= i < |s.conds[c].waiters| ensures Unsignalled(s', s.conds[c].waiters[i]) {
        var w := s.conds[c].waiters[i];
        assert Unsignalled(s, w) && SemaQuiet(s, s', t, w);
      }
    }
    assert forall c, i :: Queued(s', c, i) <==> Queued(s, c, i);
  }

  /** Others neither hold a lock that `t` takes nor lose one. */
  ghost predicate HoldersMove(s: State, s': State, t: nat)
    requires |s'.holders| == |s.holders|
  {
    forall l :: 0 <= l < |s.holders| ==>
      || s'.holders[l] == s.holders[l]
      || ((s.holders[l].None? || s.holders[l] == Some(t)) && (s'.holders[l].None? || s'.holders[l] == Some(t)))
  }

  lemma QuietHolders(s: State, s': State, t: nat)
    requires Quiet(s, s', t) && HoldersOk(s) && HoldersMove(s, s', t)
    ensures HoldersOk(s')
  {
    OneHolder(s, s', t);
  }

  lemma QuietLocks(s: State, s': State, t: nat)
    requires Quiet(s, s', t) && Locks(s) && HoldersMove(s, s', t)
    requires forall l :: 0 <= l < |s.holders| ==>
      s'.semas[l].value + Bit(Owns(s', t, l)) == s.semas[l].value + Bit(Owns(s, t, l))
    ensures Locks(s')
  {
    forall l | 0 <= l < |s'.holders| ensures LockOk(s', l) {
      assert LockOk(s, l);
      LockBy(s, s', t, l);
    }
  }

  lemma QuietInv(s: State, s': State, t: nat)
    requires Inv(s) && Quiet(s, s', t) && HoldersMove(s, s', t)
    requires forall l :: 0 <= l < |s.holders| ==>
      s'.semas[l].value + Bit(Owns(s', t, l)) == s.semas[l].value + Bit(Owns(s, t, l))
    ensures Inv(s')
  {
    QuietWakeups(s, s', t);
    QuietConds(s, s', t);
    QuietHolders(s, s', t);
    QuietLocks(s, s', t);
  }

  /** Only scheduling has happened. */
  lemma ScheduledInv(s: State, s': State)
    requires Inv(s) && Shape(s') && |s'.threads| == |s.threads|
    requires s'.semas == s.semas && s'.holders == s.holders && s'.conds == s.conds
    requires forall u :: 0 <= u < |s.threads| ==> s'.threads[u].pc == s.threads[u].pc
    ensures Inv(s')
  {
    forall u | 0 <= u < |s.threads| ensures HolderOk(s', u) { assert HolderOk(s, u); }
    forall l | 0 <= l < |s'.holders| ensures LockOk(s', l) {
      assert LockOk(s, l);
      LockSame(s, s', l);
    }
    forall k | 0 <= k < |s'.semas| ensures WakeOk(s', k) {
      assert WakeOk(s, k);
      WakeSame(s, s', k);
    }
    forall c | 0 <= c < |s'.conds| ensures CondOk(s', c) {
      assert CondOk(s, c);
      forall i | 0 <= i < |s.conds[c].waiters| ensures Unsignalled(s', s.conds[c].waiters[i]) {
        assert Unsignalled(s, s.conds[c].waiters[i]);
      }
    }
    assert forall c, i :: Queued(s', c, i) <==> Queued(s, c, i);
  }

  // ---------- Calls and steps that are quiet ----------

  lemma PlainCallInv(s: State, t: nat, call: Call)
    requires Inv(s) && t < |s.threads| && s.threads[t].pc.Run? && MayCall(s, t, call)
    requires call.Down? || call.TryDown? || call.Up? || call.CondBroadcast?
    ensures Inv(DoCall(s, t, call))
  {
    CallShape(s, t, call);
    QuietInv(s, DoCall(s, t, call), t);
  }

  lemma LockCallInv(s: State, t: nat, call: Call)
    requires Inv(s) && t < |s.threads| && s.threads[t].pc.Run? && MayCall(s, t, call)
    requires call.Acquire? || call.TryAcquire?
    ensures Inv(DoCall(s, t, call))
  {
    CallShape(s, t, call);
    QuietInv(s, DoCall(s, t, call), t);
  }

  lemma ReleaseInv(s: State, t: nat, l: nat)
    requires Inv(s) && t < |s.threads| && s.threads[t].pc.Run? && MayCall(s, t, Release(l))
    ensures Inv(DoCall(s, t, Release(l)))
  {
    CallShape(s, t, Release(l));
    assert Form(Raise(l, Run), |s.holders|);
    QuietInv(s, DoCall(s, t, Release(l)), t);
  }

  /** A thread gets its unit. */
  lemma GetUnitInv(s: State, t: nat, k: nat, woken: bool, next: Pc)
    requires Inv(s) && t < |s.threads| && s.threads[t].pc == Want(k, woken, next) && k < |s.semas| && s.semas[k].value > 0
    ensures Inv(DownRound(s, t, k, next))
  {
    assert HolderOk(s, t) && PcOk(s.threads[t].pc, |s.semas|, |s.holders|, |s.conds|);
    DownShape(s, t, k, next);
    QuietInv(s, DownRound(s, t, k, next), t);
  }

  lemma TakeInv(s: State, t: nat, l: nat)
    requires Inv(s) && t < |s.threads| && s.threads[t].pc == Take(l) && l < |s.holders|
    ensures Inv(Step(s, t))
  {
    assert HolderOk(s, t);
    if s.holders[l].Some? {
      OneOwner(s, l, t, s.holders[l].value);
    }
    StepShape(s, t);
    QuietInv(s, Step(s, t), t);
  }

  lemma ClearInv(s: State, t: nat, l: nat, next: Pc)
    requires Inv(s) && t < |s.threads| && s.threads[t].pc == Clear(l, next) && l < |s.holders|
    ensures Inv(Step(s, t))
  {
    assert HolderOk(s, t);
    StepShape(s, t);
    QuietInv(s, Step(s, t), t);
  }

  // ---------- Sleeping and waking ----------

  /** A thread that finds no unit goes to sleep. */
  lemma AsleepInv(s: State, t: nat, k: nat, woken: bool, next: Pc)
    requires Inv(s) && t < |s.threads| && s.threads[t].pc == Want(k, woken, next) && k < |s.semas| && s.semas[k].value == 0
    requires Shape(Asleep(s, t, k, next))
    ensures Inv(Asleep(s, t, k, next))
  {
    var s' := Asleep(s, t, k, next);
    assert HolderOk(s, t);
    forall u | 0 <= u < |s.threads| ensures HolderOk(s', u) { assert HolderOk(s, u); }
    forall l | 0 <= l < |s'.holders| ensures LockOk(s', l) {
      assert LockOk(s, l);
      LockSame(s, s', l);
    }
    forall j | 0 <= j < |s'.semas| ensures WakeOk(s', j) {
      assert WakeOk(s, j);
      if j != k { WakeSame(s, s', j); }
    }
    AsleepConds(s, t, k, woken, next);
  }

  lemma AsleepConds(s: State, t: nat, k: nat, woken: bool, next: Pc)
    requires Conds(s) && t < |s.threads| && s.threads[t].pc == Want(k, woken, next) && k < |s.semas|
    requires Shape(Asleep(s, t, k, next))
    ensures Conds(Asleep(s, t, k, next))
  {
    var s' := Asleep(s, t, k, next);
    forall c | 0 <= c < |s'.conds| ensures CondOk(s', c) {
      assert CondOk(s, c);
      forall i | 0 <= i < |s.conds[c].waiters| ensures Unsignalled(s', s.conds[c].waiters[i]) {
        assert Unsignalled(s, s.conds[c].waiters[i]);
      }
    }
    assert forall c, i :: Queued(s', c, i) <==> Queued(s, c, i);
  }

  lemma DownInv(s: State, t: nat, k: nat, woken: bool, next: Pc)
    requires Inv(s) && t < |s.threads| && s.threads[t].pc == Want(k, woken, next) && k < |s.semas|
    ensures Inv(DownRound(s, t, k, next))
  {
    assert PcOk(s.threads[t].pc, |s.semas|, |s.holders|, |s.conds|);
    if s.semas[k].value > 0 {
      GetUnitInv(s, t, k, woken, next);
    } else {
      var s1 := s.SetSema(k, s.semas[k].(waiters := s.semas[k].waiters + [t])).SetPc(t, Want(k, false, next));
      assert s1.(threads := s1.threads[t := s1.threads[t].(status := Blocked)]) == Asleep(s, t, k, next);
      AsleepShape(s, t, k, next);
      AsleepInv(s, t, k, woken, next);
      DownShape(s, t, k, next);
      ScheduledInv(Asleep(s, t, k, next), DownRound(s, t, k, next));
    }
  }

  /** No condition queue holds semaphore `k`. */
  ghost predicate NotQueued(s: State, k: nat) {
    forall c, i :: Queued(s, c, i) ==> s.conds[c].waiters[i] != k
  }

  lemma UpConds(s: State, k: nat)
    requires Conds(s) && k < |s.semas| && NotQueued(s, k) && Shape(UpSema(s, k))
    ensures Conds(UpSema(s, k))
  {
    var s' := UpSema(s, k);
    forall c | 0 <= c < |s'.conds| ensures CondOk(s', c) {
      assert CondOk(s, c);
      forall i | 0 <= i < |s.conds[c].waiters| ensures Unsignalled(s', s.conds[c].waiters[i]) {
        assert Unsignalled(s, s.conds[c].waiters[i]) && Queued(s, c, i);
      }
    }
    assert forall c, i :: Queued(s', c, i) <==> Queued(s, c, i);
  }

  lemma UpWakeups(s: State, k: nat)
    requires Placed(s) && Wakeups(s) && k < |s.semas|
    ensures Wakeups(UpSema(s, k))
  {
    var s' := UpSema(s, k);
    UpShape(s, k);
    assert WaitersOk(s, k);
    forall j | 0 <= j < |s'.semas| ensures WakeOk(s', j) {
      assert WakeOk(s, j);
      if s.semas[k].waiters != [] {
        var w := s.semas[k].waiters[0];
        assert Sleeps(s, w, k);
        WakeBy(s, s', w, j);
      } else {
        WakeSame(s, s', j);
      }
    }
  }

  lemma UpLocks(s: State, k: nat)
    requires Locks(s) && |s.holders| <= k < |s.semas| && Shape(UpSema(s, k))
    ensures Locks(UpSema(s, k))
  {
    var s' := UpSema(s, k);
    forall l | 0 <= l < |s'.holders| ensures LockOk(s', l) {
      assert LockOk(s, l);
      LockSame(s, s', l);
    }
  }

  /** sema_up on a semaphore that is not a lock's. */
  lemma UpInv(s: State, k: nat)
    requires Placed(s) && Inv(s) && |s.holders| <= k < |s.semas| && NotQueued(s, k)
    ensures Inv(UpSema(s, k))
  {
    UpShape(s, k);
    WokenForm(s, k);
    UpLocks(s, k);
    UpWakeups(s, k);
    UpConds(s, k);
  }

  lemma IrqInv(s: State, k: nat)
    requires Placed(s) && Inv(s) && Public(s, k)
    ensures Inv(UpSema(s, k))
  {
    forall c, i | Queued(s, c, i) ensures s.conds[c].waiters[i] != k {
      assert CondOk(s, c);
      assert Unsignalled(s, s.conds[c].waiters[i]);
    }
    UpInv(s, k);
  }

  lemma RaisedNotQueued(s: State, t: nat, k: nat, next: Pc)
    requires Conds(s) && t < |s.threads| && s.threads[t].pc == Raise(k, next)
    ensures NotQueued(s, k)
  {
    forall c, i | Queued(s, c, i) ensures s.conds[c].waiters[i] != k {
      assert CondOk(s, c);
      assert Unsignalled(s, s.conds[c].waiters[i]);
    }
  }

  /** The raising thread moves on... */
  lemma RaiseMoves(s: State, t: nat, k: nat, next: Pc)
    requires Placed(s) && Inv(s) && s.current == Some(t) && s.threads[t].pc == Raise(k, next)
    ensures var s1 := s.SetPc(t, next);
      Placed(s1) && Quiet(s, s1, t) && HoldersOk(s1) && Wakeups(s1) && Conds(s1) && NotQueued(s1, k)
  {
    var s1 := s.SetPc(t, next);
    assert HolderOk(s, t) && PcOk(s.threads[t].pc, |s.semas|, |s.holders|, |s.conds|);
    RaisedNotQueued(s, t, k, next);
    assert s.threads[t].status == Running;
    SameLists(s, s1);
    QuietHolders(s, s1, t);
    QuietWakeups(s, s1, t);
    QuietConds(s, s1, t);
    assert forall c, i :: Queued(s1, c, i) <==> Queued(s, c, i);
  }

  /** ... and the unit arrives: for a lock, from the thread that owned it. */
  lemma RaiseLocks(s: State, t: nat, k: nat, next: Pc)
    requires Inv(s) && t < |s.threads| && s.threads[t].pc == Raise(k, next) && k < |s.semas|
    requires Shape(s.SetPc(t, next)) && Shape(UpSema(s.SetPc(t, next), k))
    ensures Locks(UpSema(s.SetPc(t, next), k))
  {
    var s' := UpSema(s.SetPc(t, next), k);
    assert HolderOk(s, t);
    forall l | 0 <= l < |s'.holders| ensures LockOk(s', l) {
      assert LockOk(s, l);
      LockBy(s, s', t, l);
    }
  }

  lemma RaiseInv(s: State, t: nat, k: nat, next: Pc)
    requires Placed(s) && Inv(s) && s.current == Some(t) && s.threads[t].pc == Raise(k, next)
    ensures Inv(Step(s, t))
  {
    var s1 := s.SetPc(t, next);
    assert PcOk(s.threads[t].pc, |s.semas|, |s.holders|, |s.conds|);
    RaiseMoves(s, t, k, next);
    UpShape(s1, k);
    RaiseLocks(s, t, k, next);
    WokenForm(s1, k);
    UpWakeups(s1, k);
    UpConds(s1, k);
  }

  // ---------- Conditions ----------

  /** The state after cond_signal when somebody waits. */
  lemma SignalConds(s: State, t: nat, c: nat, next: Pc)
    requires Conds(s) && t < |s.threads| && c < |s.conds| && s.conds[c].waiters != [] && Shape(Signal(s, t, c, next))
    ensures Conds(Signal(s, t, c, next))
  {
    var s', w := Signal(s, t, c, next), s.conds[c].waiters[0];
    assert Queued(s, c, 0);
    forall d | 0 <= d < |s'.conds| ensures CondOk(s', d) {
      assert CondOk(s, d);
      forall i | 0 <= i < |s'.conds[d].waiters| ensures Unsignalled(s', s'.conds[d].waiters[i]) {
        var j := if d == c then i + 1 else i;
        assert Queued(s, d, j) && s.conds[d].waiters[j] == s'.conds[d].waiters[i];
        assert Unsignalled(s, s.conds[d].waiters[j]) && s.conds[d].waiters[j] != w;
      }
    }
  }

  /** Signalling changes nothing but the queue and the signaller's program point. */
  lemma SignalOthers(s: State, t: nat, c: nat, next: Pc)
    requires Inv(s) && t < |s.threads| && c < |s.conds| && (s.threads[t].pc.Run? || s.threads[t].pc.Broadcast?)
    requires (next.Run? || (next.Broadcast? && HoldsCond(s, t, next.c))) && PcOk(next, |s.semas|, |s.holders|, |s.conds|)
    ensures var s' := Signal(s, t, c, next); HoldersOk(s') && Locks(s') && Wakeups(s')
  {
    var s' := Signal(s, t, c, next);
    SignalShape(s, t, c, next);
    assert HolderOk(s, t) && CondOk(s, c);
    if s.conds[c].waiters != [] {
      assert Unsignalled(s, s.conds[c].waiters[0]);
    }
    assert HolderOk(s', t);
    OneHolder(s, s', t);
    forall l | 0 <= l < |s'.holders| ensures LockOk(s', l) {
      assert LockOk(s, l);
      LockSame(s, s', l);
    }
    forall k | 0 <= k < |s'.semas| ensures WakeOk(s', k) {
      assert WakeOk(s, k);
      WakeSame(s, s', k);
    }
  }

  lemma SignalInv(s: State, t: nat, c: nat, next: Pc)
    requires Inv(s) && t < |s.threads| && c < |s.conds| && (s.threads[t].pc.Run? || s.threads[t].pc.Broadcast?)
    requires (next.Run? || (next.Broadcast? && HoldsCond(s, t, next.c))) && PcOk(next, |s.semas|, |s.holders|, |s.conds|)
    ensures Inv(Signal(s, t, c, next))
  {
    SignalShape(s, t, c, next);
    SignalOthers(s, t, c, next);
    if s.conds[c].waiters != [] {
      SignalConds(s, t, c, next);
    } else {
      QuietConds(s, Signal(s, t, c, next), t);
    }
  }

  // ---------- New semaphores and threads ----------

  lemma NewSemaInv(s: State, x: Sema)
    requires Inv(s) && x.waiters == []
    ensures Inv(s.(semas := s.semas + [x]))
  {
    var s' := s.(semas := s.semas + [x]);
    GrownShape(s, x);
    forall u | 0 <= u < |s.threads| ensures HolderOk(s', u) { assert HolderOk(s, u); }
    forall l | 0 <= l < |s'.holders| ensures LockOk(s', l) {
      assert LockOk(s, l);
      LockSame(s, s', l);
    }
    forall k | 0 <= k < |s'.semas| ensures WakeOk(s', k) {
      if k < |s.semas| {
        assert WakeOk(s, k);
        WakeSame(s, s', k);
      }
    }
    forall c | 0 <= c < |s'.conds| ensures CondOk(s', c) {
      assert CondOk(s, c);
      forall i | 0 <= i < |s.conds[c].waiters| ensures Unsignalled(s', s.conds[c].waiters[i]) {
        assert Unsignalled(s, s.conds[c].waiters[i]);
      }
    }
    assert forall c, i :: Queued(s', c, i) <==> Queued(s, c, i);
  }

  lemma CreateInv(s: State)
    requires Inv(s)
    ensures Inv(s.(threads := s.threads + [Thread(Ready, Run)], ready := s.ready + [|s.threads|]))
  {
    var s' := s.(threads := s.threads + [Thread(Ready, Run)], ready := s.ready + [|s.threads|]);
    CreateShape(s);
    forall u | 0 <= u < |s'.threads| ensures HolderOk(s', u) { if u < |s.threads| { assert HolderOk(s, u); } }
    forall l | 0 <= l < |s'.holders| ensures LockOk(s', l) {
      assert LockOk(s, l);
      LockCreate(s, s', l);
    }
    forall k | 0 <= k < |s'.semas| ensures WakeOk(s', k) {
      assert WakeOk(s, k);
      assert WokenFlags(s', k) == WokenFlags(s, k) + [false];
    }
    forall c | 0 <= c < |s'.conds| ensures CondOk(s', c) {
      assert CondOk(s, c);
      forall i | 0 <= i < |s.conds[c].waiters| ensures Unsignalled(s', s.conds[c].waiters[i]) {
        assert Unsignalled(s, s.conds[c].waiters[i]);
      }
    }
    assert forall c, i :: Queued(s', c, i) <==> Queued(s, c, i);
  }

  /** Queueing a semaphore that nobody knows yet. */
  lemma QueueInv(s: State, s': State, c: nat, w: nat)
    requires Inv(s) && Shape(s') && c < |s.conds| && w < |s.semas| && Unsignalled(s, w) && NotQueued(s, w)
    requires s' == s.(conds := s.conds[c := s.conds[c].(waiters := s.conds[c].waiters + [w])])
    ensures Inv(s')
  {
    forall u | 0 <= u < |s.threads| ensures HolderOk(s', u) { assert HolderOk(s, u); }
    forall l | 0 <= l < |s'.holders| ensures LockOk(s', l) {
      assert LockOk(s, l);
      LockSame(s, s', l);
    }
    forall k | 0 <= k < |s'.semas| ensures WakeOk(s', k) {
      assert WakeOk(s, k);
      WakeSame(s, s', k);
    }
    forall d | 0 <= d < |s'.conds| ensures CondOk(s', d) {
      assert CondOk(s, d);
      forall i | 0 <= i < |s'.conds[d].waiters| ensures Unsignalled(s', s'.conds[d].waiters[i]) {
        assert Unsignalled(s, s'.conds[d].waiters[i]);
      }
    }
    QueueDistinct(s, s', c, w);
  }

  lemma QueueDistinct(s: State, s': State, c: nat, w: nat)
    requires CondsDistinct(s) && c < |s.conds| && NotQueued(s, w)
    requires s' == s.(conds := s.conds[c := s.conds[c].(waiters := s.conds[c].waiters + [w])])
    ensures CondsDistinct(s')
  {
    var n := |s.conds[c].waiters|;
    forall d, i, e, j | Queued(s', d, i) && Queued(s', e, j) && (d != e || i != j)
      ensures s'.conds[d].waiters[i] != s'.conds[e].waiters[j]
    {
      if !(d == c && i == n) { assert Queued(s, d, i); }
      if !(e == c && j == n) { assert Queued(s, e, j); }
    }
  }

  /** The program point of a thread that has just called cond_wait. */
  function Sleeping(l: nat, w: nat): Pc {
    Clear(l, Raise(l, Want(w, false, Want(l, false, Take(l)))))
  }

  lemma SleepingForm(l: nat, w: nat, semas: nat, locks: nat, conds: nat)
    requires l < locks <= w < semas
    ensures Form(Sleeping(l, w), locks) && PcOk(Sleeping(l, w), semas, locks, conds)
  {
    var inner := Raise(l, Want(w, false, Want(l, false, Take(l))));
    assert PcOk(Want(w, false, Want(l, false, Take(l))), semas, locks, conds);
    assert Form(inner, locks) && PcOk(inner, semas, locks, conds);
  }

  lemma WaitInv(s: State, t: nat, c: nat)
    requires Inv(s) && t < |s.threads| && s.threads[t].pc.Run? && HoldsCond(s, t, c)
    ensures Inv(Wait(s, t, c))
  {
    var x, w, l := Sema(0, [], true, 0, 0, 0), |s.semas|, s.conds[c].lock;
    var s0 := s.(semas := s.semas + [x]);
    GrownShape(s, x);
    NewSemaInv(s, x);
    var s1 := s0.SetPc(t, Sleeping(l, w));
    SleepingForm(l, w, |s0.semas|, |s.holders|, |s.conds|);
    assert HolderOk(s1, t);
    QuietInv(s0, s1, t);
    WaitShape(s, t, c);
    NewIsUnsignalled(s, s1, t, l, w);
    QueueInv(s1, Wait(s, t, c), c, w);
  }

  lemma NewIsUnsignalled(s: State, s1: State, t: nat, l: nat, w: nat)
    requires Shape(s) && w == |s.semas| && t < |s.threads| && l < |s.holders|
    requires s1 == s.(semas := s.semas + [Sema(0, [], true, 0, 0, 0)]).SetPc(t, Sleeping(l, w))
    ensures Unsignalled(s1, w) && NotQueued(s1, w)
  {
    forall u | 0 <= u < |s1.threads| ensures !(s1.threads[u].pc.Raise? && s1.threads[u].pc.s == w) {
      assert PcOk(s.threads[u].pc, |s.semas|, |s.holders|, |s.conds|);
    }
  }

  // ---------- Every run ----------

  lemma StepInv(s: State, t: nat)
    requires Placed(s) && Inv(s) && s.current == Some(t)
    ensures Inv(Step(s, t))
  {
    var pc := s.threads[t].pc;
    assert PcOk(pc, |s.semas|, |s.holders|, |s.conds|);
    match pc
    case Run =>
    case Want(k, woken, next) => DownInv(s, t, k, woken, next);
    case Raise(k, next) => RaiseInv(s, t, k, next);
    case Take(l) => TakeInv(s, t, l);
    case Clear(l, next) => ClearInv(s, t, l, next);
    case Broadcast(c) =>
      assert HolderOk(s, t);
      SignalInv(s, t, c, Broadcast(c));
  }

  lemma CallInv(s: State, t: nat, call: Call)
    requires Placed(s) && Inv(s) && s.current == Some(t) && s.threads[t].pc.Run? && MayCall(s, t, call)
    ensures Inv(DoCall(s, t, call))
  {
    match call
    case Down(_) => PlainCallInv(s, t, call);
    case TryDown(_) => PlainCallInv(s, t, call);
    case Up(_) => PlainCallInv(s, t, call);
    case Acquire(_) => LockCallInv(s, t, call);
    case TryAcquire(_) => LockCallInv(s, t, call);
    case Release(l) => ReleaseInv(s, t, l);
    case CondWait(c) => WaitInv(s, t, c);
    case CondSignal(c) => SignalInv(s, t, c, Run);
    case CondBroadcast(_) => PlainCallInv(s, t, call);
    case Create => CreateInv(s);
    case Exit =>
      CallShape(s, t, call);
      ScheduledInv(s, DoCall(s, t, call));
  }

  lemma DoInv(s: State, a: Action)
    requires Placed(s) && Inv(s)
    ensures Inv(Do(s, a))
  {
    DoShape(s, a);
    match a
    case Go => if s.current.Some? { StepInv(s, s.current.value); }
    case Begin(call) =>
      if s.current.Some? && s.threads[s.current.value].pc.Run? && MayCall(s, s.current.value, call) {
        CallInv(s, s.current.value, call);
      }
    case Preempt => if s.current.Some? { ScheduledInv(s, Do(s, a)); }
    case IrqUp(k) => if Public(s, k) { IrqInv(s, k); }
    case Resume => if s.current.None? { ScheduledInv(s, Do(s, a)); }
    case NewSema(v) => NewSemaInv(s, Sema(v, [], false, v, 0, 0));
  }

  lemma {:induction false} AlwaysInv(locks: nat, condLocks: seq<nat>, run: seq<Action>)
    requires Starts(locks, condLocks)
    ensures Inv(After(locks, condLocks, run)) && Books(After(locks, condLocks, run))
  {
    if run == [] {
    } else {
      var past := run[..|run| - 1];
      AlwaysInv(locks, condLocks, past);
      AlwaysPlaced(locks, condLocks, past);
      DoInv(After(locks, condLocks, past), run[|run| - 1]);
      DoBooks(After(locks, condLocks, past), run[|run| - 1]);
    }
  }

  // ---------- What a run has done to a semaphore ----------

  /** Action `a` carries out a sema_up of semaphore `k`. */
  predicate UpAt(s: State, a: Action, k: nat) {
    && Shape(s)
    && match a
       case Go => s.current.Some? && var pc := s.threads[s.current.value].pc; pc.Raise? && pc.s == k
       case IrqUp(j) => j == k && Public(s, k)
       case _ => false
  }

  /** Action `a` lets a sema_down of semaphore `k` return, or a try that succeeds. */
  predicate DownAt(s: State, a: Action, k: nat) {
    && Shape(s) && s.current.Some?
    && var t := s.current.value;
       var pc := s.threads[t].pc;
       match a
       case Go => pc.Want? && pc.s == k && t < |Do(s, a).threads| && Do(s, a).threads[t].pc == pc.next
       case Begin(call) =>
         && pc.Run? && MayCall(s, t, call)
         && (if call.TryDown? then call.k == k && s.semas[k].value > 0
             else call.TryAcquire? && call.l == k && t < |Do(s, a).threads| && Do(s, a).threads[t].pc == Take(k))
       case _ => false
  }

  function Ups(locks: nat, condLocks: seq<nat>, run: seq<Action>, k: nat): nat {
    if run == [] then 0 else
    var past := run[..|run| - 1];
    Ups(locks, condLocks, past, k) + if UpAt(After(locks, condLocks, past), run[|run| - 1], k) then 1 else 0
  }

  function Downs(locks: nat, condLocks: seq<nat>, run: seq<Action>, k: nat): nat {
    if run == [] then 0 else
    var past := run[..|run| - 1];
    Downs(locks, condLocks, past, k) + if DownAt(After(locks, condLocks, past), run[|run| - 1], k) then 1 else 0
  }

  /** The value semaphore `k` had when it came to be. */
  function FirstValue(locks: nat, condLocks: seq<nat>, run: seq<Action>, k: nat): nat
    requires k < |After(locks, condLocks, run).semas|
  {
    if run == [] || k >= |After(locks, condLocks, run[..|run| - 1]).semas| then After(locks, condLocks, run).semas[k].value
    else FirstValue(locks, condLocks, run[..|run| - 1], k)
  }

  lemma StepCounts(s: State, t: nat, k: nat)
    requires Shape(s) && s.current == Some(t) && k < |s.semas|
    ensures var s' := Step(s, t);
      && |s'.semas| == |s.semas| && s'.semas[k].init == s.semas[k].init
      && s'.semas[k].ups == s.semas[k].ups + (if UpAt(s, Go, k) then 1 else 0)
      && s'.semas[k].downs == s.semas[k].downs + (if DownAt(s, Go, k) then 1 else 0)
  {
    assert PcOk(s.threads[t].pc, |s.semas|, |s.holders|, |s.conds|);
  }

  lemma CallCounts(s: State, t: nat, call: Call, k: nat)
    requires Shape(s) && s.current == Some(t) && s.threads[t].pc.Run? && MayCall(s, t, call)
    ensures var s' := DoCall(s, t, call);
      && |s.semas| <= |s'.semas|
      && (k < |s.semas| ==>
        && s'.semas[k].init == s.semas[k].init && s'.semas[k].ups == s.semas[k].ups
        && s'.semas[k].downs == s.semas[k].downs + (if DownAt(s, Begin(call), k) then 1 else 0))
      && (k >= |s.semas| ==> !DownAt(s, Begin(call), k))
      && (|s.semas| <= k < |s'.semas| ==>
        var x := s'.semas[k]; x.init == x.value && x.ups == 0 && x.downs == 0)
  {
  }

  /** What one action adds to the counts of a semaphore. */
  lemma ActionCounts(s: State, a: Action, k: nat)
    requires Shape(s)
    ensures |s.semas| <= |Do(s, a).semas|
    ensures k < |s.semas| ==>
      && Do(s, a).semas[k].init == s.semas[k].init
      && Do(s, a).semas[k].ups == s.semas[k].ups + (if UpAt(s, a, k) then 1 else 0)
      && Do(s, a).semas[k].downs == s.semas[k].downs + (if DownAt(s, a, k) then 1 else 0)
    ensures k >= |s.semas| ==> !UpAt(s, a, k) && !DownAt(s, a, k)
    ensures |s.semas| <= k < |Do(s, a).semas| ==>
      var x := Do(s, a).semas[k]; x.init == x.value && x.ups == 0 && x.downs == 0
  {
    hide Step, DoCall;
    match a
    case Go =>
      if s.current.Some? {
        var t := s.current.value;
        assert PcOk(s.threads[t].pc, |s.semas|, |s.holders|, |s.conds|);
        if k < |s.semas| { StepCounts(s, t, k); } else { StepGrowsNone(s, t); }
      }
    case Begin(call) =>
      if s.current.Some? && s.threads[s.current.value].pc.Run? && MayCall(s, s.current.value, call) {
        CallCounts(s, s.current.value, call, k);
      }
    case _ =>
  }

  lemma StepGrowsNone(s: State, t: nat)
    requires Shape(s) && t < |s.threads|
    ensures |Step(s, t).semas| == |s.semas|
  {
    assert PcOk(s.threads[t].pc, |s.semas|, |s.holders|, |s.conds|);
  }

  lemma {:induction false} CountsAreSteps(locks: nat, condLocks: seq<nat>, run: seq<Action>, k: nat)
    requires Starts(locks, condLocks)
    ensures var s := After(locks, condLocks, run);
      if k < |s.semas| then
        && s.semas[k].init == FirstValue(locks, condLocks, run, k)
        && s.semas[k].ups == Ups(locks, condLocks, run, k) && s.semas[k].downs == Downs(locks, condLocks, run, k)
      else Ups(locks, condLocks, run, k) == 0 && Downs(locks, condLocks, run, k) == 0
  {
    if run != [] {
      var past := run[..|run| - 1];
      CountsAreSteps(locks, condLocks, past, k);
      AlwaysPlaced(locks, condLocks, past);
      ActionCounts(After(locks, condLocks, past), run[|run| - 1], k);
    }
  }

  /** The value of every semaphore is always the value it began with plus the sema_ups carried
      out on it minus the sema_downs and tries that have returned with a unit. */
  lemma SemaphoreAccounting(locks: nat, condLocks: seq<nat>, run: seq<Action>, k: nat)
    requires Starts(locks, condLocks) && k < |After(locks, condLocks, run).semas|
    ensures After(locks, condLocks, run).semas[k].value ==
      FirstValue(locks, condLocks, run, k) + Ups(locks, condLocks, run, k) - Downs(locks, condLocks, run, k)
  {
    AlwaysInv(locks, condLocks, run);
    assert Balanced(After(locks, condLocks, run).semas[k]);
    CountsAreSteps(locks, condLocks, run, k);
  }

  /** At most one thread is ever between acquiring and giving up a lock, its holder field
      names no other thread, and its semaphore is 0 just then. */
  lemma MutualExclusion(locks: nat, condLocks: seq<nat>, run: seq<Action>, l: nat, t: nat, u: nat)
    requires Starts(locks, condLocks)
    requires var s := After(locks, condLocks, run);
      l < |s.holders| && t < |s.threads| && u < |s.threads| && Owns(s, t, l)
    ensures var s := After(locks, condLocks, run);
      && (Owns(s, u, l) ==> u == t)
      && (s.holders[l].Some? ==> s.holders[l] == Some(t))
      && l < |s.semas| && s.semas[l].value == 0
  {
    var s := After(locks, condLocks, run);
    AlwaysInv(locks, condLocks, run);
    assert LockOk(s, l) && OwnFlags(s, l)[t];
    CountPositive(OwnFlags(s, l), t);
    if Owns(s, u, l) { OneOwner(s, l, t, u); }
    if s.holders[l].Some? { OneOwner(s, l, t, s.holders[l].value); }
  }

  /** The ASSERTs met inside an operation hold in every run: a thread that sema_up unblocks is
      blocked; cond_wait releases a lock it holds and reacquires one it does not hold, whose
      holder field is clear when it takes it; cond_broadcast holds the lock at every signal. */
  lemma AssertsHold(locks: nat, condLocks: seq<nat>, run: seq<Action>, t: nat)
    requires Starts(locks, condLocks) && t < |After(locks, condLocks, run).threads|
    ensures var s := After(locks, condLocks, run);
      && (forall k, i :: 0 <= k < |s.semas| && 0 <= i < |s.semas[k].waiters| ==>
            s.semas[k].waiters[i] < |s.threads| && s.threads[s.semas[k].waiters[i]].status == Blocked)
      && (match s.threads[t].pc
          case Want(l, _, _) => l < |s.holders| ==> s.holders[l] != Some(t)
          case Take(l) => l < |s.holders| && s.holders[l].None?
          case Clear(l, _) => l < |s.holders| && s.holders[l] == Some(t)
          case Broadcast(c) => Shape(s) && HoldsCond(s, t, c)
          case _ => true)
  {
    var s := After(locks, condLocks, run);
    AlwaysInv(locks, condLocks, run);
    AlwaysPlaced(locks, condLocks, run);
    forall k, i | 0 <= k < |s.semas| && 0 <= i < |s.semas[k].waiters|
      ensures s.semas[k].waiters[i] < |s.threads| && s.threads[s.semas[k].waiters[i]].status == Blocked
    {
      assert WaitersOk(s, k);
      assert Sleeps(s, s.semas[k].waiters[i], k);
    }
    assert HolderOk(s, t);
    var pc := s.threads[t].pc;
    if pc.Take? && s.holders[pc.l].Some? { OneOwner(s, pc.l, t, s.holders[pc.l].value); }
  }

  /** A thread that has exited is not inside an operation. */
  ghost predicate DyingDone(s: State) {
    forall t :: 0 <= t < |s.threads| && s.threads[t].status == Dying ==> s.threads[t].pc.Run?
  }

  lemma StepDying(s: State, t: nat)
    requires Placed(s) && DyingDone(s) && s.current == Some(t)
    ensures DyingDone(Step(s, t))
  {
    assert s.threads[t].status == Running;
  }

  lemma CallDying(s: State, t: nat, call: Call)
    requires Placed(s) && DyingDone(s) && s.current == Some(t) && s.threads[t].pc.Run? && MayCall(s, t, call)
    ensures DyingDone(DoCall(s, t, call))
  {
    assert s.threads[t].status == Running;
  }

  lemma DoDying(s: State, a: Action)
    requires Placed(s) && DyingDone(s)
    ensures DyingDone(Do(s, a))
  {
    hide Step, DoCall;
    match a
    case Go => if s.current.Some? { StepDying(s, s.current.value); }
    case Begin(call) =>
      if s.current.Some? && s.threads[s.current.value].pc.Run? && MayCall(s, s.current.value, call) {
        CallDying(s, s.current.value, call);
      }
    case _ =>
  }

  lemma {:induction false} AlwaysDying(locks: nat, condLocks: seq<nat>, run: seq<Action>)
    requires Starts(locks, condLocks)
    ensures DyingDone(After(locks, condLocks, run))
  {
    if run != [] {
      var past := run[..|run| - 1];
      AlwaysDying(locks, condLocks, past);
      AlwaysPlaced(locks, condLocks, past);
      DoDying(After(locks, condLocks, past), run[|run| - 1]);
    }
  }

  /** No wakeup is lost: if a thread sleeps on a semaphore whose value is positive, some
      woken thread is ready or running and will retry it. */
  lemma NoLostWakeup(locks: nat, condLocks: seq<nat>, run: seq<Action>, k: nat)
    requires Starts(locks, condLocks)
    requires var s := After(locks, condLocks, run);
      k < |s.semas| && s.semas[k].waiters != [] && s.semas[k].value > 0
    ensures var s := After(locks, condLocks, run);
      exists t :: 0 <= t < |s.threads| && Woken(s.threads[t].pc, k) && (s.threads[t].status == Ready || s.threads[t].status == Running)
  {
    var s := After(locks, condLocks, run);
    AlwaysInv(locks, condLocks, run);
    AlwaysPlaced(locks, condLocks, run);
    AlwaysDying(locks, condLocks, run);
    assert WakeOk(s, k);
    CountWitness(WokenFlags(s, k));
    var t :| 0 <= t < |s.threads| && WokenFlags(s, k)[t];
    assert Listed(s, t);
    assert WaitersOk(s, k);
    assert forall i :: 0 <= i < |s.semas[k].waiters| ==> Sleeps(s, s.semas[k].waiters[i], k);
  }

  /** A thread sleeping in cond_wait does not get past its private semaphore before a
      signal has taken that semaphore off the condition's queue. */
  lemma NoWakeupWithoutSignal(locks: nat, condLocks: seq<nat>, run: seq<Action>, c: nat, i: nat)
    requires Starts(locks, condLocks)
    requires var s := After(locks, condLocks, run); c < |s.conds| && i < |s.conds[c].waiters|
    ensures var s := After(locks, condLocks, run);
      s.conds[c].waiters[i] < |s.semas| && Downs(locks, condLocks, run, s.conds[c].waiters[i]) == 0
  {
    var s := After(locks, condLocks, run);
    AlwaysInv(locks, condLocks, run);
    assert CondOk(s, c);
    var w := s.conds[c].waiters[i];
    assert Unsignalled(s, w) && Balanced(s.semas[w]);
    CountsAreSteps(locks, condLocks, run, w);
  }
}
