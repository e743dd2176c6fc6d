/** What each operation of threads/synch.c has done when it returns, whatever happens in
    between: which semaphores its thread has raised and lowered, which locks it holds, and
    what has become of the condition's queue. */
module SynchCalls {
  import opened Storage
  import opened Counting
  import opened Synch
  import opened SynchPlaces
  import opened SynchSafety

  // ---------- What a call is to do ----------

  /** What the ASSERTs at the head of each operation demand of its caller. */
  ghost predicate Asserted(s: State, t: nat, call: Call) {
    match call
    case Down(k) => |s.holders| <= k < |s.semas| && !s.semas[k].private
    case TryDown(k) => |s.holders| <= k < |s.semas| && !s.semas[k].private
    case Up(k) => |s.holders| <= k < |s.semas| && !s.semas[k].private
    case Acquire(l) => l < |s.holders| && s.holders[l] != Some(t)
    case TryAcquire(l) => l < |s.holders| && s.holders[l] != Some(t)
    case Release(l) => l < |s.holders| && s.holders[l] == Some(t)
    case CondWait(c) => c < |s.conds| && s.conds[c].lock < |s.holders| && s.holders[s.conds[c].lock] == Some(t)
    case CondSignal(c) => c < |s.conds| && s.conds[c].lock < |s.holders| && s.holders[s.conds[c].lock] == Some(t)
    case CondBroadcast(c) => c < |s.conds| && s.conds[c].lock < |s.holders| && s.holders[s.conds[c].lock] == Some(t)
    case Create => true
    case Exit => true
  }

  /** How often a call made in state `s` raises semaphore `k`. */
  ghost function Raises(s: State, call: Call, k: nat): nat {
    match call
    case Up(j) => Bit(j == k)
    case Release(l) => Bit(l == k)
    case CondWait(c) => Bit(c < |s.conds| && s.conds[c].lock == k)
    case CondSignal(c) => Bit(c < |s.conds| && s.conds[c].waiters != [] && s.conds[c].waiters[0] == k)
    case CondBroadcast(c) => Bit(c < |s.conds| && k in s.conds[c].waiters)
    case _ => 0
  }

  /** How often it lowers it; cond_wait lowers a semaphore of its own and that of its lock. */
  ghost function Lowers(s: State, call: Call, k: nat): nat {
    match call
    case Down(j) => Bit(j == k)
    case TryDown(j) => Bit(j == k && k < |s.semas| && s.semas[k].value > 0)
    case Acquire(l) => Bit(l == k)
    case TryAcquire(l) => Bit(l == k && k < |s.semas| && s.semas[k].value > 0)
    case CondWait(c) => Bit(k == |s.semas|) + Bit(c < |s.conds| && s.conds[c].lock == k)
    case _ => 0
  }

  /** In how many steps it returns, not counting those in which it goes to sleep. */
  ghost function Work(s: State, call: Call): nat {
    match call
    case Down(_) => 1
    case Up(_) => 1
    case Acquire(_) => 2
    case TryAcquire(l) => Bit(l < |s.semas| && s.semas[l].value > 0)
    case Release(_) => 2
    case CondWait(_) => 5
    case CondSignal(c) => Bit(c < |s.conds| && s.conds[c].waiters != [])
    case CondBroadcast(c) => if c < |s.conds| then 2 * |s.conds[c].waiters| + 1 else 0
    case _ => 0
  }

  ghost predicate Held(s: State, t: nat, l: nat) {
    l < |s.holders| && s.holders[l] == Some(t)
  }

  /** Whether thread `t` holds lock `l` when the call returns. */
  ghost predicate Holds(s: State, t: nat, call: Call, l: nat) {
    match call
    case Acquire(m) => l == m || Held(s, t, l)
    case TryAcquire(m) => (l == m && l < |s.semas| && s.semas[l].value > 0) || Held(s, t, l)
    case Release(m) => l != m && Held(s, t, l)
    case _ => Held(s, t, l)
  }

  // ---------- What a program point still owes ----------

  ghost function UpsOwed(s: State, pc: Pc, k: nat): nat
    decreases pc
  {
    match pc
    case Run => 0
    case Want(_, _, next) => UpsOwed(s, next, k)
    case Raise(j, next) => Bit(j == k) + UpsOwed(s, next, k)
    case Take(_) => 0
    case Clear(_, next) => UpsOwed(s, next, k)
    case Broadcast(c) => Bit(c < |s.conds| && k in s.conds[c].waiters)
  }

  ghost function StepsOwed(s: State, pc: Pc): nat
    decreases pc
  {
    match pc
    case Run => 0
    case Want(_, _, next) => 1 + StepsOwed(s, next)
    case Raise(_, next) => 1 + StepsOwed(s, next)
    case Take(_) => 1
    case Clear(_, next) => 1 + StepsOwed(s, next)
    case Broadcast(c) => if c < |s.conds| then 2 * |s.conds[c].waiters| + 1 else 1
  }

  ghost function DownsOwed(pc: Pc, k: nat): nat
    decreases pc
  {
    match pc
    case Run => 0
    case Want(j, _, next) => Bit(j == k) + DownsOwed(next, k)
    case Raise(_, next) => DownsOwed(next, k)
    case Take(_) => 0
    case Clear(_, next) => DownsOwed(next, k)
    case Broadcast(_) => 0
  }

  /** Whether the thread will hold lock `l`, given whether it holds it now. */
  ghost predicate HoldsThen(pc: Pc, l: nat, now: bool)
    decreases pc
  {
    match pc
    case Run => now
    case Want(_, _, next) => HoldsThen(next, l, now)
    case Raise(_, next) => HoldsThen(next, l, now)
    case Take(m) => m == l || now
    case Clear(m, next) => HoldsThen(next, l, m != l && now)
    case Broadcast(_) => now
  }

  // ---------- One action ----------

  ghost predicate Mine(s: State, a: Action, t: nat) {
    a.Go? && s.current == Some(t)
  }

  /** Action `a` moves thread `t` on. */
  ghost predicate Moves(s: State, a: Action, t: nat)
    requires t < |s.threads|
  {
    && Mine(s, a, t)
    && !(s.threads[t].pc.Want? && s.threads[t].pc.s < |s.semas| && s.semas[s.threads[t].pc.s].value == 0)
  }

  /** A broadcasting thread owes one sema_up to each semaphore in the queue. */
  lemma SignalOwes(s: State, t: nat, c: nat, next: Pc, k: nat)
    requires Inv(s) && t < |s.threads| && c < |s.conds| && (next == Run || next == Broadcast(c))
    ensures var s' := Signal(s, t, c, next);
      var owed, steps := UpsOwed(s', s'.threads[t].pc, k), StepsOwed(s', s'.threads[t].pc);
      if next == Run then
        owed == Bit(s.conds[c].waiters != [] && s.conds[c].waiters[0] == k) && steps == Bit(s.conds[c].waiters != [])
      else owed == Bit(k in s.conds[c].waiters) && steps == 2 * |s.conds[c].waiters|
  {
    var s' := Signal(s, t, c, next);
    var xs := s.conds[c].waiters;
    if xs != [] {
      assert s'.conds[c].waiters == xs[1..];
      assert UpsOwed(s', Raise(xs[0], next), k) == Bit(xs[0] == k) + UpsOwed(s', next, k);
      assert StepsOwed(s', Raise(xs[0], next)) == 1 + StepsOwed(s', next);
      forall i | 1 <= i < |xs| ensures xs[i] != xs[0] {
        assert Queued(s, c, 0) && Queued(s, c, i);
      }
      assert k in xs <==> xs[0] == k || k in xs[1..];
    }
  }

  /** The condition that a program point is going to look at again. */
  ghost function Target(pc: Pc): Option<nat>
    decreases pc
  {
    match pc
    case Broadcast(c) => Some(c)
    case Want(_, _, next) => Target(next)
    case Raise(_, next) => Target(next)
    case Clear(_, next) => Target(next)
    case _ => None
  }

  lemma {:induction false} SameOwed(s: State, s': State, pc: Pc, k: nat)
    requires s'.conds == s.conds || var c := Target(pc);
      c.Some? ==> c.value < |s.conds| <= |s'.conds| && s'.conds[c.value].waiters == s.conds[c.value].waiters
    ensures UpsOwed(s', pc, k) == UpsOwed(s, pc, k) && StepsOwed(s', pc) == StepsOwed(s, pc)
    decreases pc
  {
    match pc
    case Want(_, _, next) => SameOwed(s, s', next, k);
    case Raise(_, next) => SameOwed(s, s', next, k);
    case Clear(_, next) => SameOwed(s, s', next, k);
    case _ =>
  }

  lemma {:induction false} TargetForm(pc: Pc, locks: nat)
    requires Form(pc, locks)
    ensures Target(pc).Some? ==>
      pc == Broadcast(Target(pc).value) || (pc.Raise? && pc.next == Broadcast(Target(pc).value))
    decreases pc
  {
    match pc
    case Want(_, _, next) => if next.Want? { assert Target(next) == Target(next.next); }
    case Raise(_, next) =>
      if next.Want? { assert Target(next) == Target(next.next) == Target(next.next.next); }
    case Clear(_, next) => TargetForm(next, locks);
    case _ =>
  }

  /** A thread that is going to look at a condition again holds its lock. */
  lemma TargetHeld(s: State, t: nat)
    requires Inv(s) && t < |s.threads| && Target(s.threads[t].pc).Some?
    ensures HoldsCond(s, t, Target(s.threads[t].pc).value)
  {
    assert HolderOk(s, t);
    TargetForm(s.threads[t].pc, |s.holders|);
  }

  /** Equal but for the flag that tells a sleeper it has been woken. */
  ghost predicate SamePoint(pc: Pc, pc': Pc) {
    pc' == pc || (pc.Want? && pc'.Want? && pc' == pc.(woken := pc'.woken))
  }

  /** What no other thread does to thread `t`: move it on, take its locks or change the queue of
      a condition whose lock it holds. */
  ghost predicate Undisturbed(s: State, s': State, t: nat)
    requires Shape(s)
  {
    && t < |s.threads| <= |s'.threads| && SamePoint(s.threads[t].pc, s'.threads[t].pc)
    && |s'.holders| == |s.holders| && |s'.conds| == |s.conds|
    && (forall l :: 0 <= l < |s.holders| ==> (s'.holders[l] == Some(t) <==> s.holders[l] == Some(t)))
    && (forall c :: 0 <= c < |s.conds| ==> s'.conds[c].lock == s.conds[c].lock)
    && (forall c :: 0 <= c < |s.conds| && HoldsCond(s, t, c) ==> s'.conds[c].waiters == s.conds[c].waiters)
  }

  lemma OtherStep(s: State, u: nat, t: nat)
    requires Inv(s) && u < |s.threads| && t < |s.threads| && u != t
    ensures Undisturbed(s, Step(s, u), t)
  {
    assert HolderOk(s, u) && PcOk(s.threads[u].pc, |s.semas|, |s.holders|, |s.conds|);
    var pc := s.threads[u].pc;
    if pc.Take? && s.holders[pc.l] == Some(t) { OneOwner(s, pc.l, u, t); }
  }

  lemma OtherCall(s: State, u: nat, call: Call, t: nat)
    requires Inv(s) && u < |s.threads| && t < |s.threads| && u != t && MayCall(s, u, call)
    ensures Undisturbed(s, DoCall(s, u, call), t)
  {
  }

  lemma OtherAction(s: State, a: Action, t: nat)
    requires Placed(s) && Inv(s) && t < |s.threads| && !s.threads[t].pc.Run? && !Mine(s, a, t)
    ensures Undisturbed(s, Do(s, a), t)
  {
    hide Step, DoCall;
    match a
    case Go => if s.current.Some? { OtherStep(s, s.current.value, t); }
    case Begin(call) =>
      if s.current.Some? && s.threads[s.current.value].pc.Run? && MayCall(s, s.current.value, call) {
        OtherCall(s, s.current.value, call, t);
      }
    case _ =>
  }

  // ---------- Accounts ----------

  /** What is owed for one semaphore and one lock. */
  datatype Account = Account(ups: nat, downs: nat, steps: nat, holds: bool)

  ghost function Owed(s: State, t: nat, k: nat, l: nat): Account
    requires t < |s.threads|
  {
    var pc := s.threads[t].pc;
    Account(UpsOwed(s, pc, k), DownsOwed(pc, k), StepsOwed(s, pc), HoldsThen(pc, l, Held(s, t, l)))
  }

  lemma OwedKept(s: State, s': State, t: nat, k: nat, l: nat)
    requires Inv(s) && Undisturbed(s, s', t)
    ensures Owed(s', t, k, l) == Owed(s, t, k, l)
  {
    var pc := s.threads[t].pc;
    if Target(pc).Some? { TargetHeld(s, t); }
    SameOwed(s, s', pc, k);
  }

  /** A step of the thread pays off what it does. */
  lemma StepPays(s: State, t: nat, k: nat, l: nat)
    requires Placed(s) && Inv(s) && s.current == Some(t) && !s.threads[t].pc.Run?
    ensures t < |Step(s, t).threads|
    ensures var x, y := Owed(s, t, k, l), Owed(Step(s, t), t, k, l);
      && x.ups == y.ups + Bit(UpAt(s, Go, k)) && x.downs == y.downs + Bit(DownAt(s, Go, k))
      && x.steps == y.steps + Bit(Moves(s, Go, t)) && x.holds == y.holds
  {
    var s', pc := Step(s, t), s.threads[t].pc;
    assert HolderOk(s, t) && PcOk(pc, |s.semas|, |s.holders|, |s.conds|);
    hide Form, HoldersOk, Locks, Wakeups, Conds, Lists;
    match pc
    case Want(j, w, next) => WantPays(s, t, j, w, next, k, l);
    case Raise(j, next) => RaisePays(s, t, j, next, k, l);
    case Broadcast(c) => SignalOwes(s, t, c, Broadcast(c), k);
    case Clear(m, next) => SameOwed(s, s', next, k);
    case Take(m) =>
  }

  lemma WantPays(s: State, t: nat, j: nat, w: bool, next: Pc, k: nat, l: nat)
    requires Shape(s) && Cpu(s) && s.current == Some(t) && s.threads[t].pc == Want(j, w, next) && j < |s.semas|
    requires forall i :: 0 <= i < |s.ready| ==> s.threads[s.ready[i]].status == Ready
    ensures t < |Step(s, t).threads|
    ensures var x, y := Owed(s, t, k, l), Owed(Step(s, t), t, k, l);
      && x.ups == y.ups + Bit(UpAt(s, Go, k)) && x.downs == y.downs + Bit(DownAt(s, Go, k))
      && x.steps == y.steps + Bit(Moves(s, Go, t)) && x.holds == y.holds
  {
    var s' := Step(s, t);
    assert s'.conds == s.conds && s'.holders == s.holders;
    if s.semas[j].value == 0 {
      assert s'.threads[t].pc == Want(j, false, next) != next;
    } else {
      assert s'.threads[t].pc == next;
    }
    SameOwed(s, s', next, k);
  }

  lemma RaisePays(s: State, t: nat, j: nat, next: Pc, k: nat, l: nat)
    requires Placed(s) && Inv(s) && s.current == Some(t) && s.threads[t].pc == Raise(j, next) && j < |s.semas|
    ensures t < |Step(s, t).threads|
    ensures var x, y := Owed(s, t, k, l), Owed(Step(s, t), t, k, l);
      && x.ups == y.ups + Bit(UpAt(s, Go, k)) && x.downs == y.downs + Bit(DownAt(s, Go, k))
      && x.steps == y.steps + Bit(Moves(s, Go, t)) && x.holds == y.holds
  {
    var s' := Step(s, t);
    assert WaitersOk(s, j);
    if s.semas[j].waiters != [] {
      assert Sleeps(s, s.semas[j].waiters[0], j);
    }
    assert s.threads[t].status == Running;
    assert s'.threads[t].pc == next && s'.conds == s.conds && s'.holders == s.holders;
    SameOwed(s, s', next, k);
  }

  // ---------- Whole calls ----------

  /** How often thread `t` itself raises semaphore `k` during `did`, after the run `before`. */
  ghost function UpsBy(locks: nat, condLocks: seq<nat>, before: seq<Action>, did: seq<Action>, t: nat, k: nat): nat {
    if did == [] then 0
    else
      var past, a := did[..|did| - 1], did[|did| - 1];
      var s := After(locks, condLocks, before + past);
      UpsBy(locks, condLocks, before, past, t, k) + Bit(a.Go? && s.current == Some(t) && UpAt(s, a, k))
  }

  /** How often it lowers it. */
  ghost function DownsBy(locks: nat, condLocks: seq<nat>, before: seq<Action>, did: seq<Action>, t: nat, k: nat): nat {
    if did == [] then 0
    else
      var past, a := did[..|did| - 1], did[|did| - 1];
      var s := After(locks, condLocks, before + past);
      DownsBy(locks, condLocks, before, past, t, k) + Bit(s.current == Some(t) && DownAt(s, a, k))
  }

  /** How many steps move it on. */
  ghost function StepsBy(locks: nat, condLocks: seq<nat>, before: seq<Action>, did: seq<Action>, t: nat): nat {
    if did == [] then 0
    else
      var past, a := did[..|did| - 1], did[|did| - 1];
      var s := After(locks, condLocks, before + past);
      StepsBy(locks, condLocks, before, past, t) + Bit(t < |s.threads| && Moves(s, a, t))
  }

  /** After the run `before` thread `t` makes a call, and during the rest of `did` it has not come
      back from it before the end. */
  ghost predicate InCall(locks: nat, condLocks: seq<nat>, before: seq<Action>, did: seq<Action>, t: nat, call: Call) {
    var s := After(locks, condLocks, before);
    && s.current == Some(t) && t < |s.threads| && s.threads[t].pc.Run? && Asserted(s, t, call)
    && did != [] && did[0] == Begin(call)
    && (forall j :: 0 < j < |did| ==>
          var x := After(locks, condLocks, before + did[..j]); t < |x.threads| && !x.threads[t].pc.Run?)
  }

  /** What has been done and what is owed make up what the call is to do. */
  ghost predicate Balance(locks: nat, condLocks: seq<nat>, before: seq<Action>, did: seq<Action>, t: nat, call: Call, k: nat, l: nat) {
    var s0, s := After(locks, condLocks, before), After(locks, condLocks, before + did);
    && t < |s.threads|
    && UpsBy(locks, condLocks, before, did, t, k) + Owed(s, t, k, l).ups == Raises(s0, call, k)
    && DownsBy(locks, condLocks, before, did, t, k) + Owed(s, t, k, l).downs == Lowers(s0, call, k)
    && StepsBy(locks, condLocks, before, did, t) + Owed(s, t, k, l).steps == Work(s0, call)
    && (Owed(s, t, k, l).holds <==> Holds(s0, t, call, l))
  }

  /** What the program points owe that the calls begin with. */
  lemma PointOwes(s: State, m: nat, k: nat, l: nat, now: bool)
    ensures UpsOwed(s, Raise(m, Run), k) == Bit(m == k) && DownsOwed(Raise(m, Run), k) == 0
    ensures HoldsThen(Raise(m, Run), l, now) == now && StepsOwed(s, Raise(m, Run)) == 1
    ensures UpsOwed(s, Want(m, false, Run), k) == 0 && DownsOwed(Want(m, false, Run), k) == Bit(m == k)
    ensures HoldsThen(Want(m, false, Run), l, now) == now && StepsOwed(s, Want(m, false, Run)) == 1
    ensures UpsOwed(s, Want(m, false, Take(m)), k) == 0 && DownsOwed(Want(m, false, Take(m)), k) == Bit(m == k)
    ensures HoldsThen(Want(m, false, Take(m)), l, now) == (m == l || now) && StepsOwed(s, Want(m, false, Take(m))) == 2
    ensures UpsOwed(s, Clear(m, Raise(m, Run)), k) == Bit(m == k) && DownsOwed(Clear(m, Raise(m, Run)), k) == 0
    ensures HoldsThen(Clear(m, Raise(m, Run)), l, now) == (m != l && now) && StepsOwed(s, Clear(m, Raise(m, Run))) == 2
  {
    assert UpsOwed(s, Run, k) == 0 && DownsOwed(Run, k) == 0 && HoldsThen(Run, l, now) == now && StepsOwed(s, Run) == 0;
    assert StepsOwed(s, Take(m)) == 1 && StepsOwed(s, Raise(m, Run)) == 1;
    assert DownsOwed(Take(m), k) == 0 && UpsOwed(s, Take(m), k) == 0 && HoldsThen(Take(m), l, now) == (m == l || now);
    assert UpsOwed(s, Raise(m, Run), k) == Bit(m == k) && DownsOwed(Raise(m, Run), k) == 0;
    assert HoldsThen(Raise(m, Run), l, m != l && now) == HoldsThen(Run, l, m != l && now) == (m != l && now);
  }

  lemma CallOwes(s: State, t: nat, call: Call, k: nat, l: nat)
    requires Placed(s) && Inv(s) && s.current == Some(t) && s.threads[t].pc.Run? && MayCall(s, t, call)
    ensures var s' := DoCall(s, t, call);
      && t < |s'.threads|
      && Owed(s', t, k, l).ups == Raises(s, call, k)
      && Owed(s', t, k, l).downs + Bit(DownAt(s, Begin(call), k)) == Lowers(s, call, k)
      && Owed(s', t, k, l).steps == Work(s, call) && (Owed(s', t, k, l).holds <==> Holds(s, t, call, l))
  {
    match call
    case CondSignal(c) =>
      SignalOwes(s, t, c, Run, k);
      if s.conds[c].waiters != [] { PointOwes(s, s.conds[c].waiters[0], k, l, Held(s, t, l)); }
    case CondWait(c) => WaitOwes(s, t, c, k, l);
    case _ => OtherOwes(s, t, call, k, l);
  }

  lemma WaitOwes(s: State, t: nat, c: nat, k: nat, l: nat)
    requires Shape(s) && t < |s.threads| && HoldsCond(s, t, c)
    ensures var s' := Wait(s, t, c);
      && Owed(s', t, k, l) == Account(Bit(s.conds[c].lock == k), Bit(k == |s.semas|) + Bit(s.conds[c].lock == k), 5, Held(s, t, l))
  {
    var s', m := Wait(s, t, c), s.conds[c].lock;
    var four := Want(m, false, Take(m));
    var three := Want(|s.semas|, false, four);
    var two := Raise(m, three);
    var kept := m != l && Held(s, t, l);
    PointOwes(s', m, k, l, kept);
    assert UpsOwed(s', three, k) == 0 && DownsOwed(three, k) == Bit(k == |s.semas|) + Bit(m == k) && HoldsThen(three, l, kept) == (m == l || kept);
    assert StepsOwed(s', three) == 3 && StepsOwed(s', two) == 4;
    assert UpsOwed(s', two, k) == Bit(m == k) && DownsOwed(two, k) == DownsOwed(three, k) && HoldsThen(two, l, kept) == HoldsThen(three, l, kept);
  }

  lemma OtherOwes(s: State, t: nat, call: Call, k: nat, l: nat)
    requires Shape(s) && s.current == Some(t) && t < |s.threads| && s.threads[t].pc.Run? && MayCall(s, t, call)
    requires !call.CondWait? && !call.CondSignal?
    ensures var s' := DoCall(s, t, call);
      && t < |s'.threads|
      && Owed(s', t, k, l).ups == Raises(s, call, k)
      && Owed(s', t, k, l).downs + Bit(DownAt(s, Begin(call), k)) == Lowers(s, call, k)
      && Owed(s', t, k, l).steps == Work(s, call) && (Owed(s', t, k, l).holds <==> Holds(s, t, call, l))
  {
    var s', now := DoCall(s, t, call), Held(s, t, l);
    match call
    case Down(j) => PointOwes(s', j, k, l, now);
    case Up(j) => PointOwes(s', j, k, l, now);
    case Acquire(m) => PointOwes(s', m, k, l, now);
    case Release(m) => PointOwes(s', m, k, l, now);
    case _ =>
  }

  /** A run goes on. */
  lemma Longer(locks: nat, condLocks: seq<nat>, before: seq<Action>, did: seq<Action>)
    requires did != []
    ensures After(locks, condLocks, before + did) == Do(After(locks, condLocks, before + did[..|did| - 1]), did[|did| - 1])
  {
    hide Do;
    var run := before + did;
    assert run[..|run| - 1] == before + did[..|did| - 1];
  }

  lemma BeginOwes(s: State, t: nat, call: Call, k: nat, l: nat)
    requires Placed(s) && Inv(s) && s.current == Some(t) && s.threads[t].pc.Run? && Asserted(s, t, call)
    ensures var s' := Do(s, Begin(call));
      && t < |s'.threads|
      && Owed(s', t, k, l).ups == Raises(s, call, k)
      && Owed(s', t, k, l).downs + Bit(DownAt(s, Begin(call), k)) == Lowers(s, call, k)
      && Owed(s', t, k, l).steps == Work(s, call) && (Owed(s', t, k, l).holds <==> Holds(s, t, call, l))
  {
    assert MayCall(s, t, call);
    hide DoCall, Owed, Inv, Placed, MayCall, Work, Raises, Lowers, Holds, DownAt;
    CallOwes(s, t, call, k, l);
  }

  /** A single action after a run. */
  lemma OneAction(locks: nat, condLocks: seq<nat>, before: seq<Action>, a: Action, t: nat, k: nat)
    requires t < |After(locks, condLocks, before).threads|
    ensures var s := After(locks, condLocks, before);
      && After(locks, condLocks, before + [a]) == Do(s, a)
      && UpsBy(locks, condLocks, before, [a], t, k) == Bit(a.Go? && s.current == Some(t) && UpAt(s, a, k))
      && DownsBy(locks, condLocks, before, [a], t, k) == Bit(s.current == Some(t) && DownAt(s, a, k))
      && StepsBy(locks, condLocks, before, [a], t) == Bit(Moves(s, a, t))
  {
    Longer(locks, condLocks, before, [a]);
    hide After, Do, UpAt, DownAt, Moves;
    assert [a][..0] == [] && before + [] == before;
    assert UpsBy(locks, condLocks, before, [], t, k) == 0 && DownsBy(locks, condLocks, before, [], t, k) == 0;
    assert StepsBy(locks, condLocks, before, [], t) == 0;
  }

  lemma FirstBalance(locks: nat, condLocks: seq<nat>, before: seq<Action>, did: seq<Action>, t: nat, call: Call, k: nat, l: nat)
    requires Starts(locks, condLocks) && InCall(locks, condLocks, before, did, t, call) && |did| == 1
    ensures Balance(locks, condLocks, before, did, t, call, k, l)
  {
    hide After, Do, Inv, Placed, Owed, DownAt, Work, Raises, Lowers, Holds, Asserted, UpsBy, DownsBy, StepsBy;
    AlwaysInv(locks, condLocks, before);
    AlwaysPlaced(locks, condLocks, before);
    assert did == [Begin(call)];
    OneAction(locks, condLocks, before, Begin(call), t, k);
    BeginOwes(After(locks, condLocks, before), t, call, k, l);
  }

  /** One action more. */
  lemma MoreActions(locks: nat, condLocks: seq<nat>, before: seq<Action>, did: seq<Action>, t: nat, k: nat)
    requires did != [] && t < |After(locks, condLocks, before + did[..|did| - 1]).threads|
    ensures var past, a := did[..|did| - 1], did[|did| - 1];
      var s := After(locks, condLocks, before + past);
      && After(locks, condLocks, before + did) == Do(s, a)
      && UpsBy(locks, condLocks, before, did, t, k) == UpsBy(locks, condLocks, before, past, t, k) + Bit(a.Go? && s.current == Some(t) && UpAt(s, a, k))
      && DownsBy(locks, condLocks, before, did, t, k) == DownsBy(locks, condLocks, before, past, t, k) + Bit(s.current == Some(t) && DownAt(s, a, k))
      && StepsBy(locks, condLocks, before, did, t) == StepsBy(locks, condLocks, before, past, t) + Bit(Moves(s, a, t))
  {
    Longer(locks, condLocks, before, did);
    hide After, Do, UpAt, DownAt, Moves;
  }

  lemma NextBalance(locks: nat, condLocks: seq<nat>, before: seq<Action>, did: seq<Action>, t: nat, call: Call, k: nat, l: nat)
    requires Starts(locks, condLocks) && InCall(locks, condLocks, before, did, t, call) && |did| > 1
    requires Balance(locks, condLocks, before, did[..|did| - 1], t, call, k, l)
    ensures Balance(locks, condLocks, before, did, t, call, k, l)
  {
    hide After, Do, Inv, Placed, Owed, UpAt, DownAt, Moves, Work, Raises, Lowers, Holds, Asserted, UpsBy, DownsBy, StepsBy;
    var past := did[..|did| - 1];
    var s := After(locks, condLocks, before + past);
    AlwaysInv(locks, condLocks, before + past);
    AlwaysPlaced(locks, condLocks, before + past);
    assert !s.threads[t].pc.Run?;
    MoreActions(locks, condLocks, before, did, t, k);
    OneMore(s, did[|did| - 1], t, k, l);
  }

  lemma OneMore(s: State, a: Action, t: nat, k: nat, l: nat)
    requires Placed(s) && Inv(s) && t < |s.threads| && !s.threads[t].pc.Run?
    ensures var s' := Do(s, a); t < |s'.threads|
    ensures var x, y := Owed(s, t, k, l), Owed(Do(s, a), t, k, l);
      && x.ups == y.ups + Bit(a.Go? && s.current == Some(t) && UpAt(s, a, k))
      && x.downs == y.downs + Bit(s.current == Some(t) && DownAt(s, a, k))
      && x.steps == y.steps + Bit(Moves(s, a, t)) && x.holds == y.holds
  {
    hide Step, Owed, UpAt;
    if Mine(s, a, t) {
      StepPays(s, t, k, l);
    } else {
      OtherAction(s, a, t);
      OwedKept(s, Do(s, a), t, k, l);
    }
  }

  lemma {:induction false} AlwaysBalance(locks: nat, condLocks: seq<nat>, before: seq<Action>, did: seq<Action>, t: nat, call: Call, k: nat, l: nat)
    requires Starts(locks, condLocks) && InCall(locks, condLocks, before, did, t, call)
    ensures Balance(locks, condLocks, before, did, t, call, k, l)
    decreases |did|
  {
    if |did| == 1 {
      FirstBalance(locks, condLocks, before, did, t, call, k, l);
    } else {
      var past := did[..|did| - 1];
      forall j | 0 < j < |past|
        ensures var x := After(locks, condLocks, before + past[..j]); t < |x.threads| && !x.threads[t].pc.Run?
      {
        assert past[..j] == did[..j];
      }
      AlwaysBalance(locks, condLocks, before, past, t, call, k, l);
      NextBalance(locks, condLocks, before, did, t, call, k, l);
    }
  }

  // ---------- Queues ----------

  /** Where a thread is in a signal or broadcast, and what is left of the queue. */
  ghost predicate QueueOk(s0: State, s: State, t: nat, call: Call) {
    && Shape(s) && t < |s.threads| && |s.conds| == |s0.conds|
    && var pc := s.threads[t].pc;
       match call
       case CondSignal(c) =>
         && c < |s.conds| && HoldsCond(s, t, c) && (pc.Run? || (pc.Raise? && pc.next.Run?))
         && s.conds[c].waiters == if s0.conds[c].waiters == [] then [] else s0.conds[c].waiters[1..]
       case CondBroadcast(c) =>
         c < |s.conds| && (pc == Broadcast(c) || (pc.Raise? && pc.next == Broadcast(c)) || (pc.Run? && s.conds[c].waiters == []))
       case _ => true
  }

  lemma BeginQueue(s: State, t: nat, call: Call)
    requires Placed(s) && Inv(s) && s.current == Some(t) && s.threads[t].pc.Run? && Asserted(s, t, call)
    ensures QueueOk(s, Do(s, Begin(call)), t, call)
  {
    assert MayCall(s, t, call);
    CallShape(s, t, call);
  }

  lemma StepQueue(s0: State, s: State, t: nat, call: Call)
    requires Placed(s) && Inv(s) && s.current == Some(t) && QueueOk(s0, s, t, call) && !s.threads[t].pc.Run?
    ensures QueueOk(s0, Step(s, t), t, call)
  {
    StepShape(s, t);
    assert s.threads[t].status == Running;
    var pc := s.threads[t].pc;
    assert PcOk(pc, |s.semas|, |s.holders|, |s.conds|);
    if pc.Raise? {
      assert WaitersOk(s, pc.s);
      if s.semas[pc.s].waiters != [] {
        assert Sleeps(s, s.semas[pc.s].waiters[0], pc.s);
      }
    }
  }

  lemma OneMoreQueue(s0: State, s: State, a: Action, t: nat, call: Call)
    requires Placed(s) && Inv(s) && QueueOk(s0, s, t, call) && !s.threads[t].pc.Run?
    ensures QueueOk(s0, Do(s, a), t, call)
  {
    hide Step;
    DoShape(s, a);
    if Mine(s, a, t) {
      StepQueue(s0, s, t, call);
    } else {
      OtherAction(s, a, t);
    }
  }

  lemma {:induction false} AlwaysQueue(locks: nat, condLocks: seq<nat>, before: seq<Action>, did: seq<Action>, t: nat, call: Call)
    requires Starts(locks, condLocks) && InCall(locks, condLocks, before, did, t, call)
    ensures QueueOk(After(locks, condLocks, before), After(locks, condLocks, before + did), t, call)
    decreases |did|
  {
    hide Do, QueueOk, Asserted, Inv, Placed;
    var past := did[..|did| - 1];
    AlwaysInv(locks, condLocks, before + past);
    AlwaysPlaced(locks, condLocks, before + past);
    Longer(locks, condLocks, before, did);
    if |did| == 1 {
      assert before + past == before;
      BeginQueue(After(locks, condLocks, before), t, call);
    } else {
      forall j | 0 < j < |past|
        ensures var x := After(locks, condLocks, before + past[..j]); t < |x.threads| && !x.threads[t].pc.Run?
      {
        assert past[..j] == did[..j];
      }
      AlwaysQueue(locks, condLocks, before, past, t, call);
      OneMoreQueue(After(locks, condLocks, before), After(locks, condLocks, before + past), did[|did| - 1], t, call);
    }
  }

  // ---------- Signalled ----------

  lemma {:induction false} ByCounts(locks: nat, condLocks: seq<nat>, before: seq<Action>, did: seq<Action>, t: nat, k: nat)
    ensures Ups(locks, condLocks, before + did, k) >= Ups(locks, condLocks, before, k) + UpsBy(locks, condLocks, before, did, t, k)
    ensures Downs(locks, condLocks, before + did, k) >= Downs(locks, condLocks, before, k) + DownsBy(locks, condLocks, before, did, t, k)
    decreases |did|
  {
    hide UpAt, DownAt, After;
    var run := before + did;
    if did == [] {
      assert run == before;
    } else {
      var past := did[..|did| - 1];
      assert run[..|run| - 1] == before + past && run[|run| - 1] == did[|did| - 1];
      ByCounts(locks, condLocks, before, past, t, k);
      MoreUps(locks, condLocks, run, k);
    }
  }

  lemma MoreUps(locks: nat, condLocks: seq<nat>, run: seq<Action>, k: nat)
    requires run != []
    ensures var past := run[..|run| - 1];
      var s, a := After(locks, condLocks, past), run[|run| - 1];
      && Ups(locks, condLocks, run, k) == Ups(locks, condLocks, past, k) + Bit(UpAt(s, a, k))
      && Downs(locks, condLocks, run, k) == Downs(locks, condLocks, past, k) + Bit(DownAt(s, a, k))
  {
    hide UpAt, DownAt, After;
  }

  /** The semaphore that cond_wait sleeps on begins with value 0. */
  lemma {:induction false} OwnSemaphore(locks: nat, condLocks: seq<nat>, before: seq<Action>, did: seq<Action>, t: nat, c: nat)
    requires Starts(locks, condLocks) && InCall(locks, condLocks, before, did, t, CondWait(c))
    ensures var w, s := |After(locks, condLocks, before).semas|, After(locks, condLocks, before + did);
      w < |s.semas| && s.semas[w].init == 0
    decreases |did|
  {
    var past, a := did[..|did| - 1], did[|did| - 1];
    var s := After(locks, condLocks, before + past);
    AlwaysPlaced(locks, condLocks, before + past);
    Longer(locks, condLocks, before, did);
    if |did| == 1 {
      assert before + past == before;
      assert MayCall(s, t, CondWait(c));
    } else {
      hide Do, UpAt, DownAt;
      forall j | 0 < j < |past|
        ensures var x := After(locks, condLocks, before + past[..j]); t < |x.threads| && !x.threads[t].pc.Run?
      {
        assert past[..j] == did[..j];
      }
      OwnSemaphore(locks, condLocks, before, past, t, c);
      ActionCounts(s, a, |After(locks, condLocks, before).semas|);
    }
  }

  /** A cond_wait that returns has been signalled: its own semaphore has been raised and is no
      longer queued. */
  lemma Signalled(locks: nat, condLocks: seq<nat>, before: seq<Action>, did: seq<Action>, t: nat, c: nat)
    requires Starts(locks, condLocks) && InCall(locks, condLocks, before, did, t, CondWait(c))
    requires DownsBy(locks, condLocks, before, did, t, |After(locks, condLocks, before).semas|) >= 1
    ensures Unqueued(After(locks, condLocks, before + did), c, |After(locks, condLocks, before).semas|)
    ensures Ups(locks, condLocks, before + did, |After(locks, condLocks, before).semas|) >= 1
  {
    var run, w := before + did, |After(locks, condLocks, before).semas|;
    var s := After(locks, condLocks, run);
    OwnSemaphore(locks, condLocks, before, did, t, c);
    ByCounts(locks, condLocks, before, did, t, w);
    SemaphoreAccounting(locks, condLocks, run, w);
    CountsAreSteps(locks, condLocks, run, w);
    AlwaysQueue(locks, condLocks, before, did, t, CondWait(c));
    forall i | 0 <= i < |s.conds[c].waiters| ensures s.conds[c].waiters[i] != w {
      NoWakeupWithoutSignal(locks, condLocks, run, c, i);
    }
  }

  // ---------- Every call of every run ----------

  /** A call that has returned owes nothing. */
  lemma Paid(locks: nat, condLocks: seq<nat>, before: seq<Action>, did: seq<Action>, t: nat, call: Call, k: nat, l: nat)
    requires Starts(locks, condLocks) && InCall(locks, condLocks, before, did, t, call)
    requires var s := After(locks, condLocks, before + did); t < |s.threads| && s.threads[t].pc.Run?
    ensures var s0 := After(locks, condLocks, before);
      && UpsBy(locks, condLocks, before, did, t, k) == Raises(s0, call, k)
      && DownsBy(locks, condLocks, before, did, t, k) == Lowers(s0, call, k)
      && StepsBy(locks, condLocks, before, did, t) == Work(s0, call)
      && (Held(After(locks, condLocks, before + did), t, l) <==> Holds(s0, t, call, l))
  {
    hide InCall, Raises, Lowers, Work, Holds, Held, After, UpsBy, DownsBy, StepsBy;
    AlwaysBalance(locks, condLocks, before, did, t, call, k, l);
  }

  /** What is left of the queue when a signal, which takes the first waiter, or a broadcast, which
      takes all, returns. */
  ghost predicate QueueAfter(s0: State, s: State, call: Call) {
    && |s.conds| == |s0.conds|
    && (call.CondSignal? && call.c < |s.conds| ==>
          s.conds[call.c].waiters == if s0.conds[call.c].waiters == [] then [] else s0.conds[call.c].waiters[1..])
    && (call.CondBroadcast? && call.c < |s.conds| ==> s.conds[call.c].waiters == [])
  }

  /** Semaphore `w` is not queued on condition `c`. */
  ghost predicate Unqueued(s: State, c: nat, w: nat) {
    c < |s.conds| ==> w !in s.conds[c].waiters
  }

  lemma QueueLeft(locks: nat, condLocks: seq<nat>, before: seq<Action>, did: seq<Action>, t: nat, call: Call)
    requires Starts(locks, condLocks) && InCall(locks, condLocks, before, did, t, call)
    requires var s := After(locks, condLocks, before + did); t < |s.threads| && s.threads[t].pc.Run?
    ensures QueueAfter(After(locks, condLocks, before), After(locks, condLocks, before + did), call)
  {
    hide After, InCall;
    AlwaysQueue(locks, condLocks, before, did, t, call);
  }

  /** When a call returns, whatever the other threads, the timer and interrupts have done
      meanwhile, its thread has itself raised and lowered exactly the semaphores it is to,
      holds exactly the locks it is to, and, in particular:
      cond_signal has taken the first waiter off the queue and raised its semaphore;
      cond_broadcast has emptied the queue and raised the semaphore of each waiter;
      cond_wait holds its lock again and has been signalled. */
  lemma CallDoes(locks: nat, condLocks: seq<nat>, before: seq<Action>, did: seq<Action>, t: nat, call: Call)
    requires Starts(locks, condLocks) && InCall(locks, condLocks, before, did, t, call)
    requires var s := After(locks, condLocks, before + did); t < |s.threads| && s.threads[t].pc.Run?
    ensures forall k: nat ::
      && UpsBy(locks, condLocks, before, did, t, k) == Raises(After(locks, condLocks, before), call, k)
      && DownsBy(locks, condLocks, before, did, t, k) == Lowers(After(locks, condLocks, before), call, k)
    ensures StepsBy(locks, condLocks, before, did, t) == Work(After(locks, condLocks, before), call)
    ensures forall l: nat ::
      Held(After(locks, condLocks, before + did), t, l) <==> Holds(After(locks, condLocks, before), t, call, l)
    ensures QueueAfter(After(locks, condLocks, before), After(locks, condLocks, before + did), call)
    ensures call.CondWait? ==>
      && Unqueued(After(locks, condLocks, before + did), call.c, |After(locks, condLocks, before).semas|)
      && Ups(locks, condLocks, before + did, |After(locks, condLocks, before).semas|) >= 1
  {
    hide *;
    Paid(locks, condLocks, before, did, t, call, 0, 0);
    QueueLeft(locks, condLocks, before, did, t, call);
    forall k: nat
      ensures UpsBy(locks, condLocks, before, did, t, k) == Raises(After(locks, condLocks, before), call, k)
      ensures DownsBy(locks, condLocks, before, did, t, k) == Lowers(After(locks, condLocks, before), call, k)
    {
      Paid(locks, condLocks, before, did, t, call, k, 0);
    }
    forall l: nat
      ensures Held(After(locks, condLocks, before + did), t, l) <==> Holds(After(locks, condLocks, before), t, call, l)
    {
      Paid(locks, condLocks, before, did, t, call, 0, l);
    }
    if call.CondWait? {
      WaitLowers(After(locks, condLocks, before), call.c);
      Signalled(locks, condLocks, before, did, t, call.c);
    }
  }

  lemma WaitLowers(s: State, c: nat)
    ensures Lowers(s, CondWait(c), |s.semas|) >= 1
  {
  }

  /** So each semaphore that is queued when a broadcast begins, and the first one when a signal
      does, is raised before the call returns. */
  lemma SleepersRaised(locks: nat, condLocks: seq<nat>, before: seq<Action>, did: seq<Action>, t: nat, call: Call, w: nat)
    requires Starts(locks, condLocks) && InCall(locks, condLocks, before, did, t, call)
    requires var s := After(locks, condLocks, before + did); t < |s.threads| && s.threads[t].pc.Run?
    requires var s := After(locks, condLocks, before);
      || (call.CondBroadcast? && call.c < |s.conds| && w in s.conds[call.c].waiters)
      || (call.CondSignal? && call.c < |s.conds| && s.conds[call.c].waiters != [] && s.conds[call.c].waiters[0] == w)
    ensures Ups(locks, condLocks, before + did, w) >= Ups(locks, condLocks, before, w) + 1
  {
    hide After, InCall, Ups, UpsBy, DownsBy, StepsBy, Work, Holds, Held, Lowers;
    Paid(locks, condLocks, before, did, t, call, w, 0);
    ByCounts(locks, condLocks, before, did, t, w);
  }

  /** And no call goes on for ever: a thread that has not come back from one has made fewer
      steps in it, other than going to sleep, than the call takes. */
  lemma CallEnds(locks: nat, condLocks: seq<nat>, before: seq<Action>, did: seq<Action>, t: nat, call: Call)
    requires Starts(locks, condLocks) && InCall(locks, condLocks, before, did, t, call)
    ensures var s := After(locks, condLocks, before + did);
      && t < |s.threads|
      && (!s.threads[t].pc.Run? <==> StepsBy(locks, condLocks, before, did, t) < Work(After(locks, condLocks, before), call))
  {
    hide After, InCall, Work, StepsBy, UpsBy, DownsBy, Raises, Lowers, Holds, Held, HoldsThen, UpsOwed, DownsOwed;
    AlwaysBalance(locks, condLocks, before, did, t, call, 0, 0);
  }
}
