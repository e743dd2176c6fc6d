/** threads/synch.c over the scheduler of threads/thread.c as a state machine: one
    processor, a FIFO ready list, and semaphores, locks and condition variables
    whose operations may be preempted between any two steps. */
module Synch {
  import opened Storage

  /** A semaphore; `init`, `ups` and `downs` record its history, and `private` marks the
      semaphore a thread sleeps on inside cond_wait. */
  datatype Sema = Sema(value: nat, waiters: seq<nat>, private: bool, init: nat, ups: nat, downs: nat)

  /** A condition variable and the lock it is used with; each waiter is the private
      semaphore of one sleeping thread. */
  datatype Cond = Cond(lock: nat, waiters: seq<nat>)

  /** What a thread does next. */
  datatype Pc =
    | Run                                       // ordinary code
    | Want(s: nat, woken: bool, next: Pc)       // at the loop of sema_down
    | Raise(s: nat, next: Pc)                   // about to sema_up
    | Take(l: nat)                              // lock_acquire past its sema_down
    | Clear(l: nat, next: Pc)                   // about to clear the lock's holder
    | Broadcast(c: nat)                         // at the loop of cond_broadcast

  datatype Status = Running | Ready | Blocked | Dying

  datatype Thread = Thread(status: Status, pc: Pc)

  /** Lock `l` is `holders[l]` together with semaphore number `l`; the other semaphores
      come after those.  `current` is None while the idle thread runs. */
  datatype State = State(
    threads: seq<Thread>,
    current: Option<nat>,
    ready: seq<nat>,
    semas: seq<Sema>,
    holders: seq<Option<nat>>,
    conds: seq<Cond>
  ) {
    function SetPc(t: nat, pc: Pc): State
      requires t < |threads|
    {
      this.(threads := threads[t := threads[t].(pc := pc)])
    }

    function SetSema(k: nat, s: Sema): State
      requires k < |semas|
    {
      this.(semas := semas[k := s])
    }
  }

  // ---------- Shape ----------

  predicate PcOk(pc: Pc, semas: nat, locks: nat, conds: nat)
    decreases pc
  {
    match pc
    case Run => true
    case Want(k, _, next) => k < semas && PcOk(next, semas, locks, conds)
    case Raise(k, next) => k < semas && PcOk(next, semas, locks, conds)
    case Take(l) => l < locks
    case Clear(l, next) => l < locks && PcOk(next, semas, locks, conds)
    case Broadcast(c) => c < conds
  }

  predicate Below(xs: seq<nat>, n: nat) {
    forall i :: 0 <= i < |xs| ==> xs[i] < n
  }

  predicate Shape(s: State) {
    && |s.holders| <= |s.semas|
    && (s.current.Some? ==> s.current.value < |s.threads|)
    && Below(s.ready, |s.threads|)
    && (forall t :: 0 <= t < |s.threads| ==> PcOk(s.threads[t].pc, |s.semas|, |s.holders|, |s.conds|))
    && (forall k :: 0 <= k < |s.semas| ==> Below(s.semas[k].waiters, |s.threads|))
    && (forall c :: 0 <= c < |s.conds| ==> s.conds[c].lock < |s.holders| && Below(s.conds[c].waiters, |s.semas|))
  }

  // ---------- Scheduling ----------

  /** schedule: the front of the ready list runs next, or the idle thread. */
  function Schedule(s: State): State
    requires Below(s.ready, |s.threads|)
  {
    if s.ready == [] then s.(current := None)
    else
      s.(current := Some(s.ready[0]), ready := s.ready[1..],
         threads := s.threads[s.ready[0] := s.threads[s.ready[0]].(status := Running)])
  }

  /** thread_block. */
  function Block(s: State, t: nat): State
    requires t < |s.threads| && Below(s.ready, |s.threads|)
  {
    Schedule(s.(threads := s.threads[t := s.threads[t].(status := Blocked)]))
  }

  /** thread_yield. */
  function Yield(s: State, t: nat): State
    requires t < |s.threads| && Below(s.ready, |s.threads|)
  {
    Schedule(s.(threads := s.threads[t := s.threads[t].(status := Ready)], ready := s.ready + [t]))
  }

  // ---------- Semaphores ----------

  /** One round of the loop of sema_down: sleep, or take a unit and go on. */
  function DownRound(s: State, t: nat, k: nat, next: Pc): State
    requires Shape(s) && t < |s.threads| && k < |s.semas|
  {
    var x := s.semas[k];
    if x.value == 0 then
      Block(s.SetSema(k, x.(waiters := x.waiters + [t])).SetPc(t, Want(k, false, next)), t)
    else TakeUnit(s, k).SetPc(t, next)
  }

  function TakeUnit(s: State, k: nat): State
    requires k < |s.semas| && s.semas[k].value > 0
  {
    s.SetSema(k, s.semas[k].(value := s.semas[k].value - 1, downs := s.semas[k].downs + 1))
  }

  /** sema_up: wakes the first waiter, if any, and adds a unit. */
  function UpSema(s: State, k: nat): State
    requires Shape(s) && k < |s.semas|
  {
    var x := s.semas[k];
    var y := x.(value := x.value + 1, ups := x.ups + 1);
    if x.waiters == [] then s.SetSema(k, y)
    else Wake(s.SetSema(k, y.(waiters := x.waiters[1..])), x.waiters[0])
  }

  /** thread_unblock of a thread that sleeps in sema_down. */
  function Wake(s: State, w: nat): State
    requires w < |s.threads|
  {
    var pc := s.threads[w].pc;
    s.(threads := s.threads[w := Thread(Ready, if pc.Want? then pc.(woken := true) else pc)], ready := s.ready + [w])
  }

  // ---------- One step of the running thread ----------

  function Step(s: State, t: nat): State
    requires Shape(s) && t < |s.threads|
  {
    match s.threads[t].pc
    case Run => s
    case Want(k, _, next) => DownRound(s, t, k, next)
    case Raise(k, next) => UpSema(s.SetPc(t, next), k)
    case Take(l) => s.(holders := s.holders[l := Some(t)]).SetPc(t, Run)
    case Clear(l, next) => s.(holders := s.holders[l := None]).SetPc(t, next)
    case Broadcast(c) => Signal(s, t, c, Broadcast(c))
  }

  /** cond_signal: the first sleeper's semaphore is to be raised. */
  function Signal(s: State, t: nat, c: nat, next: Pc): State
    requires Shape(s) && t < |s.threads| && c < |s.conds|
  {
    var x := s.conds[c];
    if x.waiters == [] then s.SetPc(t, Run)
    else s.(conds := s.conds[c := x.(waiters := x.waiters[1..])]).SetPc(t, Raise(x.waiters[0], next))
  }

  /** cond_wait: queue a private semaphore, release the lock, sleep, reacquire. */
  function Wait(s: State, t: nat, c: nat): State
    requires Shape(s) && t < |s.threads| && c < |s.conds|
  {
    var w, l := |s.semas|, s.conds[c].lock;
    s.(semas := s.semas + [Sema(0, [], true, 0, 0, 0)],
       conds := s.conds[c := s.conds[c].(waiters := s.conds[c].waiters + [w])])
     .SetPc(t, Clear(l, Raise(l, Want(w, false, Want(l, false, Take(l))))))
  }

  // ---------- Actions ----------

  datatype Call =
    | Down(k: nat) | TryDown(k: nat) | Up(k: nat)
    | Acquire(l: nat) | TryAcquire(l: nat) | Release(l: nat)
    | CondWait(c: nat) | CondSignal(c: nat) | CondBroadcast(c: nat)
    | Create | Exit

  datatype Action =
    | Go                    // the running thread takes a step inside an operation
    | Begin(call: Call)     // the running thread calls an operation
    | Preempt               // timer interrupt, or thread_yield
    | IrqUp(k: nat)         // an interrupt handler calls sema_up
    | Resume                // the idle thread gives way
    | NewSema(value: nat)   // sema_init

  predicate Public(s: State, k: nat) {
    |s.holders| <= k < |s.semas| && !s.semas[k].private
  }

  predicate HoldsCond(s: State, t: nat, c: nat)
    requires Shape(s)
  {
    c < |s.conds| && s.holders[s.conds[c].lock] == Some(t)
  }

  /** The ASSERTs at the head of each operation, and valid arguments. */
  predicate MayCall(s: State, t: nat, call: Call)
    requires Shape(s)
  {
    match call
    case Down(k) => Public(s, k)
    case TryDown(k) => Public(s, k)
    case Up(k) => Public(s, k)
    case Acquire(l) => l < |s.holders| && s.holders[l] != Some(t)
    case TryAcquire(l) => l < |s.holders| && s.holders[l] != Some(t)
    case Release(l) => l < |s.holders| && s.holders[l] == Some(t)
    case CondWait(c) => HoldsCond(s, t, c)
    case CondSignal(c) => HoldsCond(s, t, c)
    case CondBroadcast(c) => HoldsCond(s, t, c)
    case Create => true
    case Exit => true
  }

  function DoCall(s: State, t: nat, call: Call): State
    requires Shape(s) && t < |s.threads| && MayCall(s, t, call)
  {
    match call
    case Down(k) => s.SetPc(t, Want(k, false, Run))
    case TryDown(k) => if s.semas[k].value > 0 then TakeUnit(s, k) else s
    case Up(k) => s.SetPc(t, Raise(k, Run))
    case Acquire(l) => s.SetPc(t, Want(l, false, Take(l)))
    case TryAcquire(l) => if s.semas[l].value > 0 then TakeUnit(s, l).SetPc(t, Take(l)) else s
    case Release(l) => s.SetPc(t, Clear(l, Raise(l, Run)))
    case CondWait(c) => Wait(s, t, c)
    case CondSignal(c) => Signal(s, t, c, Run)
    case CondBroadcast(c) => s.SetPc(t, Broadcast(c))
    case Create => s.(threads := s.threads + [Thread(Ready, Run)], ready := s.ready + [|s.threads|])
    case Exit => Schedule(s.(threads := s.threads[t := s.threads[t].(status := Dying)]))
  }

  function DoShaped(s: State, a: Action): State
    requires Shape(s)
  {
    match a
    case Go => if s.current.Some? then Step(s, s.current.value) else s
    case Begin(call) =>
      if s.current.Some? && s.threads[s.current.value].pc.Run? && MayCall(s, s.current.value, call)
      then DoCall(s, s.current.value, call) else s
    case Preempt => if s.current.Some? then Yield(s, s.current.value) else s
    case IrqUp(k) => if Public(s, k) then UpSema(s, k) else s
    case Resume => if s.current.None? then Schedule(s) else s
    case NewSema(v) => s.(semas := s.semas + [Sema(v, [], false, v, 0, 0)])
  }

  /** One move of the machine. */
  function Do(s: State, a: Action): State {
    if Shape(s) then DoShaped(s, a) else s
  }

  /** One running thread, `locks` free locks and condition variables for the locks
      listed in `condLocks`. */
  function Init(locks: nat, condLocks: seq<nat>): State {
    State([Thread(Running, Run)], Some(0), [],
          seq(locks, _ => Sema(1, [], false, 1, 0, 0)), seq(locks, _ => None),
          seq(|condLocks|, c requires 0 <= c < |condLocks| => Cond(condLocks[c], [])))
  }

  /** The state after the actions of `run`, in order. */
  function After(locks: nat, condLocks: seq<nat>, run: seq<Action>): State {
    if run == [] then Init(locks, condLocks)
    else Do(After(locks, condLocks, run[..|run| - 1]), run[|run| - 1])
  }
}
