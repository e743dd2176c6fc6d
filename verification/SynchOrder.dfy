/** First come, first served: in every run the ready list, the wait list of each semaphore and
    the queue of each condition hold their members in the order in which they came, and give
    up the one that came first. */
module SynchOrder {
  import L = Lists
  import opened Storage
  import opened Counting
  import opened Synch
  import opened SynchPlaces
  import opened SynchSafety

  // ---------- The ready list ----------

  predicate IsReady(s: State, t: nat) {
    t < |s.threads| && s.threads[t].status == Ready
  }

  /** The threads below `n` that are ready in `s'` and were not in `s`. */
  function Fresh(s: State, s': State, n: nat): seq<nat> {
    if n == 0 then []
    else Fresh(s, s', n - 1) + if IsReady(s', n - 1) && !IsReady(s, n - 1) then [n - 1] else []
  }

  /** The threads in the order in which they have become ready during a run. */
  function Readied(locks: nat, condLocks: seq<nat>, run: seq<Action>): seq<nat> {
    if run == [] then []
    else
      var past := run[..|run| - 1];
      var s, s' := After(locks, condLocks, past), After(locks, condLocks, run);
      Readied(locks, condLocks, past) + Fresh(s, s', |s'.threads|)
  }

  /** How often a thread has left the ready list. */
  function Dispatched(locks: nat, condLocks: seq<nat>, run: seq<Action>): nat {
    if run == [] then 0
    else
      var past := run[..|run| - 1];
      var s, s' := After(locks, condLocks, past), After(locks, condLocks, run);
      Dispatched(locks, condLocks, past) + |Fresh(s', s, |s.threads|)|
  }

  lemma {:induction false} FreshNone(s: State, s': State, n: nat)
    requires forall t :: 0 <= t < n && IsReady(s', t) ==> IsReady(s, t)
    ensures Fresh(s, s', n) == []
  {
    if n > 0 { FreshNone(s, s', n - 1); }
  }

  lemma {:induction false} FreshOne(s: State, s': State, n: nat, w: nat)
    requires w < n && IsReady(s', w) && !IsReady(s, w)
    requires forall t :: 0 <= t < n && t != w && IsReady(s', t) ==> IsReady(s, t)
    ensures Fresh(s, s', n) == [w]
  {
    if w == n - 1 { FreshNone(s, s', n - 1); } else { FreshOne(s, s', n - 1, w); }
  }

  lemma ReadyIsListed(s: State, t: nat)
    requires Lists(s)
    ensures IsReady(s, t) <==> t in s.ready
  {
    if t < |s.threads| { assert Listed(s, t); }
  }

  /** The ready list of `s'` is that of `s` with `add` behind it and `drop` members less in front. */
  ghost predicate Served(s: State, s': State, add: seq<nat>, drop: nat) {
    && |add| <= 1 && drop <= 1 && drop <= |s.ready + add|
    && (forall i :: 0 <= i < |add| ==> add[i] !in s.ready)
    && s'.ready == (s.ready + add)[drop..]
  }

  lemma CameNone(s: State, s': State)
    requires Lists(s) && Lists(s') && forall t: nat :: t in s'.ready ==> t in s.ready
    ensures Fresh(s, s', |s'.threads|) == []
  {
    hide Lists, IsReady, Fresh;
    forall t | 0 <= t < |s'.threads| && IsReady(s', t) ensures IsReady(s, t) {
      ReadyIsListed(s, t);
      ReadyIsListed(s', t);
    }
    FreshNone(s, s', |s'.threads|);
  }

  lemma CameOne(s: State, s': State, w: nat)
    requires Lists(s) && Lists(s') && w in s'.ready && w !in s.ready
    requires forall t: nat :: t in s'.ready && t != w ==> t in s.ready
    ensures Fresh(s, s', |s'.threads|) == [w]
  {
    ReadyIsListed(s, w);
    ReadyIsListed(s', w);
    assert w < |s'.threads|;
    hide Lists, IsReady, Fresh;
    forall t | 0 <= t < |s'.threads| && t != w && IsReady(s', t) ensures IsReady(s, t) {
      ReadyIsListed(s, t);
      ReadyIsListed(s', t);
    }
    FreshOne(s, s', |s'.threads|, w);
  }

  /** What is in a list and in the same list with a member more behind it and the first gone. */
  lemma ListMoves(xs: seq<nat>, add: seq<nat>, drop: nat, ys: seq<nat>)
    requires L.NoDup(xs) && |add| <= 1 && drop <= 1 && drop <= |xs| && ys == (xs + add)[drop..]
    requires forall i :: 0 <= i < |add| ==> add[i] !in xs
    ensures forall t: nat :: t in ys ==> t in xs || t in add
    ensures forall t: nat :: t in xs ==> t in ys || (drop == 1 && t == xs[0])
    ensures add != [] ==> add[0] in ys
    ensures drop == 1 ==> xs[0] !in ys
  {
    forall t: nat | t in xs ensures t in ys || (drop == 1 && t == xs[0]) {
      var i :| 0 <= i < |xs| && xs[i] == t;
      if i >= drop { assert ys[i - drop] == t; }
    }
    if add != [] { assert ys[|ys| - 1] == add[0]; }
  }

  /** Then the threads that have become ready are those in `add`, or none when they have left at
      once, and likewise for those that have left. */
  lemma ServedFresh(s: State, s': State, add: seq<nat>, drop: nat)
    requires Lists(s) && Lists(s') && Served(s, s', add, drop)
    ensures var came, left := Fresh(s, s', |s'.threads|), Fresh(s', s, |s.threads|);
      |left| <= |s.ready + came| && s'.ready == (s.ready + came)[|left|..]
  {
    if s.ready == [] && drop == 1 {
      hide Lists, Fresh;
      assert s'.ready == [];
      CameNone(s, s');
      CameNone(s', s);
    } else {
      ServedExactly(s, s', add, drop);
    }
  }

  lemma ServedExactly(s: State, s': State, add: seq<nat>, drop: nat)
    requires Lists(s) && Lists(s') && Served(s, s', add, drop) && !(s.ready == [] && drop == 1)
    ensures Fresh(s, s', |s'.threads|) == add && |Fresh(s', s, |s.threads|)| == drop
  {
    assert L.NoDup(s.ready);
    ListMoves(s.ready, add, drop, s'.ready);
    hide Lists, Fresh, Served;
    if add == [] {
      CameNone(s, s');
    } else {
      CameOne(s, s', add[0]);
    }
    if drop == 0 { CameNone(s', s); } else { CameOne(s', s, s.ready[0]); }
  }

  lemma UpServed(s: State, k: nat) returns (add: seq<nat>)
    requires Placed(s) && k < |s.semas|
    ensures Served(s, UpSema(s, k), add, 0)
  {
    assert WaitersOk(s, k);
    if s.semas[k].waiters == [] {
      add := [];
    } else {
      add := [s.semas[k].waiters[0]];
      assert Sleeps(s, add[0], k);
    }
  }

  lemma StepServed(s: State, t: nat) returns (add: seq<nat>, drop: nat)
    requires Placed(s) && s.current == Some(t)
    ensures Served(s, Step(s, t), add, drop)
  {
    var pc := s.threads[t].pc;
    assert PcOk(pc, |s.semas|, |s.holders|, |s.conds|) && s.threads[t].status == Running;
    add, drop := [], 0;
    if pc.Raise? {
      SameLists(s, s.SetPc(t, pc.next));
      add := UpServed(s.SetPc(t, pc.next), pc.s);
    } else if pc.Want? && s.semas[pc.s].value == 0 && s.ready != [] {
      drop := 1;
    }
  }

  lemma DoServed(s: State, a: Action) returns (add: seq<nat>, drop: nat)
    requires Placed(s)
    ensures Served(s, Do(s, a), add, drop)
  {
    add, drop := [], 0;
    match a
    case Go => if s.current.Some? { add, drop := StepServed(s, s.current.value); }
    case Begin(call) =>
      if s.current.Some? && s.threads[s.current.value].pc.Run? && MayCall(s, s.current.value, call) {
        if call.Create? { add := [|s.threads|]; }
        if call.Exit? && s.ready != [] { drop := 1; }
      }
    case Preempt => if s.current.Some? { add, drop := [s.current.value], 1; }
    case IrqUp(k) => if Public(s, k) { add := UpServed(s, k); }
    case Resume => if s.current.None? && s.ready != [] { drop := 1; }
    case NewSema(_) =>
  }

  /** In every run the ready list is the threads that have become ready, in that order, but for
      those that left first. */
  lemma {:induction false} ReadyInOrder(locks: nat, condLocks: seq<nat>, run: seq<Action>)
    requires Starts(locks, condLocks)
    ensures Dispatched(locks, condLocks, run) <= |Readied(locks, condLocks, run)|
    ensures After(locks, condLocks, run).ready == Readied(locks, condLocks, run)[Dispatched(locks, condLocks, run)..]
  {
    if run != [] {
      var past := run[..|run| - 1];
      var s, s' := After(locks, condLocks, past), After(locks, condLocks, run);
      hide Do, Fresh, Lists, Cpu, Served;
      ReadyInOrder(locks, condLocks, past);
      AlwaysPlaced(locks, condLocks, past);
      AlwaysPlaced(locks, condLocks, run);
      var add, drop := DoServed(s, run[|run| - 1]);
      ServedFresh(s, s', add, drop);
      QueueGoesOn(Readied(locks, condLocks, past), Dispatched(locks, condLocks, past),
                  Fresh(s, s', |s'.threads|), |Fresh(s', s, |s.threads|)|);
    }
  }

  lemma QueueGoesOn(xs: seq<nat>, n: nat, came: seq<nat>, left: nat)
    requires n <= |xs| && left <= |xs[n..] + came|
    ensures n + left <= |xs + came| && (xs[n..] + came)[left..] == (xs + came)[n + left..]
  {
    assert (xs + came)[n..] == xs[n..] + came;
  }

  /** The processor falls idle only when no thread is ready. */
  lemma IdleOnlyWhenNoneReady(locks: nat, condLocks: seq<nat>, run: seq<Action>, a: Action)
    requires Starts(locks, condLocks)
    requires After(locks, condLocks, run).current.Some? && Do(After(locks, condLocks, run), a).current.None?
    ensures Do(After(locks, condLocks, run), a).ready == []
  {
    AlwaysPlaced(locks, condLocks, run);
    IdleStep(After(locks, condLocks, run), a);
  }

  lemma IdleStep(s: State, a: Action)
    requires Shape(s) && s.current.Some? && Do(s, a).current.None?
    ensures Do(s, a).ready == []
  {
    hide PcOk;
    var t := s.current.value;
    assert a.Go? && s.threads[t].pc.Want? ==> s.threads[t].pc.s < |s.semas| by { GoPoint(s, t); }
    assert a.Go? && s.threads[t].pc.Raise? ==> s.threads[t].pc.s < |s.semas| by { GoPoint(s, t); }
  }

  lemma GoPoint(s: State, t: nat)
    requires Shape(s) && t < |s.threads|
    ensures PcOk(s.threads[t].pc, |s.semas|, |s.holders|, |s.conds|)
    ensures s.threads[t].pc.Want? || s.threads[t].pc.Raise? ==> s.threads[t].pc.s < |s.semas|
  {
  }

  // ---------- Wait lists ----------

  lemma SuffixMoves(xs: seq<nat>, n: nat)
    requires n <= |xs|
    ensures forall x: nat :: (xs + [x])[n..] == xs[n..] + [x]
    ensures n < |xs| ==> xs[n..] != [] && xs[n..][1..] == xs[n + 1..]
    ensures xs[n..] == [] <==> n == |xs|
    ensures xs + [] == xs
  {
  }

  /** Action `a` puts the running thread to sleep in sema_down on semaphore `k`. */
  predicate SleepsAt(s: State, a: Action, k: nat) {
    && a.Go? && s.current.Some? && s.current.value < |s.threads|
    && var t := s.current.value;
       && s.threads[t].pc.Want? && s.threads[t].pc.s == k
       && t < |Do(s, a).threads| && Do(s, a).threads[t].status == Blocked
  }

  /** The threads in the order in which they have gone to sleep on semaphore `k`. */
  function Slept(locks: nat, condLocks: seq<nat>, run: seq<Action>, k: nat): seq<nat> {
    if run == [] then []
    else
      var past := run[..|run| - 1];
      var s := After(locks, condLocks, past);
      Slept(locks, condLocks, past, k) + if SleepsAt(s, run[|run| - 1], k) then [s.current.value] else []
  }

  /** How many sema_ups there have been while somebody slept. */
  function Roused(locks: nat, condLocks: seq<nat>, run: seq<Action>, k: nat): nat {
    if run == [] then 0
    else
      var past := run[..|run| - 1];
      var n := Roused(locks, condLocks, past, k);
      n + Bit(n < |Slept(locks, condLocks, past, k)| && UpAt(After(locks, condLocks, past), run[|run| - 1], k))
  }

  lemma WaitersMove(s: State, a: Action, k: nat)
    requires Placed(s)
    ensures |s.semas| <= |Do(s, a).semas|
    ensures k < |s.semas| ==>
      Do(s, a).semas[k].waiters ==
        (if SleepsAt(s, a, k) then s.semas[k].waiters + [s.current.value]
         else if UpAt(s, a, k) && s.semas[k].waiters != [] then s.semas[k].waiters[1..]
         else s.semas[k].waiters)
    ensures !(SleepsAt(s, a, k) && UpAt(s, a, k))
    ensures k >= |s.semas| ==> !SleepsAt(s, a, k) && (k < |Do(s, a).semas| ==> Do(s, a).semas[k].waiters == [])
  {
    if a.Go? && s.current.Some? {
      var t := s.current.value;
      assert PcOk(s.threads[t].pc, |s.semas|, |s.holders|, |s.conds|) && s.threads[t].status == Running;
    }
  }

  /** In every run the wait list of a semaphore is the threads that have gone to sleep on it, in
      that order, but for as many in front as sema_ups have found somebody asleep. */
  lemma {:induction false} WaitersInOrder(locks: nat, condLocks: seq<nat>, run: seq<Action>, k: nat)
    requires Starts(locks, condLocks)
    ensures Roused(locks, condLocks, run, k) <= |Slept(locks, condLocks, run, k)|
    ensures var s, asleep := After(locks, condLocks, run), Slept(locks, condLocks, run, k)[Roused(locks, condLocks, run, k)..];
      if k < |s.semas| then s.semas[k].waiters == asleep else asleep == []
  {
    if run != [] {
      hide Do, SleepsAt, UpAt, Lists, Cpu;
      var past := run[..|run| - 1];
      WaitersInOrder(locks, condLocks, past, k);
      AlwaysPlaced(locks, condLocks, past);
      WaitersMove(After(locks, condLocks, past), run[|run| - 1], k);
      SuffixMoves(Slept(locks, condLocks, past, k), Roused(locks, condLocks, past, k));
    }
  }

  // ---------- Condition queues ----------

  /** With action `a` the running thread calls cond_wait on condition `c`. */
  predicate WaitsAt(s: State, a: Action, c: nat) {
    && a == Begin(CondWait(c)) && s.current.Some? && s.current.value < |s.threads|
    && s.threads[s.current.value].pc.Run? && Shape(s) && HoldsCond(s, s.current.value, c)
  }

  /** With action `a` it calls cond_signal, or is at the loop of cond_broadcast. */
  predicate SignalsAt(s: State, a: Action, c: nat) {
    && s.current.Some? && s.current.value < |s.threads| && Shape(s)
    && var pc := s.threads[s.current.value].pc;
       if a.Go? then pc == Broadcast(c)
       else a == Begin(CondSignal(c)) && pc.Run? && HoldsCond(s, s.current.value, c)
  }

  /** The private semaphores of the calls of cond_wait, in the order of the calls. */
  function Joined(locks: nat, condLocks: seq<nat>, run: seq<Action>, c: nat): seq<nat> {
    if run == [] then []
    else
      var past := run[..|run| - 1];
      var s := After(locks, condLocks, past);
      Joined(locks, condLocks, past, c) + if WaitsAt(s, run[|run| - 1], c) then [|s.semas|] else []
  }

  /** How many signals there have been while somebody waited. */
  function Released(locks: nat, condLocks: seq<nat>, run: seq<Action>, c: nat): nat {
    if run == [] then 0
    else
      var past := run[..|run| - 1];
      var n := Released(locks, condLocks, past, c);
      n + Bit(n < |Joined(locks, condLocks, past, c)| && SignalsAt(After(locks, condLocks, past), run[|run| - 1], c))
  }

  lemma QueueMoves(s: State, a: Action, c: nat)
    requires Shape(s)
    ensures |Do(s, a).conds| == |s.conds|
    ensures !(WaitsAt(s, a, c) && SignalsAt(s, a, c))
    ensures if c < |s.conds| then Do(s, a).conds[c].waiters ==
      (if WaitsAt(s, a, c) then s.conds[c].waiters + [|s.semas|]
       else if SignalsAt(s, a, c) && s.conds[c].waiters != [] then s.conds[c].waiters[1..]
       else s.conds[c].waiters)
      else !WaitsAt(s, a, c)
  {
    if a.Go? && s.current.Some? {
      assert PcOk(s.threads[s.current.value].pc, |s.semas|, |s.holders|, |s.conds|);
    }
  }

  /** In every run the queue of a condition is its waiters in the order in which they called
      cond_wait, but for as many in front as signals have found somebody waiting. */
  lemma {:induction false} QueueInOrder(locks: nat, condLocks: seq<nat>, run: seq<Action>, c: nat)
    requires Starts(locks, condLocks) && c < |condLocks|
    ensures Released(locks, condLocks, run, c) <= |Joined(locks, condLocks, run, c)|
    ensures var s := After(locks, condLocks, run);
      c < |s.conds| && s.conds[c].waiters == Joined(locks, condLocks, run, c)[Released(locks, condLocks, run, c)..]
  {
    if run != [] {
      hide Do, WaitsAt, SignalsAt, Lists, Cpu;
      var past := run[..|run| - 1];
      QueueInOrder(locks, condLocks, past, c);
      AlwaysPlaced(locks, condLocks, past);
      assert Shape(After(locks, condLocks, past));
      QueueMoves(After(locks, condLocks, past), run[|run| - 1], c);
      SuffixMoves(Joined(locks, condLocks, past, c), Released(locks, condLocks, past, c));
    }
  }
}
