/** The scheduler loop over a FIFO queue, with or without preemption (scheduling.ipynb). */
module Scheduler {
  import opened Arithmetic
  import opened Storage
  import opened Lists
  import opened ScheduleLog
  import opened ScheduleModel
  import opened ScheduleHistory

  datatype Status = Cpu | Io | Done

  /** Thread.run: for up to `q` units (0: no limit), to the end of the burst or of the task. */
  method RunThread(t: Thread, q: nat) returns (t': Thread, runLen: nat, status: Status, ioTime: nat)
    requires t.elapsed <= t.task.total
    ensures t' == t.(elapsed := t.elapsed + runLen, remainingBurst := t'.remainingBurst) && t'.elapsed <= t.task.total
    ensures Runnable(t) && t.task.total > 0 ==> runLen > 0
    ensures q > 0 ==> runLen <= q
    ensures var burst := if t.remainingBurst > 0 then t.remainingBurst else t.task.cpuBurst(t.elapsed);
      && (burst > 0 ==> runLen + t'.remainingBurst == burst)
      && (runLen < q || q == 0 ==> runLen == burst || t'.elapsed == t.task.total)
      && (status == Io ==> runLen == burst > 0)
    ensures status == Done <==> t'.elapsed == t.task.total
    ensures status == Io ==> ioTime == t.task.ioBurst(t'.elapsed)
    ensures var l := Life(Queued, t.elapsed, t.remainingBurst);
      && runLen == RunFor(t.task, l, q) && AfterRun(t.task, l, runLen) == Life(Next(status, ioTime), t'.elapsed, t'.remainingBurst)
  {
    var remaining := t.task.total - t.elapsed;
    ioTime := 0;
    t' := t;
    if t.remainingBurst > 0 {
      runLen := if q > 0 then Min(q, Min(t.remainingBurst, remaining)) else Min(t.remainingBurst, remaining);
      t' := t'.(remainingBurst := t.remainingBurst - runLen, elapsed := t.elapsed + runLen);
      if t'.remainingBurst > 0 {
        status := Cpu;
      } else {
        status := Io;
        ioTime := t.task.ioBurst(t'.elapsed);
      }
    } else {
      var burst := t.task.cpuBurst(t.elapsed);
      if burst == 0 && q == 0 {
        runLen := remaining;
      } else if burst == 0 {
        runLen := Min(q, remaining);
      } else if q == 0 {
        runLen := Min(burst, remaining);
      } else {
        runLen := Min(q, Min(burst, remaining));
      }
      t' := t'.(elapsed := t.elapsed + runLen);
      if burst == 0 {
        status := Cpu;
      } else if runLen < burst {
        t' := t'.(remainingBurst := burst - runLen);
        status := Cpu;
      } else {
        status := Io;
        ioTime := t.task.ioBurst(t'.elapsed);
      }
    }
    if t.task.total - t'.elapsed == 0 {
      status := Done;
    }
  }

  /** The phase of a thread that has run with this outcome. */
  function Next(status: Status, ioTime: nat): Phase {
    match status
    case Cpu => Paused(0)
    case Io => Paused(ioTime)
    case Done => Over
  }

  /** What a round of arrivals leaves as it is. */
  ghost predicate KeptIn(s: Sim, h: Sim, all: seq<Task>, cur: int) {
    && Good(h, all, cur) && cur < |s.threads| <= |h.threads| && h.time == s.time
    && RunTime(h.threads) == RunTime(s.threads) && Pending(h) == Pending(s) && s.ready <= h.ready
    && s.log <= h.log && (Prompt(s) ==> Prompt(h))
    && (cur >= 0 ==> h.threads[cur] == s.threads[cur] && EndOf(h.log, cur) == EndOf(s.log, cur))
    && (forall k :: k in s.io ==> k in h.io || k in h.ready)
    && (forall k :: 0 <= k < |s.threads| ==> h.threads[k].wakeup == s.threads[k].wakeup)
    && (forall q, p :: Told(s, all, q, cur, p) ==> Told(h, all, q, cur, p))
  }

  lemma EnterKeeps(s: Sim, h: Sim, all: seq<Task>, cur: int)
    requires KeptIn(s, h, all, cur) && h.future != [] && h.future[0].arrival <= h.time
    ensures KeptIn(s, Enter(h), all, cur)
  {
    GoodQueues(h, all, cur);
    hide Good, Ran, Waited, EndOf, Spent, Prompt, Told;
    EnterGood(h, all, cur);
    EnterPrompt(h);
    forall q, p | Told(s, all, q, cur, p) ensures Told(Enter(h), all, q, cur, p) {
      EnterTold(h, all, q, cur, p);
    }
    var e := Arrive(h.future[0].arrival, |h.threads|);
    QuietEntry(h.log, e);
    assert cur >= 0 ==> SameFor(h.log, h.log + [e], cur);
  }

  lemma WakeKeeps(s: Sim, h: Sim, all: seq<Task>, cur: int, k: nat)
    requires KeptIn(s, h, all, cur) && k in h.io && k < |h.threads| && k != cur && h.threads[k].wakeup <= h.time
    ensures KeptIn(s, Wake(h, k), all, cur)
  {
    GoodQueues(h, all, cur);
    WaiterNotReady(h, all, cur, k);
    hide Good, Ran, Waited, EndOf, Spent, Prompt, Told;
    WakeGood(h, all, cur, k);
    WakePrompt(h, k);
    forall q, p | Told(s, all, q, cur, p) ensures Told(Wake(h, k), all, q, cur, p) {
      WakeTold(h, all, q, cur, p, k);
    }
    var t := h.threads[k];
    RunTimeUpdate(h.threads, k, t.(lastQueued := t.wakeup));
    QuietEntry(h.log, Wakeup(t.wakeup, k));
    assert cur >= 0 ==> SameFor(h.log, h.log + [Wakeup(t.wakeup, k)], cur);
    WithoutLength(h.io, k);
    WithoutKeeps(h.io, k);
  }

  lemma KeptWaiters(s: Sim, h: Sim, all: seq<Task>, cur: int)
    requires KeptIn(s, h, all, cur)
    ensures NoDup(h.io) && forall k :: k in h.io ==> k < |h.threads| && k != cur
  {
    WaitersOk(h, all, cur);
  }

  class Machine {
    const q: nat
    ghost const all: seq<Task>
    var time: nat
    var future: seq<Task>
    var io: seq<nat>
    var ready: seq<nat>
    var threads: seq<Thread>
    var log: seq<Entry>

    ghost function State(): Sim
      reads this
    {
      Sim(time, future, io, ready, threads, log)
    }

    constructor (tasks: seq<Task>, q: nat)
      ensures this.q == q && all == Stream(tasks) && Good(State(), all, -1) && Prompt(State()) && time == 0 && log == [Start]
      ensures ready == [] && io == [] && threads == [] && Told(State(), all, q, -1, Over)
    {
      this.q := q;
      this.all := Stream(tasks);
      time, io, ready, threads, log := 0, [], [], [], [Start];
      future := Stream(tasks);
      hide Good, Prompt, Told, Stream;
      new;
      StartGood(State(), tasks);
      StartTold(State(), all, q);
    }

    // ---------- Machine._arrivals ----------

    ghost predicate Kept(s: Sim, cur: int)
      reads this
    {
      KeptIn(s, State(), all, cur)
    }

    method EnterOne(ghost s: Sim, ghost cur: int)
      requires Kept(s, cur) && future != [] && future[0].arrival <= time
      modifies `future, `ready, `threads, `log
      ensures Kept(s, cur) && ready != [] && future == old(future)[1..]
    {
      hide KeptIn;
      ghost var h := State();
      EnterKeeps(s, h, all, cur);
      var t, n := future[0], |threads|;
      future := future[1..];
      threads := threads + [Thread(t, 0, t.arrival, 0, 0, 0)];
      ready := ready + [n];
      log := log + [Arrive(t.arrival, n)];
      assert State() == Enter(h);
    }

    method WakeOne(k: nat, ghost s: Sim, ghost cur: int)
      requires Kept(s, cur) && k in io && k < |threads| && k != cur && threads[k].wakeup <= time
      modifies `io, `ready, `threads, `log
      ensures Kept(s, cur) && io == Without(old(io), k) && |threads| == |old(threads)| && |old(ready)| <= |ready|
      ensures forall j :: 0 <= j < |threads| ==> threads[j].wakeup == old(threads)[j].wakeup
    {
      hide KeptIn;
      ghost var h := State();
      WakeKeeps(s, h, all, cur, k);
      var t := threads[k];
      io := Without(io, k);
      threads := threads[k := t.(lastQueued := t.wakeup)];
      ready := ready + [k];
      log := log + [Wakeup(t.wakeup, k)];
      assert State() == Wake(h, k);
    }

    method EnterAll(ghost s: Sim, ghost cur: int)
      requires Kept(s, cur)
      modifies `future, `ready, `threads, `log
      ensures Kept(s, cur) && forall i :: 0 <= i < |future| ==> future[i].arrival > time
      ensures old(ready) != [] || (old(future) != [] && old(future)[0].arrival <= time) ==> ready != []
    {
      hide Good, Ran, Waited, EndOf, Spent, Prompt, Told;
      while future != [] && future[0].arrival <= time
        invariant Kept(s, cur) && ((future == old(future) && ready == old(ready)) || ready != [])
        decreases |future|
      {
        EnterOne(s, cur);
      }
      NoneDue(State(), all, cur);
    }

    method WakeAll(ghost s: Sim, ghost cur: int)
      requires Kept(s, cur)
      modifies `io, `ready, `threads, `log
      ensures Kept(s, cur) && |threads| == |old(threads)| && |old(ready)| <= |ready|
      ensures forall k :: k in io ==> k in old(io) && k < |threads| && threads[k].wakeup > time
    {
      hide KeptIn;
      var copy := io;
      KeptWaiters(s, State(), all, cur);
      var i := 0;
      while i < |copy|
        invariant 0 <= i <= |copy| && Kept(s, cur) && |threads| == |old(threads)| && |old(ready)| <= |ready|
        invariant forall j :: i <= j < |copy| ==> copy[j] in io
        invariant forall k :: k in io ==> k in copy && k < |threads|
        invariant forall j :: 0 <= j < i && copy[j] in io ==> threads[copy[j]].wakeup > time
      {
        var k := copy[i];
        KeptWaiters(s, State(), all, cur);
        if threads[k].wakeup <= time {
          WithoutOk(io, k);
          WakeOne(k, s, cur);
        }
        i := i + 1;
      }
    }

    /** Tasks that have arrived and threads whose I/O is done join the ready queue. */
    method Arrivals(ghost cur: int)
      requires Good(State(), all, cur)
      modifies `future, `io, `ready, `threads, `log
      ensures Kept(old(State()), cur) && CaughtUp(State())
      ensures old(future) != [] && old(future)[0].arrival <= time ==> ready != []
      ensures (exists k :: k in old(io) && k < |old(threads)| && old(threads)[k].wakeup <= time) ==> ready != []
    {
      hide Good, Ran, Waited, EndOf, Spent, Prompt, Told;
      ghost var s := State();
      GoodCur(s, all, cur);
      EnterAll(s, cur);
      WakeAll(s, cur);
      if k :| k in s.io && k < |s.threads| && s.threads[k].wakeup <= time {
        assert k in ready;
      }
    }

    // ---------- The loop ----------

    /** Machine.next_start: when the next task arrives or thread wakes up. */
    method NextStart() returns (r: Option<nat>)
      requires Good(State(), all, -1) && CaughtUp(State())
      ensures r.None? <==> future == [] && io == []
      ensures r.Some? ==>
        && r.value > time && NoneBefore(State(), r.value)
        && ((future != [] && future[0].arrival <= r.value) || exists k :: k in io && k < |threads| && threads[k].wakeup <= r.value)
    {
      FutureOrdered(State(), all, -1);
      hide Good;
      WaitersOk(State(), all, -1);
      if io != [] {
        var m := MinWakeup();
        if future != [] && future[0].arrival > 0 {
          r := Some(Min(future[0].arrival, m));
        } else {
          r := Some(m);
        }
      } else if future == [] {
        r := None;
      } else {
        r := Some(future[0].arrival);
      }
    }

    method MinWakeup() returns (m: nat)
      requires io != [] && forall k :: k in io ==> k < |threads|
      ensures exists k :: k in io && threads[k].wakeup == m
      ensures forall k :: k in io ==> m <= threads[k].wakeup
    {
      assert forall i :: 0 <= i < |io| ==> io[i] in io;
      m := threads[io[0]].wakeup;
      var i := 1;
      while i < |io|
        invariant 1 <= i <= |io| && exists k :: k in io && threads[k].wakeup == m
        invariant forall j :: 0 <= j < i ==> m <= threads[io[j]].wakeup
      {
        m := Min(m, threads[io[i]].wakeup);
        i := i + 1;
      }
    }

    /** Machine.idle: to the next start, which puts something into the ready queue. */
    method IdleUntil(next: nat)
      requires Good(State(), all, -1) && CaughtUp(State()) && Prompt(State()) && Truthful(State(), all, q) && ready == []
      requires next > time && NoneBefore(State(), next)
      requires (future != [] && future[0].arrival <= next) || exists k :: k in io && k < |threads| && threads[k].wakeup <= next
      modifies this
      ensures Good(State(), all, -1) && CaughtUp(State()) && Prompt(State()) && Truthful(State(), all, q)
      ensures ready != [] && time == next
      ensures RunTime(threads) == RunTime(old(threads)) && Pending(State()) == Pending(old(State()))
    {
      hide Good, RunTime, CaughtUp, Prompt, Told, Truthful;
      RestGood(State(), all, next);
      RestPrompt(State(), next);
      RestTold(State(), all, q, next);
      log := log + [Idle(time, next - time, |ready|)];
      time := next;
      Arrivals(-1);
      ToldNow(State(), all, q);
    }

    /** What becomes of the thread that has run: it waits for I/O, goes to the back of the queue,
        or is finished. */
    method PutBack(k: nat, status: Status, ioTime: nat)
      requires Good(State(), all, k) && CaughtUp(State()) && Prompt(State()) && k < |threads|
      requires Told(State(), all, q, k, Next(status, ioTime))
      requires if status == Done then threads[k].elapsed == threads[k].task.total && EndOf(log, k) == time else Runnable(threads[k])
      modifies `io, `ready, `threads, `log
      ensures Good(State(), all, -1) && CaughtUp(State()) && Prompt(State()) && Truthful(State(), all, q)
      ensures old(ready) <= ready && old(log) <= log && RunTime(threads) == RunTime(old(threads))
      ensures status == Done ==> Pending(State()) == Pending(old(State()))
    {
      hide Good, RunTime, Waited, Ran, EndOf, Spent, Prompt, Told, Truthful, Runnable;
      GoodQueues(State(), all, k);
      NotQueued(State(), all, k);
      if status == Io && ioTime > 0 {
        BlockTold(State(), all, q, k, ioTime);
        BlockGood(State(), all, k, ioTime);
        NotWaiting(State(), all, k);
        BlockPrompt(State(), k, ioTime);
        RunTimeUpdate(threads, k, threads[k].(wakeup := time + ioTime));
        threads := threads[k := threads[k].(wakeup := time + ioTime)];
        io := io + [k];
        log := log + [IoWait(time, k, ioTime)];
      } else if status != Done {
        RequeueTold(State(), all, q, k);
        RequeueGood(State(), all, k);
        NotWaiting(State(), all, k);
        RequeuePrompt(State(), k);
        RunTimeUpdate(threads, k, threads[k].(lastQueued := time));
        threads := threads[k := threads[k].(lastQueued := time)];
        ready := ready + [k];
      } else {
        FinishTold(State(), all, q, k);
        FinishGood(State(), all, k);
      }
    }

    /** One turn of the first thread in the queue. */
    method Turn()
      requires Good(State(), all, -1) && CaughtUp(State()) && Prompt(State()) && Truthful(State(), all, q) && ready != []
      modifies this
      ensures Good(State(), all, -1) && CaughtUp(State()) && Prompt(State()) && Truthful(State(), all, q)
      ensures old(ready)[1..] <= ready
      ensures |old(log)| < |log| && log[|old(log)|].Run? && log[|old(log)|].id == old(ready)[0] && log[|old(log)|].at == old(time)
      ensures RunTime(threads) > RunTime(old(threads))
           || (RunTime(threads) == RunTime(old(threads)) && Pending(State()) < Pending(old(State())))
    {
      hide Good, RunTime, Waited, Ran, EndOf, Spent, Prompt, Told, Truthful, RunFor, AfterRun;
      ghost var s0 := State();
      GoodQueues(s0, all, -1);
      DequeueGood(s0, all);
      var k := ready[0];
      ready := ready[1..];
      var t := threads[k];
      t := t.(waitTime := t.waitTime + (time - t.lastQueued));
      ghost var s1 := Dequeue(s0);
      RunTimeUpdate(s0.threads, k, t);
      CurrentBound(s1, all, k);
      var t', runLen, status, ioTime := RunThread(t, q);
      threads := threads[k := t'];
      RunTimeUpdate(s1.threads, k, t');
      assert s1.threads[k := t'] == threads;
      AdvanceGood(s1, all, k, t', runLen);
      TakenOff(s0, s1, all, k);
      AdvancePrompt(s1, k, t', runLen);
      RunTold(s0, all, q, t', runLen);
      log := log + [Run(time, k, runLen)];
      time := time + runLen;
      assert State() == Advance(s1, k, t', runLen);
      Arrivals(k);
      PutBack(k, status, ioTime);
    }

    /** The scheduler: every task runs to its end, and the time of each adds up. */
    method Schedule()
      requires Good(State(), all, -1) && Prompt(State()) && Told(State(), all, q, -1, Over) && time == 0
      modifies this
      ensures future == [] && io == [] && ready == [] && AddsUp(State(), all) && Faithful(all, q, log)
      ensures forall i, j :: 0 <= i < j < |log| && log[i].Idle? && (log[j].Arrive? || log[j].Wakeup?) ==>
        log[i].at + log[i].dur <= log[j].at
      ensures forall i :: 0 <= i < |log| && log[i].Idle? ==> log[i].queued == 0
    {
      hide Good, RunTime, CaughtUp, Prompt, Told, Truthful;
      Arrivals(-1);
      ToldNow(State(), all, q);
      while true
        invariant Good(State(), all, -1) && CaughtUp(State()) && Prompt(State()) && Truthful(State(), all, q)
        decreases Left(State(), all), Pending(State()), ready == []
      {
        LeftNonNegative(State(), all, -1);
        var next := NextStart();
        if ready == [] && next.None? {
          break;
        }
        if ready == [] {
          IdleUntil(next.value);
        } else {
          Turn();
        }
        LeftNonNegative(State(), all, -1);
      }
      GoodQueues(State(), all, -1);
      StopGood(State(), all);
      StopFaithful(State(), all, q);
      PromptLog(State());
      log := log + [Stop(time)];
      AllAddsUp(State(), all);
    }
  }

  lemma StartLog()
    ensures Spent([Start]) == 0 && Contiguous([Start]) && forall k: nat :: Absent([Start], k)
  {
    assert [] + [Start] == [Start];
    Appended([], Start, 0);
    forall k: nat ensures Absent([Start], k) { Appended([], Start, k); }
  }

  lemma StartGood(s: Sim, tasks: seq<Task>)
    requires s == Sim(0, Stream(tasks), [], [], [], [Start])
    ensures Good(s, Stream(tasks), -1) && Prompt(s)
  {
    StreamOk(tasks);
    StartLog();
    hide Stream, ByArrival, Ran, Waited, EndOf, Spent, Contiguous;
  }

  lemma CurrentBound(s: Sim, all: seq<Task>, k: nat)
    requires Good(s, all, k) && k < |s.threads|
    ensures s.threads[k].elapsed <= s.threads[k].task.total
  {
    assert ThreadOk(s, k, k);
  }

  lemma NotQueued(s: Sim, all: seq<Task>, k: nat)
    requires Good(s, all, k) && k < |s.threads|
    ensures k !in s.ready && k !in s.io
  {
    assert ThreadOk(s, k, k);
  }

  /** The thread on the processor waits for no I/O. */
  lemma NotWaiting(s: Sim, all: seq<Task>, k: nat)
    requires Good(s, all, k) && k < |s.threads|
    ensures k !in s.io
  {
    assert ThreadOk(s, k, k);
  }

  lemma TakenOff(s0: Sim, s1: Sim, all: seq<Task>, k: nat)
    requires Good(s1, all, k) && k < |s0.threads| == |s1.threads| && Prompt(s0)
    requires s1.time == s0.time && s1.log == s0.log && s1.future == s0.future && s1.io == s0.io
    requires forall j :: 0 <= j < |s0.threads| && j != k ==> s1.threads[j] == s0.threads[j]
    ensures Prompt(s1) && k !in s1.io
  {
    NotWaiting(s1, all, k);
  }

  lemma RequeuePrompt(s: Sim, k: nat)
    requires Prompt(s) && k < |s.threads| && k !in s.io
    ensures Prompt(Requeue(s, k))
  {
  }

  /** No event is logged after an idle period that it fell into. */
  lemma PromptLog(s: Sim)
    requires Prompt(s)
    ensures var log := s.log + [Stop(s.time)];
      forall i, j :: 0 <= i < j < |log| && log[i].Idle? && (log[j].Arrive? || log[j].Wakeup?) ==>
        log[i].at + log[i].dur <= log[j].at
    ensures var log := s.log + [Stop(s.time)]; forall i :: 0 <= i < |log| && log[i].Idle? ==> log[i].queued == 0
  {
    forall i | 0 <= i < |s.log| && s.log[i].Idle? ensures IdleEnd(s.log, i) == s.log[i].at + s.log[i].dur { }
  }

  lemma GoodQueues(s: Sim, all: seq<Task>, cur: int)
    requires Good(s, all, cur)
    ensures Queues(s) && Arrived(s, all) && cur < |s.threads| <= |all| && s.time == Spent(s.log)
  {
  }

  lemma WaiterNotReady(s: Sim, all: seq<Task>, cur: int, k: nat)
    requires Good(s, all, cur) && k in s.io && k < |s.threads| && k != cur
    ensures k !in s.ready
  {
    assert ThreadOk(s, k, cur);
  }

  lemma GoodCur(s: Sim, all: seq<Task>, cur: int)
    requires Good(s, all, cur)
    ensures cur < |s.threads|
  {
  }

  /** The stream is in order, so the first task that is not due is followed by none that is. */
  lemma NoneDue(s: Sim, all: seq<Task>, cur: int)
    requires Good(s, all, cur) && (s.future == [] || s.future[0].arrival > s.time)
    ensures forall i :: 0 <= i < |s.future| ==> s.future[i].arrival > s.time
  {
    forall i | 0 <= i < |s.future| ensures s.future[i].arrival > s.time {
      assert s.future[0] == all[|s.threads|] && s.future[i] == all[|s.threads| + i];
    }
  }

  lemma FutureOrdered(s: Sim, all: seq<Task>, cur: int)
    requires Good(s, all, cur)
    ensures forall i :: 0 <= i < |s.future| ==> s.future[0].arrival <= s.future[i].arrival
  {
    forall i | 0 <= i < |s.future| ensures s.future[0].arrival <= s.future[i].arrival {
      assert s.future[0] == all[|s.threads|] && s.future[i] == all[|s.threads| + i];
    }
  }

  lemma WaitersOk(s: Sim, all: seq<Task>, cur: int)
    requires Good(s, all, cur)
    ensures NoDup(s.io) && forall k :: k in s.io ==> k < |s.threads| && k != cur
  {
    assert cur >= 0 ==> ThreadOk(s, cur, cur);
  }

  lemma {:induction false} WithoutKeeps(cs: seq<nat>, c: nat)
    ensures forall d :: d in cs && d != c ==> d in Without(cs, c)
  {
    if cs != [] && cs[0] != c { WithoutKeeps(cs[1..], c); }
  }
}
