/** The state of the scheduling simulator and the accounting every step of it keeps
    (scheduling.ipynb). */
module ScheduleModel {
  import opened Lists
  import opened ScheduleLog

  /** A task: when it arrives, how long it runs, and, given how long it has run, the length
      of its next CPU burst (0: to the end) and of its next I/O wait. */
  datatype Task = Task(arrival: nat, total: nat, cpuBurst: nat -> nat, ioBurst: nat -> nat)

  datatype Thread = Thread(task: Task, elapsed: nat, lastQueued: nat, waitTime: nat, remainingBurst: nat, wakeup: nat)

  /** The machine with its ready queue, next thread first; threads are named by their position
      in the order of arrival. */
  datatype Sim = Sim(time: nat, future: seq<Task>, io: seq<nat>, ready: seq<nat>, threads: seq<Thread>, log: seq<Entry>)

  // ---------- Tasks by arrival ----------

  ghost predicate ByArrival(ts: seq<Task>) {
    forall i, j :: 0 <= i < j < |ts| ==> ts[i].arrival <= ts[j].arrival
  }

  /** `ts` with `t` behind all tasks that do not arrive later. */
  function Insert(ts: seq<Task>, t: Task): seq<Task> {
    if ts != [] && ts[|ts| - 1].arrival > t.arrival then Insert(ts[..|ts| - 1], t) + [ts[|ts| - 1]] else ts + [t]
  }

  /** TaskStream: the tasks by arrival, in the given order where they arrive together. */
  function Stream(ts: seq<Task>): seq<Task> {
    if ts == [] then [] else Insert(Stream(ts[..|ts| - 1]), ts[|ts| - 1])
  }

  lemma {:induction false} InsertSame(ts: seq<Task>, t: Task)
    ensures multiset(Insert(ts, t)) == multiset(ts + [t])
  {
    if ts != [] && ts[|ts| - 1].arrival > t.arrival {
      var n := |ts| - 1;
      InsertSame(ts[..n], t);
      assert ts == ts[..n] + [ts[n]];
    }
  }

  lemma {:induction false} InsertOrdered(ts: seq<Task>, t: Task)
    requires ByArrival(ts)
    ensures ByArrival(Insert(ts, t))
  {
    if ts != [] && ts[|ts| - 1].arrival > t.arrival {
      var n := |ts| - 1;
      var r := Insert(ts[..n], t);
      InsertOrdered(ts[..n], t);
      InsertSame(ts[..n], t);
      forall i | 0 <= i < |r| ensures r[i].arrival <= ts[n].arrival {
        assert r[i] in multiset(r);
        assert r[i] in ts[..n] + [t];
      }
    }
  }

  /** The tasks of `ts` that arrive at time `a`, in order. */
  function At(ts: seq<Task>, a: nat): seq<Task> {
    if ts == [] then []
    else At(ts[..|ts| - 1], a) + if ts[|ts| - 1].arrival == a then [ts[|ts| - 1]] else []
  }

  lemma {:induction false} InsertStable(ts: seq<Task>, t: Task, a: nat)
    ensures At(Insert(ts, t), a) == At(ts + [t], a)
  {
    assert (ts + [t])[..|ts|] == ts;
    if ts != [] && ts[|ts| - 1].arrival > t.arrival {
      var n := |ts| - 1;
      InsertStable(ts[..n], t, a);
      assert (ts[..n] + [t])[..n] == ts[..n];
      var r := Insert(ts[..n], t);
      assert (r + [ts[n]])[..|r|] == r;
    }
  }

  /** The stream has the same tasks in order of arrival, and those that arrive together in the
      order they were given in. */
  lemma {:induction false} StreamOk(ts: seq<Task>)
    ensures ByArrival(Stream(ts)) && multiset(Stream(ts)) == multiset(ts)
    ensures forall a: nat :: At(Stream(ts), a) == At(ts, a)
  {
    if ts != [] {
      var n := |ts| - 1;
      StreamOk(ts[..n]);
      InsertOrdered(Stream(ts[..n]), ts[n]);
      InsertSame(Stream(ts[..n]), ts[n]);
      assert ts == ts[..n] + [ts[n]];
      forall a: nat ensures At(Stream(ts), a) == At(ts, a) {
        InsertStable(Stream(ts[..n]), ts[n], a);
        assert (Stream(ts[..n]) + [ts[n]])[..|Stream(ts[..n])|] == Stream(ts[..n]);
      }
    }
  }

  // ---------- Accounting ----------

  /** Where a thread's time has gone since it arrived. */
  ghost function Account(s: Sim, k: nat): nat
    requires k < |s.threads|
  {
    s.threads[k].task.arrival + s.threads[k].elapsed + s.threads[k].waitTime + Waited(s.log, k)
  }

  /** It has something left to do, or is a task of length 0 that has not been looked at. */
  ghost predicate Runnable(t: Thread) {
    t.elapsed < t.task.total || t.task.total == 0
  }

  /** Thread `k` is the one on the processor, queued, waiting for I/O, or finished, and its
      account is settled up to now, to when it was queued, to its wakeup or to its end. */
  ghost predicate ThreadOk(s: Sim, k: nat, cur: int)
    requires k < |s.threads|
  {
    var t := s.threads[k];
    && t.elapsed <= t.task.total && Ran(s.log, k) == t.elapsed
    && (if k == cur then k !in s.ready && k !in s.io && Account(s, k) == s.time
        else if k in s.ready then k !in s.io && Account(s, k) == t.lastQueued <= s.time && Runnable(t)
        else if k in s.io then Account(s, k) == t.wakeup && Runnable(t)
        else t.elapsed == t.task.total && Account(s, k) == EndOf(s.log, k))
  }

  ghost predicate Queues(s: Sim) {
    && NoDup(s.ready) && NoDup(s.io)
    && (forall k :: k in s.ready || k in s.io ==> k < |s.threads|)
  }

  /** The tasks that have arrived are the first of `all`, the others are to come. */
  ghost predicate Arrived(s: Sim, all: seq<Task>) {
    && |s.threads| <= |all| && s.future == all[|s.threads|..]
    && (forall k :: 0 <= k < |s.threads| ==> s.threads[k].task == all[k])
  }

  ghost predicate Timed(s: Sim) {
    && s.time == Spent(s.log) && Contiguous(s.log)
    && (forall k :: k >= |s.threads| ==> Absent(s.log, k))
  }

  ghost predicate Good(s: Sim, all: seq<Task>, cur: int) {
    && ByArrival(all) && Arrived(s, all) && Queues(s) && Timed(s) && cur < |s.threads|
    && (forall k :: 0 <= k < |s.threads| ==> ThreadOk(s, k, cur))
  }

  /** Nothing that should have started is still waiting. */
  ghost predicate CaughtUp(s: Sim) {
    && (forall i :: 0 <= i < |s.future| ==> s.future[i].arrival > s.time)
    && (forall k :: k in s.io && k < |s.threads| ==> s.threads[k].wakeup > s.time)
  }

  /** The state of a thread is as before, and so is what the log says of it. */
  lemma OtherThread(s: Sim, s': Sim, k: nat, cur: int, cur': int)
    requires k < |s.threads| <= |s'.threads| && ThreadOk(s, k, cur) && s'.threads[k] == s.threads[k]
    requires k != cur && k != cur' && s.time <= s'.time
    requires (k in s'.ready <==> k in s.ready) && (k in s'.io <==> k in s.io) && SameFor(s.log, s'.log, k)
    ensures ThreadOk(s', k, cur')
  {
    hide Ran, Waited, EndOf;
  }

  /** Nor does an event of another thread that takes no time concern the one that runs. */
  lemma CurrentThread(s: Sim, s': Sim, cur: nat)
    requires cur < |s.threads| <= |s'.threads| && ThreadOk(s, cur, cur) && s'.threads[cur] == s.threads[cur]
    requires s'.time == s.time && (cur in s'.ready <==> cur in s.ready) && (cur in s'.io <==> cur in s.io)
    requires SameFor(s.log, s'.log, cur)
    ensures ThreadOk(s', cur, cur)
  {
    hide Ran, Waited, EndOf;
  }

  // ---------- Arrivals ----------

  /** The next task arrives. */
  function Enter(s: Sim): Sim
    requires s.future != []
  {
    var t, n := s.future[0], |s.threads|;
    s.(future := s.future[1..], ready := s.ready + [n], threads := s.threads + [Thread(t, 0, t.arrival, 0, 0, 0)],
       log := s.log + [Arrive(t.arrival, n)])
  }

  lemma EnterGood(s: Sim, all: seq<Task>, cur: int)
    requires Good(s, all, cur) && s.future != [] && s.future[0].arrival <= s.time
    ensures Good(Enter(s), all, cur)
  {
    hide Ran, Waited, EndOf, Spent, Contiguous, ThreadOk, ByArrival;
    var s', n := Enter(s), |s.threads|;
    QuietEntry(s.log, Arrive(s.future[0].arrival, n));
    EnterTimed(s);
    forall k | 0 <= k < n ensures ThreadOk(s', k, cur) {
      assert ThreadOk(s, k, cur);
      if k == cur { CurrentThread(s, s', k); } else { OtherThread(s, s', k, cur, cur); }
    }
    EnterNew(s, cur);
    NoDupConcat(s.ready, [n]);
    assert s.future[1..] == all[n + 1..];
  }

  lemma EnterTimed(s: Sim)
    requires Timed(s) && s.future != []
    ensures Timed(Enter(s))
  {
    hide Ran, Waited, EndOf, Spent, Contiguous;
    var e := Arrive(s.future[0].arrival, |s.threads|);
    QuietEntry(s.log, e);
    forall k: nat | k >= |s.threads| ensures Absent(s.log + [e], k) {
      assert Absent(s.log, k) && SameFor(s.log, s.log + [e], k);
    }
  }

  lemma EnterNew(s: Sim, cur: int)
    requires Timed(s) && Queues(s) && s.future != [] && s.future[0].arrival <= s.time && cur < |s.threads|
    ensures ThreadOk(Enter(s), |s.threads|, cur)
  {
    hide Ran, Waited, EndOf, Spent, Contiguous;
    var e := Arrive(s.future[0].arrival, |s.threads|);
    QuietEntry(s.log, e);
    assert SameFor(s.log, s.log + [e], |s.threads|) && Absent(s.log, |s.threads|);
  }

  // ---------- Wakeups ----------

  /** Thread `k` has done waiting for I/O. */
  function Wake(s: Sim, k: nat): Sim
    requires k < |s.threads|
  {
    var t := s.threads[k];
    s.(io := Without(s.io, k), ready := s.ready + [k], threads := s.threads[k := t.(lastQueued := t.wakeup)],
       log := s.log + [Wakeup(t.wakeup, k)])
  }

  lemma WakeGood(s: Sim, all: seq<Task>, cur: int, k: nat)
    requires Good(s, all, cur) && k in s.io && k < |s.threads| && s.threads[k].wakeup <= s.time
    ensures Good(Wake(s, k), all, cur)
  {
    assert ThreadOk(s, k, cur);
    assert k !in s.ready && k != cur;
    hide Ran, Waited, EndOf, Spent, Contiguous, ThreadOk, ByArrival;
    var s' := Wake(s, k);
    QuietEntry(s.log, Wakeup(s.threads[k].wakeup, k));
    QuietTimed(s, s', Wakeup(s.threads[k].wakeup, k));
    WithoutOk(s.io, k);
    NoDupConcat(s.ready, [k]);
    forall j | 0 <= j < |s'.threads| ensures ThreadOk(s', j, cur) {
      assert ThreadOk(s, j, cur);
      if j == cur { CurrentThread(s, s', j); } else if j != k { OtherThread(s, s', j, cur, cur); }
    }
  }

  lemma QuietTimed(s: Sim, s': Sim, e: Entry)
    requires Timed(s) && !e.Run? && !e.Idle? && !e.IoWait? && s'.time == s.time && s'.log == s.log + [e] && |s'.threads| == |s.threads|
    ensures Timed(s')
  {
    hide Ran, Waited, EndOf, Spent, Contiguous;
    QuietEntry(s.log, e);
    forall k: nat | k >= |s.threads| ensures Absent(s'.log, k) {
      assert Absent(s.log, k) && SameFor(s.log, s.log + [e], k);
    }
  }

  // ---------- The processor ----------

  /** FIFOQueue.dequeue: the first thread in the queue gets the processor. */
  function Dequeue(s: Sim): Sim
    requires s.ready != [] && s.ready[0] < |s.threads| && s.threads[s.ready[0]].lastQueued <= s.time
  {
    var k := s.ready[0];
    var t := s.threads[k];
    s.(ready := s.ready[1..], threads := s.threads[k := t.(waitTime := t.waitTime + (s.time - t.lastQueued))])
  }

  lemma DequeueGood(s: Sim, all: seq<Task>)
    requires Good(s, all, -1) && s.ready != []
    ensures var k := s.ready[0];
      k < |s.threads| && s.threads[k].lastQueued <= s.time && Runnable(s.threads[k]) && Good(Dequeue(s), all, k)
  {
    var k := s.ready[0];
    assert k in s.ready && ThreadOk(s, k, -1);
    var s' := Dequeue(s);
    hide Ran, Waited, EndOf, Spent, Contiguous, ThreadOk, ByArrival, Runnable;
    DequeueQueues(s);
    forall j | 0 <= j < |s'.threads| ensures ThreadOk(s', j, k) && s'.threads[j].task == all[j] {
      assert ThreadOk(s, j, -1) && s.threads[j].task == all[j];
      if j != k { OtherThread(s, s', j, -1, k); }
    }
  }

  lemma DequeueQueues(s: Sim)
    requires Queues(s) && s.ready != [] && s.ready[0] < |s.threads| && s.threads[s.ready[0]].lastQueued <= s.time
    ensures Queues(Dequeue(s)) && forall j :: j != s.ready[0] ==> (j in Dequeue(s).ready <==> j in s.ready)
  {
    var k, rest := s.ready[0], s.ready[1..];
    assert s.ready == [k] + rest;
    forall j | j in rest || j in s.io ensures j < |s.threads| {
      assert j in s.ready || j in s.io;
    }
    assert Dequeue(s).ready == rest && Dequeue(s).io == s.io && |Dequeue(s).threads| == |s.threads|;
  }

  /** Thread `k` runs for `d`: `t` is what it is then. */
  function Advance(s: Sim, k: nat, t: Thread, d: nat): Sim
    requires k < |s.threads|
  {
    s.(time := s.time + d, threads := s.threads[k := t], log := s.log + [Run(s.time, k, d)])
  }

  lemma AdvanceGood(s: Sim, all: seq<Task>, k: nat, t: Thread, d: nat)
    requires Good(s, all, k) && k < |s.threads| && t.task == s.threads[k].task && t.waitTime == s.threads[k].waitTime
    requires t.elapsed == s.threads[k].elapsed + d <= t.task.total
    ensures Good(Advance(s, k, t, d), all, k) && EndOf(Advance(s, k, t, d).log, k) == Advance(s, k, t, d).time
  {
    var s', e := Advance(s, k, t, d), Run(s.time, k, d);
    assert ThreadOk(s, k, k);
    AdvanceTimed(s, k, t, d);
    Appended(s.log, e, k);
    assert ThreadOk(s', k, k);
    hide Ran, Waited, EndOf, Spent, Contiguous, ThreadOk, ByArrival;
    forall j | 0 <= j < |s'.threads| && j != k ensures ThreadOk(s', j, k) {
      assert ThreadOk(s, j, k);
      Appended(s.log, e, j);
      OtherThread(s, s', j, k, k);
    }
  }

  lemma AdvanceTimed(s: Sim, k: nat, t: Thread, d: nat)
    requires Timed(s) && k < |s.threads|
    ensures Timed(Advance(s, k, t, d))
  {
    hide Ran, Waited, EndOf, Spent, Contiguous;
    var e := Run(s.time, k, d);
    ContiguousAppend(s.log, e);
    Appended(s.log, e, 0);
    forall j: nat | j >= |s.threads| ensures Absent(s.log + [e], j) {
      assert Absent(s.log, j);
      Appended(s.log, e, j);
    }
  }

  // ---------- After a run ----------

  function Requeue(s: Sim, k: nat): Sim
    requires k < |s.threads|
  {
    s.(ready := s.ready + [k], threads := s.threads[k := s.threads[k].(lastQueued := s.time)])
  }

  lemma RequeueGood(s: Sim, all: seq<Task>, k: nat)
    requires Good(s, all, k) && k < |s.threads| && Runnable(s.threads[k])
    ensures Good(Requeue(s, k), all, -1)
  {
    var s' := Requeue(s, k);
    assert ThreadOk(s, k, k);
    assert ThreadOk(s', k, -1);
    hide Ran, Waited, EndOf, Spent, Contiguous, ThreadOk, ByArrival;
    NoDupConcat(s.ready, [k]);
    forall j | 0 <= j < |s'.threads| && j != k ensures ThreadOk(s', j, -1) {
      assert ThreadOk(s, j, k);
      OtherThread(s, s', j, k, -1);
    }
  }

  /** Machine.io_wait. */
  function Block(s: Sim, k: nat, w: nat): Sim
    requires k < |s.threads|
  {
    s.(io := s.io + [k], threads := s.threads[k := s.threads[k].(wakeup := s.time + w)],
       log := s.log + [IoWait(s.time, k, w)])
  }

  lemma BlockGood(s: Sim, all: seq<Task>, k: nat, w: nat)
    requires Good(s, all, k) && k < |s.threads| && Runnable(s.threads[k])
    ensures Good(Block(s, k, w), all, -1)
  {
    var s', e := Block(s, k, w), IoWait(s.time, k, w);
    assert ThreadOk(s, k, k);
    Appended(s.log, e, k);
    BlockTimed(s, k, w);
    hide Ran, Waited, EndOf, Spent, Contiguous, ThreadOk, ByArrival;
    NoDupConcat(s.io, [k]);
    forall j | 0 <= j < |s'.threads| && j != k ensures ThreadOk(s', j, -1) {
      assert ThreadOk(s, j, k);
      Appended(s.log, e, j);
      OtherThread(s, s', j, k, -1);
    }
  }

  lemma BlockTimed(s: Sim, k: nat, w: nat)
    requires Timed(s) && k < |s.threads|
    ensures Timed(Block(s, k, w))
  {
    hide Ran, Waited, EndOf, Spent, Contiguous;
    var e := IoWait(s.time, k, w);
    ContiguousAppend(s.log, e);
    Appended(s.log, e, 0);
    forall j: nat | j >= |s.threads| ensures Absent(s.log + [e], j) {
      assert Absent(s.log, j);
      Appended(s.log, e, j);
    }
  }

  lemma FinishGood(s: Sim, all: seq<Task>, k: nat)
    requires Good(s, all, k) && k < |s.threads| && s.threads[k].elapsed == s.threads[k].task.total && EndOf(s.log, k) == s.time
    ensures Good(s, all, -1)
  {
    assert ThreadOk(s, k, k);
    assert ThreadOk(s, k, -1);
    hide Ran, Waited, EndOf, Spent, Contiguous, ThreadOk, ByArrival;
    forall j | 0 <= j < |s.threads| && j != k ensures ThreadOk(s, j, -1) {
      assert ThreadOk(s, j, k);
      OtherThread(s, s, j, k, -1);
    }
  }

  // ---------- Idling ----------

  function Rest(s: Sim, until: nat): Sim
    requires s.time <= until
  {
    s.(time := until, log := s.log + [Idle(s.time, until - s.time, |s.ready|)])
  }

  lemma RestGood(s: Sim, all: seq<Task>, until: nat)
    requires Good(s, all, -1) && s.time <= until
    ensures Good(Rest(s, until), all, -1)
  {
    var s', e := Rest(s, until), Idle(s.time, until - s.time, |s.ready|);
    RestTimed(s, until);
    hide Ran, Waited, EndOf, Spent, Contiguous, ThreadOk, ByArrival;
    forall j | 0 <= j < |s'.threads| ensures ThreadOk(s', j, -1) {
      assert ThreadOk(s, j, -1);
      Appended(s.log, e, j);
      OtherThread(s, s', j, -1, -1);
    }
  }

  lemma RestTimed(s: Sim, until: nat)
    requires Timed(s) && s.time <= until
    ensures Timed(Rest(s, until))
  {
    hide Ran, Waited, EndOf, Spent, Contiguous;
    var e := Idle(s.time, until - s.time, |s.ready|);
    ContiguousAppend(s.log, e);
    Appended(s.log, e, 0);
    forall j: nat | j >= |s.threads| ensures Absent(s.log + [e], j) {
      assert Absent(s.log, j);
      Appended(s.log, e, j);
    }
  }

  /** Machine.stop. */
  lemma StopGood(s: Sim, all: seq<Task>)
    requires Good(s, all, -1)
    ensures Good(s.(log := s.log + [Stop(s.time)]), all, -1)
  {
    hide Ran, Waited, EndOf, Spent, Contiguous, ThreadOk, ByArrival;
    var s' := s.(log := s.log + [Stop(s.time)]);
    QuietEntry(s.log, Stop(s.time));
    QuietTimed(s, s', Stop(s.time));
    forall j | 0 <= j < |s'.threads| ensures ThreadOk(s', j, -1) {
      assert ThreadOk(s, j, -1);
      OtherThread(s, s', j, -1, -1);
    }
  }

  /** When nothing is left, every task has run for exactly its total, and the time from its
      arrival to its end is that total, its time in the queue and its I/O waits. */
  ghost predicate AddsUp(s: Sim, all: seq<Task>) {
    && |s.threads| == |all| && s.time == Spent(s.log) && Contiguous(s.log)
    && (forall k :: 0 <= k < |all| ==>
          && s.threads[k].task == all[k] && s.threads[k].elapsed == all[k].total == Ran(s.log, k)
          && EndOf(s.log, k) == all[k].arrival + all[k].total + s.threads[k].waitTime + Waited(s.log, k))
  }

  lemma AllAddsUp(s: Sim, all: seq<Task>)
    requires Good(s, all, -1) && s.future == [] && s.ready == [] && s.io == []
    ensures AddsUp(s, all)
  {
    hide Ran, Waited, EndOf, Spent, Contiguous;
    forall k | 0 <= k < |all|
      ensures s.threads[k].task == all[k] && s.threads[k].elapsed == all[k].total == Ran(s.log, k)
      ensures EndOf(s.log, k) == all[k].arrival + all[k].total + s.threads[k].waitTime + Waited(s.log, k)
    {
      assert ThreadOk(s, k, -1);
    }
  }

  // ---------- Idling only while nothing is ready ----------

  /** When the idle period of log entry `i` ended; 0 for other entries. */
  ghost function IdleEnd(log: seq<Entry>, i: nat): nat
    requires i < |log|
  {
    if log[i].Idle? then log[i].at + log[i].dur else 0
  }

  /** The machine idles only with nobody queued, and nothing becomes ready before an idle
      period ends: no event logged after it has happened earlier, and none that is to come
      will have. */
  ghost predicate Prompt(s: Sim) {
    forall i :: 0 <= i < |s.log| ==>
      && IdleEnd(s.log, i) <= s.time && (s.log[i].Idle? ==> s.log[i].queued == 0)
      && (forall f :: 0 <= f < |s.future| ==> IdleEnd(s.log, i) <= s.future[f].arrival)
      && (forall k :: k in s.io && k < |s.threads| ==> IdleEnd(s.log, i) <= s.threads[k].wakeup)
      && (forall j :: i < j < |s.log| && (s.log[j].Arrive? || s.log[j].Wakeup?) ==> IdleEnd(s.log, i) <= s.log[j].at)
  }

  /** One more entry, and at most fewer events to come. */
  lemma PromptStep(s: Sim, s': Sim, e: Entry)
    requires Prompt(s) && s'.log == s.log + [e] && s.time <= s'.time && IdleEnd([e], 0) <= s'.time
    requires e.Idle? ==> e.queued == 0
    requires e.Arrive? ==> exists f :: 0 <= f < |s.future| && s.future[f].arrival == e.at
    requires e.Wakeup? ==> exists k :: k in s.io && k < |s.threads| && s.threads[k].wakeup == e.at
    requires forall f :: 0 <= f < |s'.future| ==> s'.future[f] in s.future && IdleEnd([e], 0) <= s'.future[f].arrival
    requires forall k :: k in s'.io && k < |s'.threads| ==>
      && IdleEnd([e], 0) <= s'.threads[k].wakeup
      && (s.time <= s'.threads[k].wakeup || (k in s.io && k < |s.threads| && s'.threads[k].wakeup == s.threads[k].wakeup))
    ensures Prompt(s')
  {
    forall i | 0 <= i < |s'.log|
      ensures IdleEnd(s'.log, i) <= s'.time && (s'.log[i].Idle? ==> s'.log[i].queued == 0)
      ensures forall f :: 0 <= f < |s'.future| ==> IdleEnd(s'.log, i) <= s'.future[f].arrival
      ensures forall k :: k in s'.io && k < |s'.threads| ==> IdleEnd(s'.log, i) <= s'.threads[k].wakeup
      ensures forall j :: i < j < |s'.log| && (s'.log[j].Arrive? || s'.log[j].Wakeup?) ==> IdleEnd(s'.log, i) <= s'.log[j].at
    {
      if i < |s.log| {
        assert IdleEnd(s'.log, i) == IdleEnd(s.log, i);
      } else {
        assert IdleEnd(s'.log, i) == IdleEnd([e], 0);
      }
    }
  }

  lemma EnterPrompt(s: Sim)
    requires s.future != [] && Queues(s)
    ensures Prompt(s) ==> Prompt(Enter(s))
  {
    if Prompt(s) { PromptStep(s, Enter(s), Arrive(s.future[0].arrival, |s.threads|)); }
  }

  lemma WakePrompt(s: Sim, k: nat)
    requires k in s.io && k < |s.threads| && Queues(s)
    ensures Prompt(s) ==> Prompt(Wake(s, k))
  {
    WithoutOk(s.io, k);
    if Prompt(s) { PromptStep(s, Wake(s, k), Wakeup(s.threads[k].wakeup, k)); }
  }

  lemma AdvancePrompt(s: Sim, k: nat, t: Thread, d: nat)
    requires Prompt(s) && k < |s.threads| && k !in s.io
    ensures Prompt(Advance(s, k, t, d))
  {
    PromptStep(s, Advance(s, k, t, d), Run(s.time, k, d));
  }

  lemma BlockPrompt(s: Sim, k: nat, w: nat)
    requires Prompt(s) && k < |s.threads| && k !in s.io
    ensures Prompt(Block(s, k, w))
  {
    PromptStep(s, Block(s, k, w), IoWait(s.time, k, w));
  }

  /** Idling up to the next event, and no further. */
  lemma RestPrompt(s: Sim, until: nat)
    requires Prompt(s) && s.time <= until && NoneBefore(s, until) && s.ready == []
    ensures Prompt(Rest(s, until))
  {
    PromptStep(s, Rest(s, until), Idle(s.time, until - s.time, |s.ready|));
  }

  /** No task arrives and no thread wakes up before `until`. */
  ghost predicate NoneBefore(s: Sim, until: nat) {
    && (forall f :: 0 <= f < |s.future| ==> until <= s.future[f].arrival)
    && (forall k :: k in s.io && k < |s.threads| ==> until <= s.threads[k].wakeup)
  }

  // ---------- Progress ----------

  function RunTime(threads: seq<Thread>): nat {
    if threads == [] then 0 else RunTime(threads[..|threads| - 1]) + threads[|threads| - 1].elapsed
  }

  function Total(ts: seq<Task>): nat {
    if ts == [] then 0 else Total(ts[..|ts| - 1]) + ts[|ts| - 1].total
  }

  lemma {:induction false} RunTimeUpdate(threads: seq<Thread>, k: nat, t: Thread)
    requires k < |threads|
    ensures RunTime(threads[k := t]) == RunTime(threads) - threads[k].elapsed + t.elapsed
  {
    var n := |threads| - 1;
    if k == n {
      assert threads[k := t][..n] == threads[..n];
    } else {
      assert threads[k := t][..n] == threads[..n][k := t];
      RunTimeUpdate(threads[..n], k, t);
    }
  }

  lemma {:induction false} RunTimeBound(threads: seq<Thread>, ts: seq<Task>)
    requires |threads| <= |ts| && forall k :: 0 <= k < |threads| ==> threads[k].task == ts[k] && threads[k].elapsed <= ts[k].total
    ensures RunTime(threads) <= Total(ts)
  {
    if |threads| < |ts| {
      RunTimeBound(threads, ts[..|ts| - 1]);
    } else if threads != [] {
      RunTimeBound(threads[..|threads| - 1], ts[..|ts| - 1]);
    }
  }

  /** The running time still to come, and then the tasks that are not finished. */
  ghost function Left(s: Sim, all: seq<Task>): int {
    Total(all) - RunTime(s.threads)
  }

  function Pending(s: Sim): nat {
    |s.future| + |s.io| + |s.ready|
  }

  lemma LeftNonNegative(s: Sim, all: seq<Task>, cur: int)
    requires Good(s, all, cur)
    ensures Left(s, all) >= 0
  {
    hide Ran, Waited, EndOf, Spent, Contiguous;
    forall k | 0 <= k < |s.threads| ensures s.threads[k].elapsed <= all[k].total { assert ThreadOk(s, k, cur); }
    RunTimeBound(s.threads, all);
  }
}
