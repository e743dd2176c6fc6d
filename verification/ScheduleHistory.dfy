/** What the log of the simulator tells: of each thread, a life as its task and the quantum
    prescribe it, and of the queue, that whoever came first ran first (scheduling.ipynb). */
module ScheduleHistory {
  import opened Arithmetic
  import opened Storage
  import opened Lists
  import opened ScheduleLog
  import opened ScheduleModel

  // ---------- The life of a thread ----------

  /** A thread is to come, in the queue, off the processor with `due` time of I/O before it may
      run again (none: it has been preempted), waiting for I/O, or finished. */
  datatype Phase = Coming | Queued | Paused(due: nat) | Asleep(until: nat) | Over

  /** Its phase, how long it has run, and what is left of a burst that has been cut. */
  datatype Life = Life(phase: Phase, elapsed: nat, rest: nat)

  /** What is left of the current burst; 0 when it has no end. */
  function Burst(t: Task, l: Life): nat {
    if l.rest > 0 then l.rest else t.cpuBurst(l.elapsed)
  }

  /** How long it runs: to the end of the quantum, of the burst or of the task. */
  function RunFor(t: Task, l: Life, q: nat): int {
    var left := t.total - l.elapsed;
    var most := if Burst(t, l) > 0 then Min(Burst(t, l), left) else left;
    if q > 0 then Min(q, most) else most
  }

  /** What it is after that: finished, or at the end of its burst and due for I/O, or cut short. */
  function AfterRun(t: Task, l: Life, d: nat): Life {
    var e, b := l.elapsed + d, Burst(t, l);
    Life(if e == t.total then Over else if b > 0 && d == b then Paused(t.ioBurst(e)) else Paused(0),
         e, if b > d then b - d else 0)
  }

  predicate Concerns(e: Entry, k: nat) {
    (e.Arrive? || e.Wakeup? || e.IoWait? || e.Run?) && e.id == k
  }

  /** The life of the thread of task `t` after one more entry about it, logged at time `now`; None
      when it may not have that entry. */
  function LifeStep(t: Task, q: nat, now: nat, l: Life, e: Entry): Option<Life> {
    match e
    case Arrive(at, _) => if l.phase == Coming && at == t.arrival then Some(l.(phase := Queued)) else None
    case Run(at, _, d) =>
      if (l.phase == Queued || l.phase == Paused(0)) && at == now && d == RunFor(t, l, q) then Some(AfterRun(t, l, d)) else None
    case IoWait(at, _, d) =>
      if l.phase == Paused(d) && d > 0 && at == now then Some(l.(phase := Asleep(at + d))) else None
    case Wakeup(at, _) => if l.phase == Asleep(at) then Some(l.(phase := Queued)) else None
    case _ => Some(l)
  }

  /** The life that a log tells of thread `k`. */
  function LifeOf(t: Task, q: nat, log: seq<Entry>, k: nat): Option<Life> {
    if log == [] then Some(Life(Coming, 0, 0))
    else
      var past, e := log[..|log| - 1], log[|log| - 1];
      match LifeOf(t, q, past, k)
      case None => None
      case Some(l) => if Concerns(e, k) then LifeStep(t, q, Spent(past), l, e) else Some(l)
  }

  lemma LifeAppend(t: Task, q: nat, log: seq<Entry>, e: Entry, k: nat)
    ensures LifeOf(t, q, log + [e], k) ==
      match LifeOf(t, q, log, k)
      case None => None
      case Some(l) => if Concerns(e, k) then LifeStep(t, q, Spent(log), l, e) else Some(l)
  {
    assert (log + [e])[..|log|] == log;
  }

  // ---------- The queue ----------

  /** The queue, and the thread that ran last unless it waits for I/O since. */
  datatype Line = Line(queue: seq<nat>, cur: int)

  /** The queue once that thread is back in it, if it has been preempted. */
  function Settled(all: seq<Task>, q: nat, log: seq<Entry>, l: Line): seq<nat> {
    if 0 <= l.cur < |all| && LifeOf(all[l.cur], q, log, l.cur).Some? && LifeOf(all[l.cur], q, log, l.cur).value.phase.Paused?
    then l.queue + [l.cur] else l.queue
  }

  function LineStep(all: seq<Task>, q: nat, past: seq<Entry>, l: Line, e: Entry): Option<Line> {
    match e
    case Start => Some(l)
    case Arrive(_, id) => Some(l.(queue := l.queue + [id]))
    case Wakeup(_, id) => Some(l.(queue := l.queue + [id]))
    case IoWait(_, id, _) => if id == l.cur then Some(Line(l.queue, -1)) else None
    case Run(_, id, _) =>
      var queue := Settled(all, q, past, l);
      if queue != [] && queue[0] == id then Some(Line(queue[1..], id)) else None
    case Idle(_, _, _) => if Settled(all, q, past, l) == [] then Some(Line([], -1)) else None
    case Stop(_) => if Settled(all, q, past, l) == [] then Some(Line([], -1)) else None
  }

  /** The queue that a log tells of: threads join it at the back when they arrive, wake up or are
      preempted; the one in front runs; nobody is in it while the machine idles or stops.  None
      when the log breaks that. */
  function LineOf(all: seq<Task>, q: nat, log: seq<Entry>): Option<Line> {
    if log == [] then Some(Line([], -1))
    else
      var past, e := log[..|log| - 1], log[|log| - 1];
      match LineOf(all, q, past)
      case None => None
      case Some(l) => LineStep(all, q, past, l, e)
  }

  lemma LineAppend(all: seq<Task>, q: nat, log: seq<Entry>, e: Entry)
    ensures LineOf(all, q, log + [e]) ==
      match LineOf(all, q, log) case None => None case Some(l) => LineStep(all, q, log, l, e)
  {
    assert (log + [e])[..|log|] == log;
  }

  // ---------- What the simulator's state says ----------

  /** The log tells of thread `k` what the state says; of the thread that ran last, `cur`, that it
      is in phase `p`. */
  ghost predicate LifeOk(s: Sim, all: seq<Task>, q: nat, k: nat, cur: int, p: Phase)
    requires k < |all|
  {
    var life := LifeOf(all[k], q, s.log, k);
    && life.Some?
    && var l := life.value;
       if k >= |s.threads| then l == Life(Coming, 0, 0)
       else
         && l.elapsed == s.threads[k].elapsed && l.rest == s.threads[k].remainingBurst
         && (if k == cur then l.phase == p
             else if k in s.ready then l.phase == Queued || l.phase == Paused(0)
             else if k in s.io then l.phase == Asleep(s.threads[k].wakeup)
             else l.phase == Over)
  }

  ghost predicate Lives(s: Sim, all: seq<Task>, q: nat, cur: int, p: Phase) {
    forall k :: 0 <= k < |all| ==> LifeOk(s, all, q, k, cur, p)
  }

  /** While arrivals are taken in. */
  ghost predicate Told(s: Sim, all: seq<Task>, q: nat, cur: int, p: Phase) {
    Lives(s, all, q, cur, p) && LineOf(all, q, s.log) == Some(Line(s.ready, cur))
  }

  /** Between turns. */
  ghost predicate Truthful(s: Sim, all: seq<Task>, q: nat) {
    && Lives(s, all, q, -1, Over)
    && LineOf(all, q, s.log).Some? && Settled(all, q, s.log, LineOf(all, q, s.log).value) == s.ready
  }

  /** An entry about others leaves a thread's life alone. */
  lemma SameLife(s: Sim, s': Sim, all: seq<Task>, q: nat, k: nat, cur: int, p: Phase, cur': int, p': Phase, e: Entry)
    requires k < |all| && LifeOk(s, all, q, k, cur, p) && s'.log == s.log + [e] && !Concerns(e, k)
    requires k < |s.threads| <==> k < |s'.threads|
    requires k < |s.threads| ==>
      && s'.threads[k].elapsed == s.threads[k].elapsed && s'.threads[k].remainingBurst == s.threads[k].remainingBurst
      && s'.threads[k].wakeup == s.threads[k].wakeup
    requires (k == cur <==> k == cur') && (k == cur ==> p == p')
    requires (k in s'.ready <==> k in s.ready) && (k in s'.io <==> k in s.io)
    ensures LifeOk(s', all, q, k, cur', p')
  {
    LifeAppend(all[k], q, s.log, e, k);
    hide LifeOf;
  }

  // ---------- Arrivals and wakeups ----------

  lemma EnterTold(s: Sim, all: seq<Task>, q: nat, cur: int, p: Phase)
    requires Told(s, all, q, cur, p) && s.future != [] && Arrived(s, all) && Queues(s) && cur < |s.threads|
    ensures Told(Enter(s), all, q, cur, p)
  {
    var s', n := Enter(s), |s.threads|;
    var e := Arrive(s.future[0].arrival, n);
    assert s.future[0] == all[n];
    LineAppend(all, q, s.log, e);
    hide LineOf;
    forall k | 0 <= k < |all| ensures LifeOk(s', all, q, k, cur, p) {
      assert LifeOk(s, all, q, k, cur, p);
      if k == n { NewLife(s, all, q, cur, p); } else { SameLife(s, s', all, q, k, cur, p, cur, p, e); }
    }
  }

  lemma NewLife(s: Sim, all: seq<Task>, q: nat, cur: int, p: Phase)
    requires s.future != [] && |s.threads| < |all| && s.future[0] == all[|s.threads|] && cur < |s.threads|
    requires LifeOk(s, all, q, |s.threads|, cur, p)
    ensures LifeOk(Enter(s), all, q, |s.threads|, cur, p)
  {
    LifeAppend(all[|s.threads|], q, s.log, Arrive(s.future[0].arrival, |s.threads|), |s.threads|);
    hide LifeOf;
    assert |s.threads| in s.ready + [|s.threads|];
  }

  lemma WakeTold(s: Sim, all: seq<Task>, q: nat, cur: int, p: Phase, k: nat)
    requires Told(s, all, q, cur, p) && k in s.io && k !in s.ready && k < |s.threads| <= |all| && k != cur && Queues(s)
    ensures Told(Wake(s, k), all, q, cur, p)
  {
    LineAppend(all, q, s.log, Wakeup(s.threads[k].wakeup, k));
    hide LineOf, LifeOk;
    forall j | 0 <= j < |all| ensures LifeOk(Wake(s, k), all, q, j, cur, p) {
      WakeLife(s, all, q, cur, p, k, j);
    }
  }

  lemma WakeLife(s: Sim, all: seq<Task>, q: nat, cur: int, p: Phase, k: nat, j: nat)
    requires k in s.io && k !in s.ready && k < |s.threads| <= |all| && k != cur && Queues(s)
    requires j < |all| && LifeOk(s, all, q, j, cur, p)
    ensures LifeOk(Wake(s, k), all, q, j, cur, p)
  {
    if j == k {
      WokenLife(s, all, q, cur, p, k);
    } else {
      WithoutOk(s.io, k);
      SameLife(s, Wake(s, k), all, q, j, cur, p, cur, p, Wakeup(s.threads[k].wakeup, k));
    }
  }

  lemma WokenLife(s: Sim, all: seq<Task>, q: nat, cur: int, p: Phase, k: nat)
    requires k < |s.threads| <= |all| && k in s.io && k !in s.ready && k != cur && LifeOk(s, all, q, k, cur, p)
    ensures LifeOk(Wake(s, k), all, q, k, cur, p)
  {
    LifeAppend(all[k], q, s.log, Wakeup(s.threads[k].wakeup, k), k);
    hide LifeOf, Without;
    assert k in s.ready + [k];
  }

  // ---------- Turns ----------

  /** The first thread of the queue runs for as long as it should. */
  lemma RunTold(s: Sim, all: seq<Task>, q: nat, t: Thread, d: nat)
    requires Truthful(s, all, q) && Queues(s) && s.ready != [] && s.ready[0] < |s.threads| <= |all|
    requires s.threads[s.ready[0]].lastQueued <= s.time && s.time == Spent(s.log)
    requires var k := s.ready[0];
      var l := Life(Queued, s.threads[k].elapsed, s.threads[k].remainingBurst);
      d == RunFor(all[k], l, q) && AfterRun(all[k], l, d) == Life(AfterRun(all[k], l, d).phase, t.elapsed, t.remainingBurst)
    requires t.wakeup == s.threads[s.ready[0]].wakeup
    ensures var k := s.ready[0];
      var l := Life(Queued, s.threads[k].elapsed, s.threads[k].remainingBurst);
      Told(Advance(Dequeue(s), k, t, d), all, q, k, AfterRun(all[k], l, d).phase)
  {
    var k := s.ready[0];
    var l := Life(Queued, s.threads[k].elapsed, s.threads[k].remainingBurst);
    var s', e, p := Advance(Dequeue(s), k, t, d), Run(s.time, k, d), AfterRun(all[k], l, d).phase;
    LineAppend(all, q, s.log, e);
    assert LineOf(all, q, s'.log) == Some(Line(s.ready[1..], k));
    hide LineOf, Settled;
    assert s.ready == [k] + s.ready[1..];
    forall j | 0 <= j < |all| ensures LifeOk(s', all, q, j, k, p) {
      assert LifeOk(s, all, q, j, -1, Over);
      if j == k {
        RunLife(s, s', all, q, k, t, d);
      } else {
        SameLife(s, s', all, q, j, -1, Over, k, p, e);
      }
    }
  }

  lemma RunLife(s: Sim, s': Sim, all: seq<Task>, q: nat, k: nat, t: Thread, d: nat)
    requires k < |s.threads| == |s'.threads| && |s.threads| <= |all| && k in s.ready && LifeOk(s, all, q, k, -1, Over) && s.time == Spent(s.log)
    requires s'.log == s.log + [Run(s.time, k, d)] && s'.threads[k] == t
    requires var l := Life(Queued, s.threads[k].elapsed, s.threads[k].remainingBurst);
      d == RunFor(all[k], l, q) && AfterRun(all[k], l, d) == Life(AfterRun(all[k], l, d).phase, t.elapsed, t.remainingBurst)
    ensures var l := Life(Queued, s.threads[k].elapsed, s.threads[k].remainingBurst);
      LifeOk(s', all, q, k, k, AfterRun(all[k], l, d).phase)
  {
    LifeAppend(all[k], q, s.log, Run(s.time, k, d), k);
    hide LifeOf, Spent;
  }

  /** It goes to wait for I/O. */
  lemma BlockTold(s: Sim, all: seq<Task>, q: nat, k: nat, w: nat)
    requires Told(s, all, q, k, Paused(w)) && w > 0 && k < |s.threads| <= |all| && k !in s.ready && k !in s.io && s.time == Spent(s.log)
    ensures Truthful(Block(s, k, w), all, q)
  {
    var s', e := Block(s, k, w), IoWait(s.time, k, w);
    LineAppend(all, q, s.log, e);
    assert LineOf(all, q, s'.log) == Some(Line(s.ready, -1));
    hide LineOf;
    forall j | 0 <= j < |all| ensures LifeOk(s', all, q, j, -1, Over) {
      assert LifeOk(s, all, q, j, k, Paused(w));
      if j == k { BlockLife(s, all, q, k, w); } else { SameLife(s, s', all, q, j, k, Paused(w), -1, Over, e); }
    }
  }

  lemma BlockLife(s: Sim, all: seq<Task>, q: nat, k: nat, w: nat)
    requires k < |s.threads| <= |all| && k !in s.ready && w > 0 && LifeOk(s, all, q, k, k, Paused(w)) && s.time == Spent(s.log)
    ensures LifeOk(Block(s, k, w), all, q, k, -1, Over)
  {
    LifeAppend(all[k], q, s.log, IoWait(s.time, k, w), k);
    hide LifeOf, Spent;
    assert k in s.io + [k];
  }

  /** It has been preempted and goes to the back of the queue. */
  lemma RequeueTold(s: Sim, all: seq<Task>, q: nat, k: nat)
    requires Told(s, all, q, k, Paused(0)) && k < |s.threads| <= |all| && k !in s.io
    ensures Truthful(Requeue(s, k), all, q)
  {
    var s' := Requeue(s, k);
    assert LifeOk(s, all, q, k, k, Paused(0));
    hide LineOf, LifeOf;
    forall j | 0 <= j < |all| ensures LifeOk(s', all, q, j, -1, Over) {
      assert LifeOk(s, all, q, j, k, Paused(0));
      assert j != k ==> (j in s.ready + [k] <==> j in s.ready);
      assert k in s.ready + [k];
    }
  }

  /** It is finished. */
  lemma FinishTold(s: Sim, all: seq<Task>, q: nat, k: nat)
    requires Told(s, all, q, k, Over) && k < |s.threads| <= |all| && k !in s.ready && k !in s.io
    ensures Truthful(s, all, q)
  {
    assert LifeOk(s, all, q, k, k, Over);
    hide LineOf, LifeOf;
    forall j | 0 <= j < |all| ensures LifeOk(s, all, q, j, -1, Over) {
      assert LifeOk(s, all, q, j, k, Over);
    }
  }

  // ---------- Idling, the start and the end ----------

  lemma RestTold(s: Sim, all: seq<Task>, q: nat, until: nat)
    requires Truthful(s, all, q) && s.ready == [] && s.time <= until
    ensures Told(Rest(s, until), all, q, -1, Over)
  {
    var s', e := Rest(s, until), Idle(s.time, until - s.time, |s.ready|);
    LineAppend(all, q, s.log, e);
    hide LineOf;
    forall j | 0 <= j < |all| ensures LifeOk(s', all, q, j, -1, Over) {
      assert LifeOk(s, all, q, j, -1, Over);
      SameLife(s, s', all, q, j, -1, Over, -1, Over, e);
    }
  }

  lemma ToldNow(s: Sim, all: seq<Task>, q: nat)
    requires Told(s, all, q, -1, Over)
    ensures Truthful(s, all, q)
  {
  }

  lemma StartTold(s: Sim, all: seq<Task>, q: nat)
    requires s.log == [Start] && s.ready == [] && s.threads == []
    ensures Told(s, all, q, -1, Over)
  {
    assert [Start][..0] == [];
    assert LineOf(all, q, []) == Some(Line([], -1));
    forall k | 0 <= k < |all| ensures LifeOk(s, all, q, k, -1, Over) {
      assert LifeOf(all[k], q, [], k) == Some(Life(Coming, 0, 0));
    }
  }

  /** The whole log is that of a first-in first-out queue, and every thread's part in it is a
      complete life. */
  ghost predicate Faithful(all: seq<Task>, q: nat, log: seq<Entry>) {
    && LineOf(all, q, log).Some?
    && (forall k :: 0 <= k < |all| ==>
          LifeOf(all[k], q, log, k).Some? && LifeOf(all[k], q, log, k).value.phase == Over)
  }

  lemma StopFaithful(s: Sim, all: seq<Task>, q: nat)
    requires Truthful(s, all, q) && s.ready == [] && s.io == [] && |s.threads| == |all|
    ensures Faithful(all, q, s.log + [Stop(s.time)])
  {
    LineAppend(all, q, s.log, Stop(s.time));
    forall k | 0 <= k < |all|
      ensures LifeOf(all[k], q, s.log + [Stop(s.time)], k).Some? && LifeOf(all[k], q, s.log + [Stop(s.time)], k).value.phase == Over
    {
      assert LifeOk(s, all, q, k, -1, Over);
      LifeAppend(all[k], q, s.log, Stop(s.time), k);
    }
  }
}
