/** The log of the scheduling simulator and what can be read off it (scheduling.ipynb). */
module ScheduleLog {

  datatype Entry =
    | Start
    | Arrive(at: nat, id: nat)
    | Wakeup(at: nat, id: nat)
    | IoWait(at: nat, id: nat, dur: nat)
    | Idle(at: nat, dur: nat, queued: nat)
    | Run(at: nat, id: nat, dur: nat)
    | Stop(at: nat)

  /** How long thread `id` has run. */
  function Ran(log: seq<Entry>, id: nat): nat {
    if log == [] then 0
    else
      var e := log[|log| - 1];
      Ran(log[..|log| - 1], id) + if e.Run? && e.id == id then e.dur else 0
  }

  /** How long thread `id` has waited for I/O, counting each wait in full. */
  function Waited(log: seq<Entry>, id: nat): nat {
    if log == [] then 0
    else
      var e := log[|log| - 1];
      Waited(log[..|log| - 1], id) + if e.IoWait? && e.id == id then e.dur else 0
  }

  /** When the last run of thread `id` ended. */
  function EndOf(log: seq<Entry>, id: nat): nat {
    if log == [] then 0
    else
      var e := log[|log| - 1];
      if e.Run? && e.id == id then e.at + e.dur else EndOf(log[..|log| - 1], id)
  }

  /** The time the processor has run or idled. */
  function Spent(log: seq<Entry>): nat {
    if log == [] then 0
    else
      var e := log[|log| - 1];
      Spent(log[..|log| - 1]) + if e.Run? || e.Idle? then e.dur else 0
  }

  /** Runs and idle periods follow one another without gap or overlap. */
  ghost predicate Contiguous(log: seq<Entry>) {
    forall j :: 0 <= j < |log| && (log[j].Run? || log[j].Idle?) ==> log[j].at == Spent(log[..j])
  }

  /** What one more entry does to the sums. */
  ghost predicate Appends(log: seq<Entry>, e: Entry, k: nat) {
    && Ran(log + [e], k) == Ran(log, k) + (if e.Run? && e.id == k then e.dur else 0)
    && Waited(log + [e], k) == Waited(log, k) + (if e.IoWait? && e.id == k then e.dur else 0)
    && EndOf(log + [e], k) == (if e.Run? && e.id == k then e.at + e.dur else EndOf(log, k))
    && Spent(log + [e]) == Spent(log) + (if e.Run? || e.Idle? then e.dur else 0)
  }

  lemma Appended(log: seq<Entry>, e: Entry, id: nat)
    ensures Appends(log, e, id)
  {
    assert (log + [e])[..|log|] == log;
  }

  lemma ContiguousAppend(log: seq<Entry>, e: Entry)
    requires Contiguous(log) && (e.Run? || e.Idle? ==> e.at == Spent(log))
    ensures Contiguous(log + [e])
  {
    forall j | 0 <= j <= |log| && ((log + [e])[j].Run? || (log + [e])[j].Idle?)
      ensures (log + [e])[j].at == Spent((log + [e])[..j])
    {
      assert (log + [e])[..j] == log[..j];
    }
  }

  /** A thread that does not occur in the log has done nothing. */
  ghost predicate Absent(log: seq<Entry>, id: nat) {
    Ran(log, id) == 0 && Waited(log, id) == 0
  }

  /** The log says of thread `id` what it said before. */
  ghost predicate SameFor(log: seq<Entry>, log': seq<Entry>, id: nat) {
    Ran(log', id) == Ran(log, id) && Waited(log', id) == Waited(log, id) && EndOf(log', id) == EndOf(log, id)
  }

  /** Arrivals and wakeups take no time. */
  lemma QuietEntry(log: seq<Entry>, e: Entry)
    requires !e.Run? && !e.Idle? && !e.IoWait?
    ensures Spent(log + [e]) == Spent(log) && forall id: nat :: SameFor(log, log + [e], id)
    ensures Contiguous(log) ==> Contiguous(log + [e])
  {
    Appended(log, e, 0);
    forall id: nat ensures SameFor(log, log + [e], id) { Appended(log, e, id); }
    if Contiguous(log) { ContiguousAppend(log, e); }
  }
}
