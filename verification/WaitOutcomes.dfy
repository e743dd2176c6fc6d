/** How a wait ends: it is refused only when the thread is not a child of the caller or has
    been waited for before, and any other wait ends, once the child has exited, with the code
    that the child left with. */
module WaitOutcomes {
  import opened Lists
  import opened Storage
  import opened WaitProtocol
  import opened WaitSafety
  import opened WaitCodes

  // ---------- Every child is accounted for ----------

  ghost predicate HasWaited(trace: seq<Event>, p: nat, c: nat) {
    exists code :: Waited(p, c, code) in trace
  }

  /** The parent knows the child: it is on its list, or the parent is busy creating it or
      waiting for it, or it has waited for it. */
  ghost predicate Known(s: State, p: nat, c: nat) {
    && p < |s.procs|
    && (c in s.procs[p].children || Mentions(s.procs[p].pc, c) || HasWaited(s.trace, p, c) || Leaving(s.procs[p].pc))
  }

  ghost predicate Accounted(s: State) {
    forall p, c :: ChildOf(s, c, p) ==> Known(s, p, c)
  }

  lemma WaitedStays(trace: seq<Event>, e: Event, p: nat, c: nat)
    ensures HasWaited(trace, p, c) ==> HasWaited(trace + [e], p, c)
    ensures e.Waited? ==> HasWaited(trace + [e], e.p, e.c)
  {
    if HasWaited(trace, p, c) {
      var code :| Waited(p, c, code) in trace;
      assert Waited(p, c, code) in trace + [e];
    }
    assert e in trace + [e];
  }

  lemma CreateKnown(s: State, t: nat, p: nat, c: nat)
    requires Inv(s) && t < |s.procs| && ChildOf(s, c, p) && Known(s, p, c)
    ensures Known(StepCreate(s, t), p, c)
  {
    assert FamilyOk(s, t);
    if s.procs[t].pc.CreateRef? || s.procs[t].pc.CreateParentRef? {
      assert RefOk(s, s.procs[t].pc.c);
    }
  }

  lemma WaitKnown(s: State, t: nat, p: nat, c: nat)
    requires Inv(s) && t < |s.procs| && ChildOf(s, c, p) && Known(s, p, c)
    ensures Known(StepWait(s, t), p, c)
  {
    var pc := s.procs[t].pc;
    assert FamilyOk(s, t);
    if pc.WaitUnlink? {
      WithoutOk(s.procs[t].children, pc.c);
    } else if pc.WaitDrop? || pc.WaitFree? {
      WaitedStays(s.trace, Waited(t, pc.c, pc.code), p, c);
    }
  }

  lemma ExitKnown(s: State, t: nat, p: nat, c: nat)
    requires Inv(s) && t < |s.procs| && ChildOf(s, c, p) && Known(s, p, c)
    ensures Known(StepExit(s, t), p, c)
  {
    if s.procs[t].pc.ExitUp? {
      WaitedStays(s.trace, Exited(t, ExitCode(s.statuses[t])), p, c);
    }
  }

  lemma StepKnown(s: State, t: nat, p: nat, c: nat)
    requires Inv(s) && t < |s.procs| && ChildOf(s, c, p) && Known(s, p, c)
    ensures Known(Step(s, t), p, c)
  {
    hide StepCreate, StepWait, StepExit, Known, Inv;
    CreateKnown(s, t, p, c);
    WaitKnown(s, t, p, c);
    ExitKnown(s, t, p, c);
  }

  lemma CallKnown(s: State, a: Action, p: nat, c: nat)
    requires Inv(s) && a.t < |s.procs| && s.procs[a.t].pc.Run? && !a.Go?
    requires ChildOf(s, c, p) ==> Known(s, p, c)
    requires ChildOf(Do(s, a), c, p)
    ensures Known(Do(s, a), p, c)
  {
    if a.Wait? { WaitedStays(s.trace, Refused(a.t, a.c), p, c); }
  }

  lemma StepParents(s: State, t: nat)
    requires Inv(s) && t < |s.procs|
    ensures |Step(s, t).procs| == |s.procs| && forall u :: 0 <= u < |s.procs| ==> Step(s, t).procs[u].parent == s.procs[u].parent
  {
    hide Step;
    StepInv(s, t);
    StepKept(s, t);
  }

  lemma DoAccounted(s: State, a: Action)
    requires Inv(s) && Accounted(s)
    ensures Accounted(Do(s, a))
  {
    forall p, c | ChildOf(Do(s, a), c, p) ensures Known(Do(s, a), p, c) {
      if a.t < |s.procs| && a.Go? {
        StepParents(s, a.t);
        hide Step;
        assert ChildOf(s, c, p);
        StepKnown(s, a.t, p, c);
      } else if a.t < |s.procs| && s.procs[a.t].pc.Run? {
        CallKnown(s, a, p, c);
      } else {
        assert ChildOf(s, c, p);
      }
    }
  }

  lemma {:induction false} AlwaysAccounted(run: seq<Action>)
    ensures Accounted(After(run))
  {
    if run != [] {
      AlwaysAccounted(run[..|run| - 1]);
      AlwaysInv(run[..|run| - 1]);
      DoAccounted(After(run[..|run| - 1]), run[|run| - 1]);
    }
  }

  // ---------- Refusals ----------

  /** A wait is refused if and only if the thread is not a child of the caller or has been
      waited for; otherwise the caller goes to wait. */
  lemma RefusedExactly(run: seq<Action>, p: nat, c: nat)
    requires p < |After(run).procs| && After(run).procs[p].pc.Run?
    ensures var s, s' := After(run), After(run + [Wait(p, c)]);
      if ChildOf(s, c, p) && !HasWaited(s.trace, p, c) then s' == s.SetPc(p, WaitDown(c)) else s' == s.Log(Refused(p, c))
  {
    var s := After(run);
    assert (run + [Wait(p, c)])[..|run|] == run;
    AlwaysCodes(run);
    AlwaysAccounted(run);
    WalkSafe(s, p);
    if ChildOf(s, c, p) && !HasWaited(s.trace, p, c) {
      assert Known(s, p, c);
    } else {
      if 0 < c < |s.procs| { assert FamilyOk(s, c); }
      SecondWaitRefused(run, p, c);
    }
  }

  /** The trace has grown by one event at most, and that one is no refusal. */
  ghost predicate Unrefused(trace: seq<Event>, trace': seq<Event>) {
    trace' == trace || (|trace'| == |trace| + 1 && trace == trace'[..|trace|] && !trace'[|trace|].Refused?)
  }

  lemma StepTrace(s: State, t: nat)
    requires Shape(s) && t < |s.procs|
    ensures Unrefused(s.trace, Step(s, t).trace)
  {
    hide Shape;
  }

  /** Only a call of process_wait is ever refused. */
  lemma TraceStep(s: State, a: Action)
    requires Shape(s)
    ensures var s' := Do(s, a);
      || Unrefused(s.trace, s'.trace)
      || (a.Wait? && a.t < |s.procs| && s.procs[a.t].pc.Run? && s'.trace == s.trace + [Refused(a.t, a.c)])
  {
    hide Step;
    if a.Go? && a.t < |s.procs| { StepTrace(s, a.t); }
  }

  lemma PrefixKept(trace: seq<Event>, trace': seq<Event>, j: nat)
    requires j < |trace| <= |trace'| && trace == trace'[..|trace|]
    ensures trace[j] == trace'[j] && trace[..j] == trace'[..j]
  {
  }

  /** One more action: the trace stays, or grows by one event, and then a refusal answers a wait
      for a thread that is not a child or has been waited for. */
  lemma LastAction(past: seq<Action>, a: Action)
    ensures var s, s' := After(past), After(past + [a]);
      || s'.trace == s.trace
      || (|s'.trace| == |s.trace| + 1 && s'.trace[..|s.trace|] == s.trace
          && (s'.trace[|s.trace|].Refused? ==>
                && a.Wait? && s'.trace[|s.trace|] == Refused(a.t, a.c)
                && (!ChildOf(s, a.c, a.t) || HasWaited(s.trace, a.t, a.c))))
  {
    assert (past + [a])[..|past|] == past;
    AlwaysInv(past);
    TraceStep(After(past), a);
    hide Do;
    if a.Wait? && a.t < |After(past).procs| && After(past).procs[a.t].pc.Run? { RefusedExactly(past, a.t, a.c); }
  }

  /** Every refusal in a trace was the answer to a wait for a thread that was not a child of
      the caller then, or for which the caller had a report already. */
  lemma {:induction false} RefusedOnlyThen(run: seq<Action>, j: nat, p: nat, c: nat) returns (i: nat)
    requires j < |After(run).trace| && After(run).trace[j] == Refused(p, c)
    ensures i < |run| && run[i] == Wait(p, c) && After(run[..i]).trace == After(run).trace[..j]
    ensures !ChildOf(After(run[..i]), c, p) || HasWaited(After(run).trace[..j], p, c)
  {
    assert run != [];
    hide After, ChildOf, HasWaited;
    var past, a := run[..|run| - 1], run[|run| - 1];
    assert past + [a] == run;
    LastAction(past, a);
    if j < |After(past).trace| {
      PrefixKept(After(past).trace, After(run).trace, j);
      i := RefusedOnlyThen(past, j, p, c);
      assert run[..i] == past[..i];
    } else {
      i := |run| - 1;
    }
  }

  // ---------- Waits that are not refused ----------

  /** After the run `before`, thread `p` calls process_wait for a child that it has not waited
      for, and during the rest of `did` it has not come back from it before the end. */
  ghost predicate InWait(before: seq<Action>, did: seq<Action>, p: nat, c: nat) {
    var s := After(before);
    && p < |s.procs| && s.procs[p].pc.Run? && ChildOf(s, c, p) && !HasWaited(s.trace, p, c)
    && did != [] && did[0] == Wait(p, c)
    && (forall j :: 0 < j < |did| ==>
          var x := After(before + did[..j]); p < |x.procs| && !x.procs[p].pc.Run?)
  }

  /** Thread `p` is still inside that wait, or has a report. */
  ghost predicate Awaits(s: State, p: nat, c: nat) {
    && p < |s.procs|
    && match s.procs[p].pc
       case WaitDown(d) => d == c
       case WaitRead(d) => d == c
       case WaitUnlink(d, _) => d == c
       case WaitDrop(d, _) => d == c
       case WaitFree(d, _) => d == c
       case Run => HasWaited(s.trace, p, c)
       case _ => false
  }

  lemma OtherAwaits(s: State, a: Action, p: nat, c: nat)
    requires Inv(s) && Awaits(s, p, c) && !s.procs[p].pc.Run? && !(a.Go? && a.t == p)
    ensures Awaits(Do(s, a), p, c)
  {
    if a.t < |s.procs| && a.Go? {
      hide Step;
      StepInv(s, a.t);
      StepKept(s, a.t);
    }
  }

  lemma StepAwaits(s: State, p: nat, c: nat)
    requires Shape(s) && Awaits(s, p, c) && !s.procs[p].pc.Run?
    ensures Awaits(Step(s, p), p, c)
  {
    var pc := s.procs[p].pc;
    if pc.WaitDrop? || pc.WaitFree? {
      WaitedStays(s.trace, Waited(p, c, pc.code), p, c);
    }
  }

  lemma {:induction false} AlwaysAwaits(before: seq<Action>, did: seq<Action>, p: nat, c: nat)
    requires InWait(before, did, p, c)
    ensures Awaits(After(before + did), p, c)
    decreases |did|
  {
    hide Do, Awaits;
    var past, a := did[..|did| - 1], did[|did| - 1];
    assert (before + did)[..|before + did| - 1] == before + past;
    if |did| == 1 {
      RefusedExactly(before, p, c);
      assert did == [Wait(p, c)];
      StartAwaits(After(before), p, c);
    } else {
      forall j | 0 < j < |past|
        ensures var x := After(before + past[..j]); p < |x.procs| && !x.procs[p].pc.Run?
      {
        assert past[..j] == did[..j];
      }
      AlwaysAwaits(before, past, p, c);
      OneMoreAwaits(before + past, a, p, c);
    }
  }

  lemma StartAwaits(s: State, p: nat, c: nat)
    requires p < |s.procs|
    ensures Awaits(s.SetPc(p, WaitDown(c)), p, c)
  {
  }

  lemma OneMoreAwaits(run: seq<Action>, a: Action, p: nat, c: nat)
    requires p < |After(run).procs| && !After(run).procs[p].pc.Run? && Awaits(After(run), p, c)
    ensures Awaits(Do(After(run), a), p, c)
  {
    AlwaysInv(run);
    hide Step, Awaits, Inv;
    if a.Go? && a.t == p { StepAwaits(After(run), p, c); } else { OtherAwaits(After(run), a, p, c); }
  }

  /** When such a wait returns, it is with a report, and the code in it is the one that the
      child has left with. */
  lemma WaitAnswered(before: seq<Action>, did: seq<Action>, p: nat, c: nat)
    requires InWait(before, did, p, c)
    requires p < |After(before + did).procs| && After(before + did).procs[p].pc.Run?
    ensures var left := LeftWith(before + did, c);
      left.Some? && Waited(p, c, left.value) in After(before + did).trace
  {
    AlwaysAwaits(before, did, p, c);
    var s := After(before + did);
    assert HasWaited(s.trace, p, c);
    var code :| Waited(p, c, code) in s.trace;
    var j :| 0 <= j < |s.trace| && s.trace[j] == Waited(p, c, code);
    WaitReportsFinalCode(before + did, j);
  }

  // ---------- Calls end ----------

  /** How many steps of its own a thread is at most away from the end of what it is doing. */
  function StepsLeft(pc: Pc, children: nat): nat {
    match pc
    case CreateRef(_) => 4
    case CreateLink(_) => 3
    case CreateParentRef(_) => 2
    case CreateStart(_) => 1
    case WaitDown(_) => 5
    case WaitRead(_) => 4
    case WaitUnlink(_, _) => 3
    case WaitDrop(_, _) => 2
    case WaitFree(_, _) => 1
    case ExitUp => 3 * children + 4
    case ExitPop => 3 * children + 3
    case ExitDec(_) => 3 * children + 5
    case ExitPopFree(_) => 3 * children + 4
    case ExitDrop => 2
    case ExitFree => 1
    case _ => 0
  }

  ghost function Left(s: State, t: nat): nat
    requires t < |s.procs|
  {
    StepsLeft(s.procs[t].pc, |s.procs[t].children|)
  }

  /** Nothing keeps thread `t` from going on: it has been started, and if it waits for a child,
      the child has exited. */
  ghost predicate Unhindered(s: State, t: nat) {
    t < |s.procs| && !s.procs[t].pc.NotStarted? && (s.procs[t].pc.WaitDown? ==> s.procs[t].pc.c < |s.procs| && Done(s.procs[s.procs[t].pc.c].pc))
  }

  lemma CreateNearer(s: State, t: nat)
    requires Inv(s) && t < |s.procs|
    requires s.procs[t].pc.CreateRef? || s.procs[t].pc.CreateLink? || s.procs[t].pc.CreateParentRef? || s.procs[t].pc.CreateStart?
    ensures Left(StepCreate(s, t), t) < Left(s, t) && !StepCreate(s, t).procs[t].pc.WaitDown? && !StepCreate(s, t).procs[t].pc.NotStarted?
  {
    assert FamilyOk(s, t) && RefOk(s, s.procs[t].pc.c);
  }

  lemma WaitNearer(s: State, t: nat)
    requires Inv(s) && Unhindered(s, t)
    requires var pc := s.procs[t].pc; pc.WaitDown? || pc.WaitRead? || pc.WaitUnlink? || pc.WaitDrop? || pc.WaitFree?
    ensures Left(StepWait(s, t), t) < Left(s, t) && !StepWait(s, t).procs[t].pc.WaitDown? && !StepWait(s, t).procs[t].pc.NotStarted?
  {
    if s.procs[t].pc.WaitDown? {
      assert FamilyOk(s, t);
      ListedAlive(s, t, s.procs[t].pc.c);
      assert CodeOk(s, s.procs[t].pc.c);
    }
  }

  lemma ExitNearer(s: State, t: nat)
    requires Shape(s) && t < |s.procs|
    requires Leaving(s.procs[t].pc) && !s.procs[t].pc.Dead?
    ensures Left(StepExit(s, t), t) < Left(s, t) && !StepExit(s, t).procs[t].pc.WaitDown? && !StepExit(s, t).procs[t].pc.NotStarted?
  {
  }

  lemma Nearer(s: State, t: nat)
    requires Inv(s) && Unhindered(s, t) && Left(s, t) > 0
    ensures t < |Step(s, t).procs| && Left(Step(s, t), t) < Left(s, t) && Unhindered(Step(s, t), t)
  {
    hide StepCreate, StepWait, StepExit, Left;
    StepParents(s, t);
    var pc := s.procs[t].pc;
    if pc.CreateRef? || pc.CreateLink? || pc.CreateParentRef? || pc.CreateStart? {
      CreateNearer(s, t);
    } else if pc.WaitDown? || pc.WaitRead? || pc.WaitUnlink? || pc.WaitDrop? || pc.WaitFree? {
      WaitNearer(s, t);
    } else {
      LeftMeans(s, t);
      ExitNearer(s, t);
    }
  }

  lemma LeftMeans(s: State, t: nat)
    requires t < |s.procs|
    ensures Left(s, t) == 0 <==> s.procs[t].pc.Run? || s.procs[t].pc.Dead? || s.procs[t].pc.NotStarted?
    ensures Left(s, t) <= 3 * |s.procs[t].children| + 5
  {
  }

  function Steps(t: nat, k: nat): seq<Action> {
    seq(k, _ => Go(t))
  }

  lemma OneStep(run: seq<Action>, t: nat)
    requires Unhindered(After(run), t)
    ensures Inv(After(run)) && t < |After(run).procs| && After(run + [Go(t)]) == Step(After(run), t)
  {
    hide Step;
    AlwaysInv(run);
    assert (run + [Go(t)])[..|run|] == run;
  }

  lemma {:induction false} EndsIn(run: seq<Action>, t: nat, n: nat) returns (k: nat)
    requires Unhindered(After(run), t) && Left(After(run), t) <= n
    ensures k <= n && Unhindered(After(run + Steps(t, k)), t) && Left(After(run + Steps(t, k)), t) == 0
    decreases n
  {
    hide Step, Left, After, Unhindered;
    var s := After(run);
    OneStep(run, t);
    if Left(s, t) == 0 {
      assert run + Steps(t, 0) == run;
      return 0;
    }
    var next := run + [Go(t)];
    Nearer(s, t);
    var j := EndsIn(next, t, n - 1);
    assert next + Steps(t, j) == run + Steps(t, j + 1);
    return j + 1;
  }

  /** Creating a thread, leaving, and waiting for a child that has exited all come to an end
      within a number of the thread's own steps that depends on its children alone. */
  lemma CallsEnd(run: seq<Action>, t: nat)
    requires Unhindered(After(run), t)
    ensures exists k :: 0 <= k <= 3 * |After(run).procs[t].children| + 5 && AtRest(After(run + Steps(t, k)), t)
  {
    LeftMeans(After(run), t);
    var k := EndsIn(run, t, 3 * |After(run).procs[t].children| + 5);
    LeftMeans(After(run + Steps(t, k)), t);
    assert AtRest(After(run + Steps(t, k)), t);
  }

  ghost predicate AtRest(s: State, t: nat) {
    t < |s.procs| && (s.procs[t].pc.Run? || s.procs[t].pc.Dead?)
  }
}
