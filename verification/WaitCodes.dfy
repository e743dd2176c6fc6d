/** What process_wait reports: the final code of one of the caller's own children, after
    that child's exit, and once. */
module WaitCodes {
  import opened Lists
  import opened Storage
  import opened WaitProtocol
  import opened WaitSafety

  /** `p` has waited for its child `c`, and can not come to do so again. */
  ghost predicate Settled(s: State, p: nat, c: nat)
    requires Shape(s)
  {
    p < |s.procs| && ChildOf(s, c, p) && c !in s.procs[p].children && !Mentions(s.procs[p].pc, c)
  }

  /** An exit is in the trace as soon as it has happened, with the code it left. */
  ghost predicate ExitsLogged(s: State)
    requires Shape(s)
  {
    && (forall c :: 0 < c < |s.procs| && Done(s.procs[c].pc) ==> Exited(c, ExitCode(s.statuses[c])) in s.trace)
    && (forall e :: e in s.trace && e.Exited? ==>
          0 < e.c < |s.procs| && Done(s.procs[e.c].pc) && e.code == ExitCode(s.statuses[e.c]))
  }

  ghost predicate WaitsSettled(s: State)
    requires Shape(s)
  {
    forall e :: e in s.trace && e.Waited? ==> Settled(s, e.p, e.c)
  }

  /** Every reported wait has the child's exit, with that code, before it and no other wait
      for that child. */
  ghost predicate TraceOk(trace: seq<Event>) {
    && (forall j :: 0 <= j < |trace| && trace[j].Waited? ==> Exited(trace[j].c, trace[j].code) in trace[..j])
    && (forall i, j :: 0 <= i < j < |trace| && trace[i].Waited? && trace[j].Waited? ==> trace[i].c != trace[j].c)
    && (forall i, j :: 0 <= i < j < |trace| && trace[i].Exited? && trace[j].Exited? ==> trace[i].c != trace[j].c)
  }

  ghost predicate CodesInv(s: State) {
    Inv(s) && ExitsLogged(s) && WaitsSettled(s) && TraceOk(s.trace)
  }

  // ---------- The trace grows ----------

  lemma TraceGrows(trace: seq<Event>, e: Event)
    requires TraceOk(trace)
    requires e.Waited? ==> Exited(e.c, e.code) in trace && forall x :: x in trace && x.Waited? ==> x.c != e.c
    requires e.Exited? ==> forall x :: x in trace && x.Exited? ==> x.c != e.c
    ensures TraceOk(trace + [e])
  {
    var trace' := trace + [e];
    forall j | 0 <= j < |trace'| && trace'[j].Waited?
      ensures Exited(trace'[j].c, trace'[j].code) in trace'[..j]
    {
      assert trace'[..j] == if j < |trace| then trace[..j] else trace;
    }
    forall i, j | 0 <= i < j < |trace'| && trace'[i].Waited? && trace'[j].Waited? ensures trace'[i].c != trace'[j].c {
      assert trace'[i] == trace[i] && trace[i] in trace;
    }
    forall i, j | 0 <= i < j < |trace'| && trace'[i].Exited? && trace'[j].Exited? ensures trace'[i].c != trace'[j].c {
      assert trace'[i] == trace[i] && trace[i] in trace;
    }
  }

  // ---------- Steps that log nothing ----------

  /** `s'` differs from `s` in nothing the trace is about, except that `t` may have taken up a
      child that is not settled. */
  ghost predicate Silent(s: State, s': State, t: nat)
    requires Shape(s) && Shape(s')
  {
    && t < |s.procs| <= |s'.procs|
    && (forall u :: 0 <= u < |s.procs| ==>
          && s'.procs[u].parent == s.procs[u].parent
          && (Done(s'.procs[u].pc) == Done(s.procs[u].pc))
          && (u > 0 && Done(s.procs[u].pc) ==> ExitCode(s'.statuses[u]) == ExitCode(s.statuses[u])))
    && (forall u :: |s.procs| <= u < |s'.procs| ==> !Done(s'.procs[u].pc))
    && (forall u, c :: 0 <= u < |s.procs| && Settled(s, u, c) ==> Settled(s', u, c))
  }

  lemma SilentCodes(s: State, s': State, t: nat)
    requires CodesInv(s) && Inv(s') && Silent(s, s', t) && s'.trace == s.trace
    ensures CodesInv(s')
  {
  }

  /** Thread `t` has moved; a thread it started may have begun to run. */
  ghost predicate OthersKept(s: State, s': State, t: nat) {
    && Shape(s) && Shape(s') && t < |s.procs| == |s'.procs| && s'.procs[t].parent == s.procs[t].parent
    && (forall v :: 0 <= v < |s.procs| && v != t ==>
          s'.procs[v] == s.procs[v] || (s'.procs[v] == s.procs[v].(pc := Run) && s.procs[v].pc.NotStarted?))
    && (forall v :: 0 <= v < |s.procs| ==> ExitCode(s'.statuses[v]) == ExitCode(s.statuses[v]))
    && (forall c :: c in s'.procs[t].children || Mentions(s'.procs[t].pc, c) ==>
          c in s.procs[t].children || Mentions(s.procs[t].pc, c))
  }

  lemma KeptIsSilent(s: State, s': State, t: nat)
    requires OthersKept(s, s', t) && Done(s'.procs[t].pc) == Done(s.procs[t].pc)
    ensures Silent(s, s', t)
  {
    forall u, c | 0 <= u < |s.procs| && Settled(s, u, c) ensures Settled(s', u, c) {
    }
  }

  // ---------- Steps ----------

  lemma CreateKept(s: State, t: nat)
    requires Inv(s) && t < |s.procs| && Shape(StepCreate(s, t))
    ensures OthersKept(s, StepCreate(s, t), t)
  {
    assert FamilyOk(s, t);
  }

  lemma WaitKept(s: State, t: nat)
    requires Inv(s) && t < |s.procs| && Shape(StepWait(s, t))
    ensures OthersKept(s, StepWait(s, t), t)
  {
    assert FamilyOk(s, t);
    if s.procs[t].pc.WaitUnlink? {
      WithoutOk(s.procs[t].children, s.procs[t].pc.c);
    }
  }

  lemma ExitKept(s: State, t: nat)
    requires Inv(s) && t < |s.procs| && Shape(StepExit(s, t))
    ensures OthersKept(s, StepExit(s, t), t)
  {
    var cs := s.procs[t].children;
    if s.procs[t].pc.ExitPop? && cs != [] {
      assert cs == [cs[0]] + cs[1..];
    }
  }

  lemma StepKept(s: State, t: nat)
    requires Inv(s) && t < |s.procs| && Shape(Step(s, t))
    ensures OthersKept(s, Step(s, t), t)
  {
    hide OthersKept, StepCreate, StepWait, StepExit;
    var pc := s.procs[t].pc;
    if pc.CreateRef? || pc.CreateLink? || pc.CreateParentRef? || pc.CreateStart? {
      CreateKept(s, t);
    } else if pc.WaitDown? || pc.WaitRead? || pc.WaitUnlink? || pc.WaitDrop? || pc.WaitFree? {
      WaitKept(s, t);
    } else {
      ExitKept(s, t);
    }
  }

  lemma Reported(s: State, t: nat, c: nat, code: int)
    requires CodesInv(s) && t < |s.procs| && (s.procs[t].pc == WaitDrop(c, code) || s.procs[t].pc == WaitFree(c, code))
    ensures TraceOk(s.trace + [Waited(t, c, code)])
  {
    assert FamilyOk(s, t) && CodeOk(s, c);
    assert Exited(c, code) in s.trace;
    forall x | x in s.trace && x.Waited? ensures x.c != c {
      assert Settled(s, x.p, x.c);
    }
    TraceGrows(s.trace, Waited(t, c, code));
  }

  lemma LoggedWait(s: State, s': State, t: nat, c: nat, code: int)
    requires CodesInv(s) && Inv(s') && OthersKept(s, s', t)
    requires s.procs[t].pc == WaitDrop(c, code) || s.procs[t].pc == WaitFree(c, code)
    requires s'.procs[t].pc == Run && s'.procs[t].children == s.procs[t].children
    requires s'.trace == s.trace + [Waited(t, c, code)]
    ensures CodesInv(s')
  {
    Reported(s, t, c, code);
    KeptIsSilent(s, s', t);
    assert FamilyOk(s, t);
    assert Settled(s', t, c);
    forall e | e in s'.trace && e.Waited? ensures Settled(s', e.p, e.c) {
      assert e in s.trace || e == Waited(t, c, code);
    }
  }

  lemma LoggedExit(s: State, s': State, t: nat)
    requires CodesInv(s) && Inv(s') && OthersKept(s, s', t) && t > 0
    requires s.procs[t].pc.ExitUp? && s'.procs[t].pc.ExitPop?
    requires s'.trace == s.trace + [Exited(t, ExitCode(s.statuses[t]))]
    ensures CodesInv(s')
  {
    var e := Exited(t, ExitCode(s.statuses[t]));
    TraceGrows(s.trace, e);
    forall u, c | 0 <= u < |s.procs| && Settled(s, u, c) ensures Settled(s', u, c) {
    }
    assert e in s'.trace;
    forall c | 0 < c < |s'.procs| && Done(s'.procs[c].pc) ensures Exited(c, ExitCode(s'.statuses[c])) in s'.trace {
    }
    forall x | x in s'.trace ensures x in s.trace || x == e {
    }
  }

  lemma CreateNotDone(s: State, t: nat)
    requires Inv(s) && t < |s.procs|
    ensures Done(StepCreate(s, t).procs[t].pc) == Done(s.procs[t].pc)
  {
    assert FamilyOk(s, t);
    if s.procs[t].pc.CreateRef? || s.procs[t].pc.CreateParentRef? {
      assert RefOk(s, s.procs[t].pc.c);
    }
  }

  /** Only the sema_up marks a thread as done. */
  lemma DoneStays(s: State, t: nat)
    requires Inv(s) && t < |s.procs| && !s.procs[t].pc.ExitUp?
    ensures Done(Step(s, t).procs[t].pc) == Done(s.procs[t].pc)
  {
    hide StepCreate, Inv;
    CreateNotDone(s, t);
  }

  lemma StepCodes(s: State, t: nat)
    requires CodesInv(s) && t < |s.procs|
    ensures CodesInv(Step(s, t))
  {
    var s', pc := Step(s, t), s.procs[t].pc;
    StepInv(s, t);
    StepKept(s, t);
    if pc.ExitUp? {
      assert FamilyOk(s, t);
      LoggedExit(s, s', t);
    } else if pc.WaitFree? || (pc.WaitDrop? && s'.procs[t].pc.Run?) {
      LoggedWait(s, s', t, pc.c, pc.code);
    } else {
      DoneStays(s, t);
      KeptIsSilent(s, s', t);
      SilentCodes(s, s', t);
    }
  }

  lemma RefusedCodes(s: State, t: nat, c: nat)
    requires CodesInv(s) && Inv(s.Log(Refused(t, c)))
    ensures CodesInv(s.Log(Refused(t, c)))
  {
    TraceGrows(s.trace, Refused(t, c));
    assert forall x :: x in s.Log(Refused(t, c)).trace ==> x in s.trace || x.Refused?;
  }

  lemma CallCodes(s: State, a: Action)
    requires CodesInv(s) && a.t < |s.procs| && s.procs[a.t].pc.Run? && !a.Go?
    ensures CodesInv(Do(s, a))
  {
    var s', t := Do(s, a), a.t;
    CallInv(s, a);
    WalkSafe(s, t);
    if a.Wait? && a.c !in s.procs[t].children {
      RefusedCodes(s, t, a.c);
    } else {
      CallSilent(s, a);
      SilentCodes(s, s', t);
    }
  }

  lemma CallSilent(s: State, a: Action)
    requires Shape(s) && a.t < |s.procs| && s.procs[a.t].pc.Run? && !a.Go? && s.Walk(a.t) == s
    requires Shape(Do(s, a)) && (a.Wait? ==> a.c in s.procs[a.t].children)
    ensures Silent(s, Do(s, a), a.t) && Do(s, a).trace == s.trace
  {
    forall u, c | 0 <= u < |s.procs| && Settled(s, u, c) ensures Settled(Do(s, a), u, c) {
      CallSettled(s, a, u, c);
    }
    hide Shape, Settled;
  }

  lemma CallSettled(s: State, a: Action, u: nat, c: nat)
    requires Shape(s) && a.t < |s.procs| && s.procs[a.t].pc.Run? && !a.Go? && s.Walk(a.t) == s
    requires Shape(Do(s, a)) && (a.Wait? ==> a.c in s.procs[a.t].children) && Settled(s, u, c)
    ensures Settled(Do(s, a), u, c)
  {
  }

  lemma {:induction false} AlwaysCodes(run: seq<Action>)
    ensures CodesInv(After(run))
  {
    if run != [] {
      var s, a := After(run[..|run| - 1]), run[|run| - 1];
      AlwaysCodes(run[..|run| - 1]);
      if a.t < |s.procs| {
        if a.Go? {
          StepCodes(s, a.t);
        } else if s.procs[a.t].pc.Run? {
          CallCodes(s, a);
        }
      }
    }
  }

  // ---------- The codes threads leave with ----------

  /** What a thread leaves with when `a` is the action that makes it leave. */
  function LeaveCode(a: Action): int {
    if a.Exit? then a.code else if a.Kill? then -1 else 0
  }

  predicate Leaves(s: State, a: Action, c: nat) {
    (a.Exit? || a.Kill? || a.Finish?) && a.t == c && 0 < c < |s.procs| && s.procs[c].pc.Run?
  }

  /** The code with which thread `c` has left in the course of `run`, if it has: that of its
      one exit, kill or return. */
  function LeftWith(run: seq<Action>, c: nat): Option<int> {
    if run == [] then None
    else
      var past := run[..|run| - 1];
      if LeftWith(past, c).Some? then LeftWith(past, c)
      else if Leaves(After(past), run[|run| - 1], c) then Some(LeaveCode(run[|run| - 1]))
      else None
  }

  /** Thread `c` has left with `left`, or its record is as new. */
  ghost predicate LeftOk(s: State, c: nat, left: Option<int>)
    requires Shape(s) && c < |s.procs|
  {
    var x := s.statuses[c];
    if Leaving(s.procs[c].pc) then left == Some(ExitCode(x)) else left == None && !x.killed && x.code == 0
  }

  /** Thread `c` is leaving in both states or in neither, with the same code. */
  ghost predicate SameLeft(s: State, s': State, c: nat) {
    && c < |s.procs| == |s'.procs| == |s.statuses| == |s'.statuses|
    && Leaving(s'.procs[c].pc) == Leaving(s.procs[c].pc)
    && s'.statuses[c].killed == s.statuses[c].killed && s'.statuses[c].code == s.statuses[c].code
  }

  lemma CreateLeft(s: State, t: nat, c: nat)
    requires Inv(s) && t < |s.procs| && c < |s.procs|
    ensures SameLeft(s, StepCreate(s, t), c)
  {
    assert FamilyOk(s, t);
    if s.procs[t].pc.CreateRef? || s.procs[t].pc.CreateParentRef? {
      assert RefOk(s, s.procs[t].pc.c);
    }
  }

  lemma WaitLeft(s: State, t: nat, c: nat)
    requires Shape(s) && t < |s.procs| && c < |s.procs|
    ensures SameLeft(s, StepWait(s, t), c)
  {
    assert PcOk(s.procs[t].pc, |s.procs|);
    hide Shape, ExitCode, Without;
  }

  lemma ExitLeft(s: State, t: nat, c: nat)
    requires Shape(s) && t < |s.procs| && c < |s.procs|
    ensures SameLeft(s, StepExit(s, t), c)
  {
  }

  lemma StepLeft(s: State, t: nat, c: nat)
    requires Inv(s) && t < |s.procs| && c < |s.procs|
    ensures SameLeft(s, Step(s, t), c)
  {
    hide SameLeft, StepCreate, StepWait, StepExit;
    CreateLeft(s, t, c);
    WaitLeft(s, t, c);
    ExitLeft(s, t, c);
  }

  lemma CallLeft(s: State, a: Action, c: nat, left: Option<int>)
    requires Inv(s) && Inv(Do(s, a)) && a.t < |s.procs| && s.procs[a.t].pc.Run? && !a.Go?
    requires if c < |s.procs| then LeftOk(s, c, left) else left == None
    ensures c < |Do(s, a).procs| && c > 0 ==>
      LeftOk(Do(s, a), c, if left.Some? then left else if Leaves(s, a, c) then Some(LeaveCode(a)) else None)
  {
    WalkSafe(s, a.t);
  }

  /** The same for a thread that may not have been created yet. */
  ghost predicate LeftSo(s: State, c: nat, left: Option<int>) {
    Shape(s) && if c < |s.procs| then LeftOk(s, c, left) else left == None
  }

  lemma DoLeft(s: State, a: Action, c: nat, left: Option<int>)
    requires Inv(s) && Inv(Do(s, a)) && c > 0 && LeftSo(s, c, left)
    ensures LeftSo(Do(s, a), c, if left.Some? then left else if Leaves(s, a, c) then Some(LeaveCode(a)) else None)
  {
    if a.t < |s.procs| {
      if a.Go? {
        hide Step;
        if c < |s.procs| { StepLeft(s, a.t, c); }
      } else if s.procs[a.t].pc.Run? {
        CallLeft(s, a, c, left);
      }
    }
  }

  lemma {:induction false} AlwaysLeft(run: seq<Action>, c: nat)
    requires c > 0
    ensures LeftSo(After(run), c, LeftWith(run, c))
  {
    if run != [] {
      hide Do, Inv, LeftSo, Leaves, LeaveCode;
      var past := run[..|run| - 1];
      AlwaysInv(run);
      AlwaysInv(past);
      AlwaysLeft(past, c);
      DoLeft(After(past), run[|run| - 1], c, LeftWith(past, c));
    }
  }

  /** A wait is reported only to the parent, only after the child's exit and with the code the
      child left with: the argument of its exit call, -1 if it was killed, 0 if it returned. */
  lemma WaitReportsFinalCode(run: seq<Action>, j: nat)
    requires j < |After(run).trace| && After(run).trace[j].Waited?
    ensures var s, e := After(run), After(run).trace[j];
      && Exited(e.c, e.code) in s.trace[..j]
      && 0 < e.c < |s.procs| == |s.statuses| && s.procs[e.c].parent == e.p
      && LeftWith(run, e.c) == Some(e.code)
  {
    AlwaysCodes(run);
    var s, e := After(run), After(run).trace[j];
    assert e in s.trace && Settled(s, e.p, e.c);
    assert Exited(e.c, e.code) in s.trace;
    AlwaysLeft(run, e.c);
  }

  /** No child is reported twice. */
  lemma WaitReportsOnce(run: seq<Action>, i: nat, j: nat)
    requires i < |After(run).trace| && After(run).trace[i].Waited?
    requires j < |After(run).trace| && After(run).trace[j].Waited?
    requires After(run).trace[i].c == After(run).trace[j].c
    ensures i == j
  {
    AlwaysCodes(run);
  }

  /** A second wait for the same child, like a wait for a thread that is not a child, is
      refused at once. */
  lemma SecondWaitRefused(run: seq<Action>, p: nat, c: nat)
    requires p < |After(run).procs| && After(run).procs[p].pc.Run?
    requires (exists code :: Waited(p, c, code) in After(run).trace)
             || c >= |After(run).procs| || c == 0 || After(run).procs[c].parent != p
    ensures After(run + [Wait(p, c)]) == After(run).Log(Refused(p, c))
  {
    AlwaysCodes(run);
    var s := After(run);
    assert (run + [Wait(p, c)])[..|run|] == run;
    WalkSafe(s, p);
    if exists code :: Waited(p, c, code) in s.trace {
      var code :| Waited(p, c, code) in s.trace;
      assert Settled(s, p, c);
    } else if c in s.procs[p].children {
      ListedAlive(s, p, c);
    }
  }
}
