/** The wait protocol keeps every wait_status alive while it is referred to, frees it
    exactly once, and reports each child's final code at most once and only after its exit. */
module WaitSafety {
  import opened Counting
  import opened Lists
  import opened WaitProtocol

  // ---------- Structure ----------

  /** `c` is a created thread other than the initial one, and `t` is its parent. */
  ghost predicate ChildOf(s: State, c: nat, t: nat) {
    0 < c < |s.procs| && t < c && s.procs[c].parent == t
  }

  ghost predicate Leaving(pc: Pc) {
    pc.ExitUp? || pc.ExitPop? || pc.ExitDec? || pc.ExitPopFree? || pc.ExitDrop? || pc.ExitFree? || pc.Dead?
  }

  /** What a thread's program point says about the child it is dealing with. */
  ghost predicate PointOk(s: State, t: nat)
    requires Shape(s) && t < |s.procs|
  {
    var cs := s.procs[t].children;
    match s.procs[t].pc
    case CreateRef(c) => ChildOf(s, c, t) && c !in cs && s.procs[c].pc.NotStarted?
    case CreateLink(c) => ChildOf(s, c, t) && c !in cs && s.procs[c].pc.NotStarted?
    case CreateParentRef(c) => ChildOf(s, c, t) && c in cs && s.procs[c].pc.NotStarted?
    case CreateStart(c) => ChildOf(s, c, t) && c in cs && s.procs[c].pc.NotStarted?
    case WaitDown(c) => c in cs
    case WaitRead(c) => c in cs
    case WaitUnlink(c, _) => c in cs
    case WaitDrop(c, _) => ChildOf(s, c, t) && c !in cs
    case WaitFree(c, _) => ChildOf(s, c, t) && c !in cs
    case ExitDec(c) => ChildOf(s, c, t) && c !in cs && t > 0
    case ExitPopFree(c) => ChildOf(s, c, t) && c !in cs && t > 0
    case NotStarted => t > 0 && cs == [] && Creating(s.procs[s.procs[t].parent].pc, t)
    case Run => true
    case ExitUp => t > 0
    case ExitPop => t > 0
    case _ => t > 0 && cs == []
  }

  ghost predicate Creating(pc: Pc, c: nat) {
    pc == CreateRef(c) || pc == CreateLink(c) || pc == CreateParentRef(c) || pc == CreateStart(c)
  }

  ghost predicate FamilyOk(s: State, t: nat)
    requires Shape(s) && t < |s.procs|
  {
    && NoDup(s.procs[t].children)
    && (forall i :: 0 <= i < |s.procs[t].children| ==> ChildOf(s, s.procs[t].children[i], t))
    && (t > 0 ==> s.procs[t].parent < t)
    && PointOk(s, t)
  }

  // ---------- References ----------

  /** The parent's reference to the record of `c`: from the second increment in
      thread_create to its decrement in process_wait or thread_exit. */
  ghost predicate ParentHas(s: State, c: nat)
    requires Shape(s) && c < |s.procs|
  {
    var p := s.procs[s.procs[c].parent];
    || (c in p.children && p.pc != CreateParentRef(c))
    || (p.pc.WaitDrop? && p.pc.c == c)
    || p.pc == ExitDec(c)
  }

  /** The thread's own reference: from the first increment to its decrement at exit. */
  ghost predicate ChildHas(s: State, c: nat)
    requires Shape(s) && c < |s.procs|
  {
    s.procs[s.procs[c].parent].pc != CreateRef(c) && !s.procs[c].pc.ExitFree? && !s.procs[c].pc.Dead?
  }

  ghost predicate ParentFrees(s: State, c: nat)
    requires Shape(s) && c < |s.procs|
  {
    var p := s.procs[s.procs[c].parent];
    (p.pc.WaitFree? && p.pc.c == c) || p.pc == ExitPopFree(c)
  }

  ghost predicate ChildFrees(s: State, c: nat)
    requires Shape(s) && c < |s.procs|
  {
    s.procs[c].pc.ExitFree?
  }

  ghost predicate RefOk(s: State, c: nat)
    requires Shape(s) && c < |s.procs|
  {
    var x := s.statuses[c];
    && x.count == Bit(ParentHas(s, c)) + Bit(ChildHas(s, c))
    && !(ParentFrees(s, c) && ChildFrees(s, c))
    && (ParentFrees(s, c) || ChildFrees(s, c) ==> x.count == 0)
    && x.freed == Bit(x.count == 0 && !ParentFrees(s, c) && !ChildFrees(s, c)
                      && s.procs[s.procs[c].parent].pc != CreateRef(c))
  }

  // ---------- Codes ----------

  ghost predicate Done(pc: Pc) {
    Leaving(pc) && !pc.ExitUp?
  }

  ghost predicate CodeOk(s: State, c: nat)
    requires Shape(s) && c < |s.procs|
  {
    var x, p := s.statuses[c], s.procs[s.procs[c].parent].pc;
    && x.exited + Bit(x.reaped) == Bit(Done(s.procs[c].pc))
    && (x.reaped && c in s.procs[s.procs[c].parent].children ==> (p.WaitRead? || p.WaitUnlink?) && p.c == c)
    && ((p.WaitRead? || p.WaitUnlink? || p.WaitDrop? || p.WaitFree?) && p.c == c ==> x.reaped)
    && ((p.WaitUnlink? || p.WaitDrop? || p.WaitFree?) && p.c == c ==> p.code == ExitCode(x))
  }

  ghost predicate Inv(s: State) {
    && Shape(s) && !s.misused
    && (forall t :: 0 <= t < |s.procs| ==> FamilyOk(s, t))
    && (forall c :: 0 < c < |s.procs| ==> RefOk(s, c))
    && (forall c :: 0 < c < |s.procs| ==> CodeOk(s, c))
  }

  /** A record on a list, or mentioned by its parent, has not been freed. */
  lemma ListedAlive(s: State, t: nat, c: nat)
    requires Inv(s) && t < |s.procs| && c in s.procs[t].children
    ensures ChildOf(s, c, t) && s.statuses[c].freed == 0 && s.statuses[c].count > 0
  {
    assert FamilyOk(s, t);
    var i :| 0 <= i < |s.procs[t].children| && s.procs[t].children[i] == c;
    assert ChildOf(s, s.procs[t].children[i], t);
    assert RefOk(s, c);
  }

  lemma WalkSafe(s: State, t: nat)
    requires Inv(s) && t < |s.procs|
    ensures s.Walk(t) == s
  {
    forall c | c in s.procs[t].children ensures c < |s.statuses| && s.statuses[c].freed == 0 {
      ListedAlive(s, t, c);
    }
  }

  // ---------- Records and families that a step does not concern ----------

  ghost predicate Mentions(pc: Pc, c: nat) {
    match pc
    case CreateRef(d) => d == c
    case CreateLink(d) => d == c
    case CreateParentRef(d) => d == c
    case CreateStart(d) => d == c
    case WaitDown(d) => d == c
    case WaitRead(d) => d == c
    case WaitUnlink(d, _) => d == c
    case WaitDrop(d, _) => d == c
    case WaitFree(d, _) => d == c
    case ExitDec(d) => d == c
    case ExitPopFree(d) => d == c
    case _ => false
  }

  /** Thread `t` has moved, and of the records only that of `c` may have changed. */
  ghost predicate Moved(s: State, s': State, t: nat, c: nat) {
    && Shape(s) && Shape(s') && t < |s.procs| == |s'.procs| && c < |s.procs|
    && !s.procs[t].pc.NotStarted? && !s'.procs[t].pc.NotStarted?
    && s'.procs[t].parent == s.procs[t].parent
    && (forall u :: 0 <= u < |s.procs| && u != t ==> s'.procs[u] == s.procs[u])
    && (forall d :: 0 <= d < |s.procs| && d != c ==> s'.statuses[d] == s.statuses[d])
    && (forall d :: d != c ==> !Mentions(s.procs[t].pc, d) && !Mentions(s'.procs[t].pc, d))
    && (forall d :: d != c ==> (d in s'.procs[t].children <==> d in s.procs[t].children))
    && (s.procs[c].pc.NotStarted? && s.procs[c].parent == t && c > 0 ==> Creating(s'.procs[t].pc, c))
  }

  lemma OtherRecord(s: State, s': State, t: nat, c: nat, d: nat)
    requires Moved(s, s', t, c) && 0 < d < |s.procs| && d != t && d != c && RefOk(s, d) && CodeOk(s, d)
    ensures RefOk(s', d) && CodeOk(s', d)
  {
    assert !Mentions(s.procs[t].pc, d) && !Mentions(s'.procs[t].pc, d);
  }

  lemma OtherFamily(s: State, s': State, t: nat, c: nat, u: nat)
    requires Moved(s, s', t, c) && u < |s.procs| && u != t && FamilyOk(s, u)
    ensures FamilyOk(s', u)
  {
    forall i | 0 <= i < |s.procs[u].children| ensures ChildOf(s', s'.procs[u].children[i], u) {
      assert ChildOf(s, s.procs[u].children[i], u);
    }
    assert u != c ==> !Mentions(s.procs[t].pc, u);
  }

  /** The step of `t` has kept everything, given that it has for `t` and `c`. */
  lemma MovedInv(s: State, s': State, t: nat, c: nat)
    requires Inv(s) && Moved(s, s', t, c) && !s'.misused && FamilyOk(s', t)
    requires c > 0 ==> RefOk(s', c) && CodeOk(s', c)
    requires t > 0 ==> RefOk(s', t) && CodeOk(s', t)
    ensures Inv(s')
  {
    forall u | 0 <= u < |s'.procs| && u != t ensures FamilyOk(s', u) {
      assert FamilyOk(s, u);
      OtherFamily(s, s', t, c, u);
    }
    forall d | 0 < d < |s'.procs| && d != t && d != c ensures RefOk(s', d) && CodeOk(s', d) {
      assert RefOk(s, d) && CodeOk(s, d);
      OtherRecord(s, s', t, c, d);
    }
  }

  /** A step that does not touch the thread's own record. */
  lemma OwnRecord(s: State, s': State, t: nat, c: nat)
    requires Moved(s, s', t, c) && 0 < t != c && FamilyOk(s, t) && RefOk(s, t) && CodeOk(s, t)
    requires s'.procs[t].pc.ExitFree? == s.procs[t].pc.ExitFree? && s'.procs[t].pc.Dead? == s.procs[t].pc.Dead?
    requires Done(s'.procs[t].pc) == Done(s.procs[t].pc)
    ensures RefOk(s', t) && CodeOk(s', t)
  {
    assert s.procs[t].parent < t;
    assert s'.procs[s.procs[t].parent] == s.procs[s.procs[t].parent];
  }

  // ---------- thread_create ----------

  lemma CreateRefInv(s: State, t: nat, c: nat)
    requires Inv(s) && t < |s.procs| && s.procs[t].pc == CreateRef(c)
    ensures Inv(Step(s, t))
  {
    var s' := Step(s, t);
    assert FamilyOk(s, t) && RefOk(s, c) && CodeOk(s, c);
    assert Moved(s, s', t, c);
    if t > 0 { assert RefOk(s, t) && CodeOk(s, t); OwnRecord(s, s', t, c); }
    MovedInv(s, s', t, c);
  }

  lemma CreateLinkInv(s: State, t: nat, c: nat)
    requires Inv(s) && t < |s.procs| && s.procs[t].pc == CreateLink(c)
    ensures Inv(Step(s, t))
  {
    var s' := Step(s, t);
    WalkSafe(s, t);
    assert FamilyOk(s, t) && RefOk(s, c) && CodeOk(s, c);
    LinkFamily(s, s', t, c);
    assert Moved(s, s', t, c);
    if t > 0 { assert RefOk(s, t) && CodeOk(s, t); OwnRecord(s, s', t, c); }
    MovedInv(s, s', t, c);
  }

  lemma LinkFamily(s: State, s': State, t: nat, c: nat)
    requires Inv(s) && t < |s.procs| && s.procs[t].pc == CreateLink(c) && s' == Step(s, t) && s.Walk(t) == s
    ensures Shape(s') && FamilyOk(s', t)
    ensures forall d :: d in s'.procs[t].children <==> d == c || d in s.procs[t].children
  {
    assert FamilyOk(s, t);
    var cs, cs' := s.procs[t].children, s'.procs[t].children;
    assert cs' == [c] + cs;
    forall i | 0 <= i < |cs'| ensures ChildOf(s', cs'[i], t) {
      if i > 0 { assert ChildOf(s, cs[i - 1], t); }
    }
  }

  lemma CreateParentRefInv(s: State, t: nat, c: nat)
    requires Inv(s) && t < |s.procs| && s.procs[t].pc == CreateParentRef(c)
    ensures Inv(Step(s, t))
  {
    var s' := Step(s, t);
    assert FamilyOk(s, t) && RefOk(s, c) && CodeOk(s, c);
    forall i | 0 <= i < |s.procs[t].children| ensures ChildOf(s', s'.procs[t].children[i], t) {
      assert ChildOf(s, s.procs[t].children[i], t);
    }
    assert Moved(s, s', t, c);
    if t > 0 { assert RefOk(s, t) && CodeOk(s, t); OwnRecord(s, s', t, c); }
    MovedInv(s, s', t, c);
  }

  lemma CreateStartInv(s: State, t: nat, c: nat)
    requires Inv(s) && t < |s.procs| && s.procs[t].pc == CreateStart(c)
    ensures Inv(Step(s, t))
  {
    var s' := Step(s, t);
    assert FamilyOk(s, t) && FamilyOk(s, c);
    forall u | 0 <= u < |s'.procs| ensures FamilyOk(s', u) {
      assert FamilyOk(s, u);
      StartFamily(s, s', t, c, u);
    }
    forall d | 0 < d < |s'.procs| ensures RefOk(s', d) && CodeOk(s', d) {
      assert RefOk(s, d) && CodeOk(s, d) && FamilyOk(s, d);
      StartRecord(s, s', t, c, d);
    }
  }

  lemma StartFamily(s: State, s': State, t: nat, c: nat, u: nat)
    requires Shape(s) && t < |s.procs| && s.procs[t].pc == CreateStart(c) && FamilyOk(s, t) && FamilyOk(s, c)
    requires s' == Step(s, t) && u < |s.procs| && FamilyOk(s, u) && Shape(s')
    ensures FamilyOk(s', u)
  {
    StartPoint(s, s', t, c, u);
    assert forall v :: 0 <= v < |s.procs| ==> s'.procs[v].parent == s.procs[v].parent;
    SameFamily(s, s', u);
  }

  lemma StartPoint(s: State, s': State, t: nat, c: nat, u: nat)
    requires Shape(s) && t < |s.procs| && s.procs[t].pc == CreateStart(c) && FamilyOk(s, t) && FamilyOk(s, c)
    requires s' == Step(s, t) && u < |s.procs| && FamilyOk(s, u) && Shape(s')
    ensures PointOk(s', u)
  {
    if u != t && u != c {
      StartPointOther(s, s', t, c, u);
    }
  }

  lemma StartPointOther(s: State, s': State, t: nat, c: nat, u: nat)
    requires Shape(s) && t < |s.procs| && s.procs[t].pc == CreateStart(c) && FamilyOk(s, t) && FamilyOk(s, c)
    requires s' == Step(s, t) && u < |s.procs| && u != t && u != c && FamilyOk(s, u) && Shape(s')
    ensures PointOk(s', u)
  {
    assert s'.procs[u] == s.procs[u];
  }

  lemma StartRecord(s: State, s': State, t: nat, c: nat, d: nat)
    requires Shape(s) && t < |s.procs| && s.procs[t].pc == CreateStart(c) && FamilyOk(s, t) && FamilyOk(s, c)
    requires s' == Step(s, t) && 0 < d < |s.procs| && RefOk(s, d) && CodeOk(s, d) && FamilyOk(s, d) && Shape(s')
    ensures RefOk(s', d) && CodeOk(s', d)
  {
    assert s' == s.SetPc(t, Run).SetPc(c, Run);
    hide Step, Shape;
    StartRecordOf(s, s', t, c, d);
  }

  lemma StartRecordOf(s: State, s': State, t: nat, c: nat, d: nat)
    requires Shape(s) && Shape(s') && t < |s.procs| && s.procs[t].pc == CreateStart(c) && FamilyOk(s, t) && FamilyOk(s, c)
    requires s' == s.SetPc(t, Run).SetPc(c, Run) && 0 < d < |s.procs| && RefOk(s, d) && CodeOk(s, d) && FamilyOk(s, d)
    ensures RefOk(s', d) && CodeOk(s', d)
  {
    if d != t && d != c {
      assert s'.procs[d] == s.procs[d];
    } else if d == c {
      assert s'.procs[c].pc == Run && s'.procs[t].pc == Run;
    }
  }

  // ---------- process_wait ----------

  lemma SameFamily(s: State, s': State, t: nat)
    requires Shape(s) && Shape(s') && t < |s.procs| == |s'.procs| && FamilyOk(s, t)
    requires forall u :: 0 <= u < |s.procs| ==> s'.procs[u].parent == s.procs[u].parent
    requires s'.procs[t].children == s.procs[t].children && PointOk(s', t)
    ensures FamilyOk(s', t)
  {
    forall i | 0 <= i < |s.procs[t].children| ensures ChildOf(s', s'.procs[t].children[i], t) {
      assert ChildOf(s, s.procs[t].children[i], t);
    }
  }

  lemma WaitDownMoved(s: State, t: nat, c: nat)
    requires Inv(s) && t < |s.procs| && s.procs[t].pc == WaitDown(c)
    requires ChildOf(s, c, t) && s.statuses[c].freed == 0 && s.statuses[c].exited > 0
    ensures Moved(s, Step(s, t), t, c) && !Step(s, t).misused && FamilyOk(Step(s, t), t)
  {
    assert FamilyOk(s, t) && RefOk(s, c) && CodeOk(s, c) && FamilyOk(s, c);
    SameFamily(s, Step(s, t), t);
  }

  lemma WaitDownInv(s: State, t: nat, c: nat)
    requires Inv(s) && t < |s.procs| && s.procs[t].pc == WaitDown(c)
    ensures Inv(Step(s, t))
  {
    var s' := Step(s, t);
    assert FamilyOk(s, t);
    ListedAlive(s, t, c);
    assert RefOk(s, c) && CodeOk(s, c) && FamilyOk(s, c);
    if s.statuses[c].exited > 0 {
      WaitDownMoved(s, t, c);
      if t > 0 { assert RefOk(s, t) && CodeOk(s, t); OwnRecord(s, s', t, c); }
      MovedInv(s, s', t, c);
    }
  }

  lemma WaitReadInv(s: State, t: nat, c: nat)
    requires Inv(s) && t < |s.procs| && s.procs[t].pc == WaitRead(c)
    ensures Inv(Step(s, t))
  {
    var s' := Step(s, t);
    assert FamilyOk(s, t);
    ListedAlive(s, t, c);
    assert RefOk(s, c) && CodeOk(s, c) && FamilyOk(s, c);
    SameFamily(s, s', t);
    assert Moved(s, s', t, c);
    if t > 0 { assert RefOk(s, t) && CodeOk(s, t); OwnRecord(s, s', t, c); }
    MovedInv(s, s', t, c);
  }

  lemma UnlinkFamily(s: State, s': State, t: nat, c: nat, code: int)
    requires Inv(s) && t < |s.procs| && s.procs[t].pc == WaitUnlink(c, code) && s' == Step(s, t) && s.Walk(t) == s
    ensures Shape(s') && FamilyOk(s', t)
    ensures forall d :: d in s'.procs[t].children <==> d in s.procs[t].children && d != c
  {
    assert FamilyOk(s, t);
    ListedAlive(s, t, c);
    var cs, cs' := s.procs[t].children, s'.procs[t].children;
    WithoutOk(cs, c);
    forall i | 0 <= i < |cs'| ensures cs'[i] < |s.procs| && ChildOf(s', cs'[i], t) {
      assert cs'[i] in cs';
      ListedAlive(s, t, cs'[i]);
    }
  }

  lemma WaitUnlinkInv(s: State, t: nat, c: nat, code: int)
    requires Inv(s) && t < |s.procs| && s.procs[t].pc == WaitUnlink(c, code)
    ensures Inv(Step(s, t))
  {
    var s' := Step(s, t);
    WalkSafe(s, t);
    assert FamilyOk(s, t);
    ListedAlive(s, t, c);
    assert RefOk(s, c) && CodeOk(s, c) && FamilyOk(s, c);
    UnlinkFamily(s, s', t, c, code);
    assert Moved(s, s', t, c);
    if t > 0 { assert RefOk(s, t) && CodeOk(s, t); OwnRecord(s, s', t, c); }
    MovedInv(s, s', t, c);
  }

  lemma WaitDropInv(s: State, t: nat, c: nat, code: int)
    requires Inv(s) && t < |s.procs| && s.procs[t].pc == WaitDrop(c, code)
    ensures Inv(Step(s, t))
  {
    var s' := Step(s, t);
    assert FamilyOk(s, t);
    assert RefOk(s, c) && CodeOk(s, c) && FamilyOk(s, c);
    SameFamily(s, s', t);
    assert Moved(s, s', t, c);
    if t > 0 { assert RefOk(s, t) && CodeOk(s, t); OwnRecord(s, s', t, c); }
    MovedInv(s, s', t, c);
  }

  lemma WaitFreeInv(s: State, t: nat, c: nat, code: int)
    requires Inv(s) && t < |s.procs| && s.procs[t].pc == WaitFree(c, code)
    ensures Inv(Step(s, t))
  {
    var s' := Step(s, t);
    assert FamilyOk(s, t);
    assert RefOk(s, c) && CodeOk(s, c) && FamilyOk(s, c);
    SameFamily(s, s', t);
    assert Moved(s, s', t, c);
    if t > 0 { assert RefOk(s, t) && CodeOk(s, t); OwnRecord(s, s', t, c); }
    MovedInv(s, s', t, c);
  }

  // ---------- Exit ----------

  lemma ExitUpInv(s: State, t: nat)
    requires Inv(s) && t < |s.procs| && s.procs[t].pc == ExitUp
    ensures Inv(Step(s, t))
  {
    var s' := Step(s, t);
    assert FamilyOk(s, t);
    assert RefOk(s, t) && CodeOk(s, t);
    SameFamily(s, s', t);
    MovedInv(s, s', t, t);
  }

  lemma PopFamily(s: State, s': State, t: nat)
    requires Inv(s) && t < |s.procs| && s.procs[t].pc == ExitPop && s.procs[t].children != []
    requires s' == Step(s, t) && s.Walk(t) == s
    ensures Shape(s') && FamilyOk(s', t)
    ensures forall d :: d in s'.procs[t].children <==> d in s.procs[t].children && d != s.procs[t].children[0]
  {
    assert FamilyOk(s, t);
    var cs, cs' := s.procs[t].children, s'.procs[t].children;
    assert cs' == cs[1..] && cs == [cs[0]] + cs';
    assert ChildOf(s, cs[0], t);
    forall i | 0 <= i < |cs'| ensures ChildOf(s', cs'[i], t) {
      assert ChildOf(s, cs[i + 1], t);
    }
  }

  lemma PopFirstInv(s: State, t: nat)
    requires Inv(s) && t < |s.procs| && s.procs[t].pc == ExitPop && s.procs[t].children != []
    ensures Inv(Step(s, t))
  {
    var s', c := Step(s, t), s.procs[t].children[0];
    assert FamilyOk(s, t) && RefOk(s, t) && CodeOk(s, t);
    WalkSafe(s, t);
    ListedAlive(s, t, c);
    assert RefOk(s, c) && CodeOk(s, c) && FamilyOk(s, c);
    PopFamily(s, s', t);
    assert Moved(s, s', t, c);
    OwnRecord(s, s', t, c);
    MovedInv(s, s', t, c);
  }

  lemma ExitPopInv(s: State, t: nat)
    requires Inv(s) && t < |s.procs| && s.procs[t].pc == ExitPop
    ensures Inv(Step(s, t))
  {
    if s.procs[t].children == [] {
      assert FamilyOk(s, t) && RefOk(s, t) && CodeOk(s, t);
      MovedInv(s, Step(s, t), t, t);
    } else {
      PopFirstInv(s, t);
    }
  }

  lemma ExitDecInv(s: State, t: nat, c: nat)
    requires Inv(s) && t < |s.procs| && s.procs[t].pc == ExitDec(c)
    ensures Inv(Step(s, t))
  {
    var s' := Step(s, t);
    assert FamilyOk(s, t);
    assert RefOk(s, t) && CodeOk(s, t) && RefOk(s, c) && CodeOk(s, c) && FamilyOk(s, c);
    SameFamily(s, s', t);
    assert Moved(s, s', t, c);
    OwnRecord(s, s', t, c);
    MovedInv(s, s', t, c);
  }

  lemma ExitPopFreeInv(s: State, t: nat, c: nat)
    requires Inv(s) && t < |s.procs| && s.procs[t].pc == ExitPopFree(c)
    ensures Inv(Step(s, t))
  {
    var s' := Step(s, t);
    assert FamilyOk(s, t);
    assert RefOk(s, t) && CodeOk(s, t) && RefOk(s, c) && CodeOk(s, c) && FamilyOk(s, c);
    SameFamily(s, s', t);
    assert Moved(s, s', t, c);
    OwnRecord(s, s', t, c);
    MovedInv(s, s', t, c);
  }

  lemma ExitDropInv(s: State, t: nat)
    requires Inv(s) && t < |s.procs| && s.procs[t].pc == ExitDrop
    ensures Inv(Step(s, t))
  {
    var s' := Step(s, t);
    assert FamilyOk(s, t) && FamilyOk(s, s.procs[t].parent);
    assert RefOk(s, t) && CodeOk(s, t);
    assert s'.procs[s.procs[t].parent] == s.procs[s.procs[t].parent];
    assert RefOk(s', t) && CodeOk(s', t);
    MovedInv(s, s', t, t);
  }

  lemma ExitFreeInv(s: State, t: nat)
    requires Inv(s) && t < |s.procs| && s.procs[t].pc == ExitFree
    ensures Inv(Step(s, t))
  {
    var s' := Step(s, t);
    assert FamilyOk(s, t) && FamilyOk(s, s.procs[t].parent);
    assert RefOk(s, t) && CodeOk(s, t);
    assert s'.procs[s.procs[t].parent] == s.procs[s.procs[t].parent];
    assert RefOk(s', t) && CodeOk(s', t);
    MovedInv(s, s', t, t);
  }

  lemma StepInv(s: State, t: nat)
    requires Inv(s) && t < |s.procs|
    ensures Inv(Step(s, t))
  {
    match s.procs[t].pc
    case NotStarted | Run | Dead =>
    case CreateRef(c) => CreateRefInv(s, t, c);
    case CreateLink(c) => CreateLinkInv(s, t, c);
    case CreateParentRef(c) => CreateParentRefInv(s, t, c);
    case CreateStart(c) => CreateStartInv(s, t, c);
    case WaitDown(c) => WaitDownInv(s, t, c);
    case WaitRead(c) => WaitReadInv(s, t, c);
    case WaitUnlink(c, code) => WaitUnlinkInv(s, t, c, code);
    case WaitDrop(c, code) => WaitDropInv(s, t, c, code);
    case WaitFree(c, code) => WaitFreeInv(s, t, c, code);
    case ExitUp => ExitUpInv(s, t);
    case ExitPop => ExitPopInv(s, t);
    case ExitDec(c) => ExitDecInv(s, t, c);
    case ExitPopFree(c) => ExitPopFreeInv(s, t, c);
    case ExitDrop => ExitDropInv(s, t);
    case ExitFree => ExitFreeInv(s, t);
  }

  // ---------- Calls ----------

  /** The state after thread_create has allocated the thread and its record. */
  function Spawned(s: State, t: nat): State
    requires t < |s.procs|
  {
    s.(procs := s.procs + [Proc(NotStarted, t, [])], statuses := s.statuses + [Status(0, 0, false, 0, false, 0)])
     .SetPc(t, CreateRef(|s.procs|))
  }

  lemma SpawnInv(s: State, t: nat)
    requires Inv(s) && t < |s.procs| && s.procs[t].pc.Run?
    ensures Inv(Spawned(s, t))
  {
    var s', n := Spawned(s, t), |s.procs|;
    forall u | 0 <= u < |s'.procs| ensures PcOk(s'.procs[u].pc, |s'.procs|) && s'.procs[u].parent < |s'.procs|
      && forall i :: 0 <= i < |s'.procs[u].children| ==> s'.procs[u].children[i] < |s'.procs|
    {
    }
    forall u | 0 <= u < |s'.procs| ensures FamilyOk(s', u) {
      if u < n {
        assert FamilyOk(s, u);
        SpawnFamily(s, t, u);
      }
    }
    forall d | 0 < d < |s'.procs| ensures RefOk(s', d) && CodeOk(s', d) {
      if d < n {
        assert RefOk(s, d) && CodeOk(s, d) && FamilyOk(s, d);
        SpawnRecord(s, t, d);
      }
    }
  }

  lemma SpawnFamily(s: State, t: nat, u: nat)
    requires t < |s.procs| && Shape(s) && Shape(Spawned(s, t)) && s.procs[t].pc.Run? && u < |s.procs| && FamilyOk(s, u)
    ensures FamilyOk(Spawned(s, t), u)
  {
    var s' := Spawned(s, t);
    forall i | 0 <= i < |s.procs[u].children| ensures ChildOf(s', s'.procs[u].children[i], u) {
      assert ChildOf(s, s.procs[u].children[i], u);
    }
  }

  lemma SpawnRecord(s: State, t: nat, d: nat)
    requires t < |s.procs| && Shape(s) && Shape(Spawned(s, t)) && s.procs[t].pc.Run?
    requires 0 < d < |s.procs| && RefOk(s, d) && CodeOk(s, d) && FamilyOk(s, d)
    ensures RefOk(Spawned(s, t), d) && CodeOk(Spawned(s, t), d)
  {
  }

  lemma WaitCallInv(s: State, t: nat, c: nat)
    requires Inv(s) && t < |s.procs| && s.procs[t].pc.Run? && c in s.procs[t].children
    ensures Inv(s.SetPc(t, WaitDown(c)))
  {
    var s' := s.SetPc(t, WaitDown(c));
    assert FamilyOk(s, t);
    ListedAlive(s, t, c);
    assert RefOk(s, c) && CodeOk(s, c) && FamilyOk(s, c);
    SameFamily(s, s', t);
    assert Moved(s, s', t, c);
    if t > 0 { assert RefOk(s, t) && CodeOk(s, t); OwnRecord(s, s', t, c); }
    MovedInv(s, s', t, c);
  }

  lemma LeaveCallInv(s: State, t: nat, killed: bool, code: int)
    requires Inv(s) && 0 < t < |s.procs| && s.procs[t].pc.Run?
    ensures Inv(s.Touch(t, s.statuses[t].(killed := killed, code := code)).SetPc(t, ExitUp))
  {
    var s' := s.Touch(t, s.statuses[t].(killed := killed, code := code)).SetPc(t, ExitUp);
    assert FamilyOk(s, t) && FamilyOk(s, s.procs[t].parent);
    assert RefOk(s, t) && CodeOk(s, t);
    SameFamily(s, s', t);
    assert s'.procs[s.procs[t].parent] == s.procs[s.procs[t].parent];
    assert CodeOk(s', t) && RefOk(s', t);
    MovedInv(s, s', t, t);
  }

  lemma CallInv(s: State, a: Action)
    requires Inv(s) && a.t < |s.procs| && s.procs[a.t].pc.Run? && !a.Go?
    ensures Inv(Do(s, a))
  {
    var t := a.t;
    WalkSafe(s, t);
    match a
    case Create(_) =>
      SpawnInv(s, t);
    case Wait(_, c) =>
      if c in s.procs[t].children { WaitCallInv(s, t, c); } else { LoggedInv(s, Refused(t, c)); }
    case Exit(_, code) =>
      if t > 0 { LeaveCallInv(s, t, s.statuses[t].killed, code); }
    case Kill(_) =>
      if t > 0 { LeaveCallInv(s, t, true, s.statuses[t].code); }
    case Finish(_) =>
      if t > 0 {
        LeaveCallInv(s, t, s.statuses[t].killed, s.statuses[t].code);
        assert RefOk(s, t) && FamilyOk(s, t);
        var x := s.statuses[t];
        assert s.statuses[t := x] == s.statuses;
        assert s.Touch(t, x) == s;
      }
  }

  lemma LoggedInv(s: State, e: Event)
    requires Inv(s)
    ensures Inv(s.Log(e))
  {
    var s' := s.Log(e);
    forall u | 0 <= u < |s'.procs| ensures FamilyOk(s', u) {
      assert FamilyOk(s, u);
      SameFamily(s, s', u);
    }
    forall d | 0 < d < |s'.procs| ensures RefOk(s', d) && CodeOk(s', d) {
      assert RefOk(s, d) && CodeOk(s, d);
    }
  }

  lemma {:induction false} AlwaysInv(run: seq<Action>)
    ensures Inv(After(run))
  {
    if run != [] {
      var s, a := After(run[..|run| - 1]), run[|run| - 1];
      AlwaysInv(run[..|run| - 1]);
      if a.t < |s.procs| {
        if a.Go? {
          StepInv(s, a.t);
        } else if s.procs[a.t].pc.Run? {
          CallInv(s, a);
        }
      }
    }
  }

  // ---------- Whole runs ----------

  /** No freed record is ever touched, and none is freed twice. */
  lemma NeverMisused(run: seq<Action>, c: nat)
    requires 0 < c < |After(run).procs|
    ensures var s := After(run); !s.misused && c < |s.statuses| && s.statuses[c].freed <= 1
  {
    AlwaysInv(run);
    assert RefOk(After(run), c);
  }

  /** The count is the number of the two sides that still refer to the record: the thread
      itself until it has exited, and its parent while the thread is on the parent's list or
      has just been taken off it.  Once it has reached 0, and whoever brought it there has
      called free, the record has been freed, and only then. */
  lemma CountIsReferences(run: seq<Action>, c: nat)
    requires 0 < c < |After(run).procs|
    ensures var s := After(run);
      && Shape(s) && s.procs[c].parent < c
      && s.statuses[c].count == Bit(ParentHas(s, c)) + Bit(ChildHas(s, c))
      && (s.procs[s.procs[c].parent].pc != CreateRef(c) ==>
            (s.statuses[c].freed == 1 <==>
               !ParentHas(s, c) && !ChildHas(s, c) && !ParentFrees(s, c) && !ChildFrees(s, c)))
  {
    AlwaysInv(run);
    assert RefOk(After(run), c) && FamilyOk(After(run), c);
  }

  /** Between calls the parent's reference is exactly its list. */
  lemma ListedIsReferenced(run: seq<Action>, p: nat, c: nat)
    requires 0 < c < |After(run).procs| && p == After(run).procs[c].parent < |After(run).procs|
    requires After(run).procs[p].pc.Run? || After(run).procs[p].pc.Dead?
    ensures var s := After(run);
      && c < |s.statuses|
      && s.statuses[c].count == Bit(c in s.procs[p].children) + Bit(!s.procs[c].pc.ExitFree? && !s.procs[c].pc.Dead?)
  {
    AlwaysInv(run);
    assert RefOk(After(run), c);
  }

  /** Once both threads are done with it the record is gone: nothing leaks. */
  lemma BothDoneFreed(run: seq<Action>, p: nat, c: nat)
    requires 0 < c < |After(run).procs| && p == After(run).procs[c].parent < |After(run).procs|
    requires After(run).procs[p].pc.Dead? && After(run).procs[c].pc.Dead?
    ensures c < |After(run).statuses| && After(run).statuses[c].freed == 1
  {
    AlwaysInv(run);
    assert RefOk(After(run), c) && FamilyOk(After(run), p);
  }
}
