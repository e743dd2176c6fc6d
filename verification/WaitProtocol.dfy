/** The parent/child wait protocol: wait_status records shared between a thread and its
    parent, as a state machine over the steps of create, wait and exit. */
module WaitProtocol {
  import opened Lists

  /** A wait_status.  `reaped` and `freed` observe that a wait has got past the semaphore
      and how often the record has been freed. */
  datatype Status = Status(count: int, exited: nat, killed: bool, code: int, reaped: bool, freed: nat)

  datatype Pc =
    | NotStarted
    | Run
    // thread_create, by the parent
    | CreateRef(c: nat) | CreateLink(c: nat) | CreateParentRef(c: nat) | CreateStart(c: nat)
    // process_wait
    | WaitDown(c: nat) | WaitRead(c: nat) | WaitUnlink(c: nat, code: int) | WaitDrop(c: nat, code: int)
    | WaitFree(c: nat, code: int)
    // process_exit and thread_exit
    | ExitUp | ExitPop | ExitDec(c: nat) | ExitPopFree(c: nat) | ExitDrop | ExitFree
    | Dead

  datatype Proc = Proc(pc: Pc, parent: nat, children: seq<nat>)

  datatype Event =
    | Exited(c: nat, code: int)
    | Waited(p: nat, c: nat, code: int)
    | Refused(p: nat, c: nat)              // process_wait returned -1 without waiting

  /** Thread `c` owns `statuses[c]`; thread 0 is the initial thread and has none.  `misused`
      is set when a freed record is touched. */
  datatype State = State(procs: seq<Proc>, statuses: seq<Status>, misused: bool, trace: seq<Event>) {
    function SetPc(t: nat, pc: Pc): State
      requires t < |procs|
    {
      this.(procs := procs[t := procs[t].(pc := pc)])
    }

    function SetChildren(t: nat, cs: seq<nat>): State
      requires t < |procs|
    {
      this.(procs := procs[t := procs[t].(children := cs)])
    }

    /** An access to the record of `c`. */
    function Touch(c: nat, x: Status): State
      requires c < |statuses|
    {
      this.(statuses := statuses[c := x], misused := misused || statuses[c].freed > 0)
    }

    /** A walk over, or a change of, the list of `t`'s children touches their records. */
    function Walk(t: nat): State
      requires t < |procs|
    {
      this.(misused := misused || exists c :: c in procs[t].children && c < |statuses| && statuses[c].freed > 0)
    }

    function Log(e: Event): State {
      this.(trace := trace + [e])
    }
  }

  // ---------- wait_status_mod_ref ----------

  /** The change of the count, under its lock; the record is to be freed when it is 0. */
  function ModRef(s: State, t: nat, c: nat, delta: int, free: Pc, next: Pc): State
    requires t < |s.procs| && c < |s.statuses|
  {
    var x := s.statuses[c].(count := s.statuses[c].count + delta);
    s.Touch(c, x).SetPc(t, if x.count == 0 then free else next)
  }

  function Free(s: State, t: nat, c: nat, next: Pc): State
    requires t < |s.procs| && c < |s.statuses|
  {
    s.Touch(c, s.statuses[c].(freed := s.statuses[c].freed + 1)).SetPc(t, next)
  }

  /** What process_wait reports for a finished child. */
  function ExitCode(x: Status): int {
    if x.killed then -1 else x.code
  }

  // ---------- Steps ----------

  predicate PcOk(pc: Pc, n: nat) {
    match pc
    case CreateRef(c) => c < n
    case CreateLink(c) => c < n
    case CreateParentRef(c) => c < n
    case CreateStart(c) => c < n
    case WaitDown(c) => c < n
    case WaitRead(c) => c < n
    case WaitUnlink(c, _) => c < n
    case WaitDrop(c, _) => c < n
    case WaitFree(c, _) => c < n
    case ExitDec(c) => c < n
    case ExitPopFree(c) => c < n
    case _ => true
  }

  predicate Shape(s: State) {
    && |s.statuses| == |s.procs|
    && (forall t :: 0 <= t < |s.procs| ==>
          && PcOk(s.procs[t].pc, |s.procs|) && s.procs[t].parent < |s.procs|
          && (forall i :: 0 <= i < |s.procs[t].children| ==> s.procs[t].children[i] < |s.procs|))
  }

  function StepCreate(s: State, t: nat): State
    requires Shape(s) && t < |s.procs|
  {
    match s.procs[t].pc
    case CreateRef(c) => ModRef(s, t, c, 1, Dead, CreateLink(c))
    case CreateLink(c) => s.Walk(t).SetChildren(t, [c] + s.procs[t].children).SetPc(t, CreateParentRef(c))
    case CreateParentRef(c) => ModRef(s, t, c, 1, Dead, CreateStart(c))
    case CreateStart(c) => s.SetPc(t, Run).SetPc(c, Run)
    case _ => s
  }

  function StepWait(s: State, t: nat): State
    requires Shape(s) && t < |s.procs|
  {
    match s.procs[t].pc
    case WaitDown(c) =>
      if s.statuses[c].exited == 0 then s
      else s.Touch(c, s.statuses[c].(exited := s.statuses[c].exited - 1, reaped := true)).SetPc(t, WaitRead(c))
    case WaitRead(c) => s.Touch(c, s.statuses[c]).SetPc(t, WaitUnlink(c, ExitCode(s.statuses[c])))
    case WaitUnlink(c, code) => s.Walk(t).SetChildren(t, Without(s.procs[t].children, c)).SetPc(t, WaitDrop(c, code))
    case WaitDrop(c, code) =>
      var s1 := ModRef(s, t, c, -1, WaitFree(c, code), Run);
      if s1.procs[t].pc.Run? then s1.Log(Waited(t, c, code)) else s1
    case WaitFree(c, code) => Free(s, t, c, Run).Log(Waited(t, c, code))
    case _ => s
  }

  function StepExit(s: State, t: nat): State
    requires Shape(s) && t < |s.procs|
  {
    match s.procs[t].pc
    case ExitUp =>
      s.Touch(t, s.statuses[t].(exited := s.statuses[t].exited + 1))
       .Log(Exited(t, ExitCode(s.statuses[t]))).SetPc(t, ExitPop)
    case ExitPop =>
      if s.procs[t].children == [] then s.SetPc(t, ExitDrop)
      else s.Walk(t).SetPc(t, ExitDec(s.procs[t].children[0])).SetChildren(t, s.procs[t].children[1..])
    case ExitDec(c) => ModRef(s, t, c, -1, ExitPopFree(c), ExitPop)
    case ExitPopFree(c) => Free(s, t, c, ExitPop)
    case ExitDrop => ModRef(s, t, t, -1, ExitFree, Dead)
    case ExitFree => Free(s, t, t, Dead)
    case _ => s
  }

  function Step(s: State, t: nat): State
    requires Shape(s) && t < |s.procs|
  {
    var pc := s.procs[t].pc;
    if pc.CreateRef? || pc.CreateLink? || pc.CreateParentRef? || pc.CreateStart? then StepCreate(s, t)
    else if pc.WaitDown? || pc.WaitRead? || pc.WaitUnlink? || pc.WaitDrop? || pc.WaitFree? then StepWait(s, t)
    else StepExit(s, t)
  }

  // ---------- Runs ----------

  datatype Action =
    | Go(t: nat)
    | Create(t: nat)
    | Wait(t: nat, c: nat)
    | Exit(t: nat, code: int)     // exit system call
    | Kill(t: nat)                // killed by the kernel
    | Finish(t: nat)              // the thread function returned

  function DoShaped(s: State, a: Action): State
    requires Shape(s)
  {
    if a.t >= |s.procs| then s
    else if a.Go? then Step(s, a.t)
    else if !s.procs[a.t].pc.Run? then s
    else
      match a
      case Create(t) =>
        s.(procs := s.procs + [Proc(NotStarted, t, [])], statuses := s.statuses + [Status(0, 0, false, 0, false, 0)])
         .SetPc(t, CreateRef(|s.procs|))
      case Wait(t, c) =>
        if c in s.procs[t].children then s.Walk(t).SetPc(t, WaitDown(c)) else s.Walk(t).Log(Refused(t, c))
      case Exit(t, code) =>
        if t == 0 then s else s.Touch(t, s.statuses[t].(code := code)).SetPc(t, ExitUp)
      case Kill(t) =>
        if t == 0 then s else s.Touch(t, s.statuses[t].(killed := true)).SetPc(t, ExitUp)
      case Finish(t) =>
        if t == 0 then s else s.SetPc(t, ExitUp)
      case Go(_) => s
  }

  function Do(s: State, a: Action): State {
    if Shape(s) then DoShaped(s, a) else s
  }

  function Init(): State {
    State([Proc(Run, 0, [])], [Status(0, 0, false, 0, false, 0)], false, [])
  }

  function After(run: seq<Action>): State {
    if run == [] then Init() else Do(After(run[..|run| - 1]), run[|run| - 1])
  }
}
