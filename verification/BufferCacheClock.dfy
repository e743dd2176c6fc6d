/** The second chance that the clock gives: it frees an entry exactly when no access has
    found it there since the clock last went past it. */
module BufferCacheClock {
  import opened Storage
  import opened BufferCache
  import opened BufferCacheSafety

  /** A step of thread `t` with which an access comes to use the entry in slot `i`: it has found
      the entry and gets its lock, or it fills the slot. */
  predicate Finds(s: State, t: nat, i: nat)
    requires Shape(s) && t < |s.pcs|
  {
    match s.pcs[t]
    case Hit(at, _, j) => j == i && at == HitEntry && Step(s, t).pcs[t] != s.pcs[t]
    case Install(_, _, j) => j == i
    case _ => false
  }

  /** A step of thread `t` with which the clock leaves the entry in slot `i`, which it had
      locked. */
  predicate Passes(s: State, t: nat, i: nat)
    requires Shape(s) && t < |s.pcs|
  {
    s.pcs[t].Clock? && s.pcs[t].clock == ClockSkip && s.hand == i
  }

  /** Some access has come to use slot `i` since the clock last passed it. */
  function Found(device: seq<Data>, n: nat, run: seq<Action>, i: nat): bool {
    if run == [] then false
    else
      var past, a := run[..|run| - 1], run[|run| - 1];
      var s := After(device, n, past);
      if a.Go? && a.t < n && Finds(s, a.t, i) then true
      else if a.Go? && a.t < n && Passes(s, a.t, i) then false
      else Found(device, n, past, i)
  }

  /** The use bit of slot `i` tells whether the slot has been found, except in the hands of a
      thread that is about to set it or of a clock that is about to pass. */
  ghost predicate Tells(s: State, i: nat, found: bool)
    requires Shape(s) && i < SLOTS
  {
    s.slots[i].Some? ==>
      var e := s.slots[i].value;
      if e.holder.None? || e.holder.value >= |s.pcs| then e.use == found
      else
        match s.pcs[e.holder.value]
        case Hit(at, _, _) => if at == HitUse then found else e.use == found
        case Clock(at, _, _, _) => at == ClockSkip || e.use == found
        case _ => e.use == found
  }

  lemma LookupTells(s: State, t: nat, at: HitAt, r: Req, j: nat, i: nat, found: bool)
    requires Shape(s) && t < |s.pcs| && s.pcs[t] == Hit(at, r, j) && i < SLOTS && Tells(s, i, found)
    requires at == HitLock || at == HitScan || at == HitEntry
    requires HoldsEntry(s.pcs[t], s.hand, i) <==> HeldBy(s, i, t)
    ensures var s' := StepHit(s, t, at, r, j);
      Tells(s', i, found || (j == i && at == HitEntry && s'.pcs[t] != s.pcs[t]))
  {
  }

  lemma HitTells(s: State, t: nat, at: HitAt, r: Req, j: nat, i: nat, found: bool)
    requires Shape(s) && t < |s.pcs| && s.pcs[t] == Hit(at, r, j) && i < SLOTS && Tells(s, i, found)
    requires HoldsEntry(s.pcs[t], s.hand, i) <==> HeldBy(s, i, t)
    ensures var s' := StepHit(s, t, at, r, j);
      Tells(s', i, found || (j == i && at == HitEntry && s'.pcs[t] != s.pcs[t]))
  {
    if at == HitLock || at == HitScan || at == HitEntry {
      hide StepHit, Tells;
      LookupTells(s, t, at, r, j, i, found);
    }
  }

  lemma ClockTells(s: State, t: nat, i: nat, found: bool)
    requires Inv(s) && t < |s.pcs| && s.pcs[t].Clock? && i < SLOTS && Tells(s, i, found)
    ensures Tells(Step(s, t), i, found && !Passes(s, t, i))
  {
    assert Own(s, t);
    assert HoldsEntry(s.pcs[t], s.hand, i) <==> HeldBy(s, i, t);
  }

  lemma LeaveTells(s: State, t: nat, at: LeaveAt, j: nat, res: Result, i: nat, found: bool)
    requires Shape(s) && t < |s.pcs| && s.pcs[t] == Leave(at, j, res) && i < SLOTS && Tells(s, i, found)
    requires HoldsEntry(s.pcs[t], s.hand, i) <==> HeldBy(s, i, t)
    ensures Tells(StepLeave(s, t, at, j, res), i, found)
  {
  }

  lemma SyncTells(s: State, t: nat, at: SyncAt, j: nat, i: nat, found: bool)
    requires Shape(s) && t < |s.pcs| && s.pcs[t] == Sync(at, j) && i < SLOTS && Tells(s, i, found)
    requires HoldsEntry(s.pcs[t], s.hand, i) <==> HeldBy(s, i, t)
    ensures Tells(StepSync(s, t, at, j), i, found)
  {
  }

  lemma OtherTells(s: State, t: nat, i: nat, found: bool)
    requires Shape(s) && t < |s.pcs| && Own(s, t) && !s.pcs[t].Hit? && !s.pcs[t].Clock? && i < SLOTS && Tells(s, i, found)
    requires HoldsEntry(s.pcs[t], s.hand, i) <==> HeldBy(s, i, t)
    ensures Tells(Step(s, t), i, found || Finds(s, t, i))
  {
    hide StepHit, StepClock, StepLeave, StepSync;
    match s.pcs[t]
    case Leave(at, j, res) => LeaveTells(s, t, at, j, res, i, found);
    case Sync(at, j) => SyncTells(s, t, at, j, i, found);
    case _ =>
  }

  lemma CallTells(s: State, a: Action, i: nat, found: bool)
    requires Inv(s) && a.Call? && i < SLOTS && Tells(s, i, found)
    ensures Tells(Do(s, a), i, found)
  {
    if a.t < |s.pcs| {
      assert Own(s, a.t);
      assert HoldsEntry(s.pcs[a.t], s.hand, i) <==> HeldBy(s, i, a.t);
    }
  }

  lemma {:induction false} AlwaysTells(device: seq<Data>, n: nat, run: seq<Action>, i: nat)
    requires i < SLOTS
    ensures Tells(After(device, n, run), i, Found(device, n, run, i))
  {
    if run != [] {
      var past, a := run[..|run| - 1], run[|run| - 1];
      var s := After(device, n, past);
      AlwaysInv(device, n, past);
      AlwaysTells(device, n, past, i);
      var found := Found(device, n, past, i);
      if a.Call? {
        CallTells(s, a, i, found);
      } else if a.t < n {
        assert Own(s, a.t);
        assert HoldsEntry(s.pcs[a.t], s.hand, i) <==> HeldBy(s, i, a.t);
        match s.pcs[a.t]
        case Hit(at, r, j) => HitTells(s, a.t, at, r, j, i, found);
        case Clock(_, _, _, _) => ClockTells(s, a.t, i, found);
        case _ => OtherTells(s, a.t, i, found);
      }
    }
  }

  /** A clock that has locked the entry under its hand goes on to free it if and only if no
      access has come to use the slot since the clock last passed it; otherwise it leaves the
      entry as it is but for the use bit. */
  lemma SecondChance(device: seq<Data>, n: nat, run: seq<Action>, t: nat)
    requires var s := After(device, n, run); t < n && s.pcs[t].Clock? && s.pcs[t].clock == ClockTest
    ensures var s := After(device, n, run);
      var next := Step(s, t).pcs[t];
      && next.Clock? && next.clock == (if Found(device, n, run, s.hand) then ClockSkip else ClockWriteback)
      && s.slots[s.hand].Some? && s.slots[s.hand].value.use == Found(device, n, run, s.hand)
  {
    var s := After(device, n, run);
    AlwaysInv(device, n, run);
    AlwaysTells(device, n, run, s.hand);
    assert Own(s, t);
    assert HoldsEntry(s.pcs[t], s.hand, s.hand) <==> HeldBy(s, s.hand, t);
  }

  /** So the entry that an eviction frees has not been used since. */
  lemma FreesUnfound(device: seq<Data>, n: nat, run: seq<Action>, t: nat, i: nat)
    requires var s := After(device, n, run);
      t < n && i < SLOTS && s.pcs[t].Clock? && s.slots[i].Some? && Step(s, t).slots[i].None?
    ensures i == After(device, n, run).hand && !Found(device, n, run, i)
  {
    EvictsUnused(device, n, run, t, i);
    AlwaysTells(device, n, run, i);
    DropsAt(After(device, n, run), t, i);
  }

  lemma DropsAt(s: State, t: nat, i: nat)
    requires Shape(s) && t < |s.pcs| && i < SLOTS && s.pcs[t].Clock? && s.slots[i].Some? && Step(s, t).slots[i].None?
    ensures s.pcs[t].clock == ClockDrop
  {
  }
}
