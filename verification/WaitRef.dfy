/** wait_status_mod_ref one lock operation at a time: the lock lives in the record that the last
    reference frees, and no thread reaches for either after that. */
module WaitRef {
  import opened Storage

  datatype Side = Parent | Child

  /** How far a side has come in dropping its reference; `free` is its shouldFree. */
  datatype Stage = Before | Locked | Changed(free: bool) | Freeing | Done

  /** The record once thread_create has counted both sides. */
  datatype Record = Record(count: int, lock: Option<Side>, parent: Stage, child: Stage, freed: nat, misused: bool) {
    function At(x: Side): Stage {
      if x == Parent then parent else child
    }

    function Move(x: Side, g: Stage): Record {
      if x == Parent then this.(parent := g) else this.(child := g)
    }

    /** An access to the record or its lock. */
    function Touch(): Record {
      this.(misused := misused || freed > 0)
    }
  }

  function Step(r: Record, x: Side): Record {
    match r.At(x)
    case Before => if r.lock.None? then r.Touch().(lock := Some(x)).Move(x, Locked) else r.Touch()
    case Locked => r.Touch().(count := r.count - 1).Move(x, Changed(r.count - 1 == 0))
    case Changed(free) => r.Touch().(lock := None).Move(x, if free then Freeing else Done)
    case Freeing => r.Touch().(freed := r.freed + 1).Move(x, Done)
    case Done => r
  }

  function After(run: seq<Side>): Record {
    if run == [] then Record(2, None, Before, Before, 0, false) else Step(After(run[..|run| - 1]), run[|run| - 1])
  }

  function Other(x: Side): Side {
    if x == Parent then Child else Parent
  }

  predicate Inside(g: Stage) {
    g.Locked? || g.Changed?
  }

  predicate Counted(g: Stage) {
    g.Before? || g.Locked?
  }

  /** What holds of side `x`. */
  predicate SideOk(r: Record, x: Side) {
    var g, h := r.At(x), r.At(Other(x));
    && (Inside(g) <==> r.lock == Some(x))
    && (g.Changed? ==> (g.free <==> r.count == 0) && r.freed == 0)
    && (g.Changed? && g.free ==> h.Done?)
    && (g.Freeing? ==> h.Done? && r.count == 0 && r.freed == 0)
    && (g.Before? || g.Locked? ==> r.freed == 0)
  }

  predicate Inv(r: Record) {
    && !r.misused && SideOk(r, Parent) && SideOk(r, Child)
    && r.count == (if Counted(r.parent) then 1 else 0) + (if Counted(r.child) then 1 else 0)
    && (r.parent.Done? && r.child.Done? <==> r.freed == 1) && r.freed <= 1
  }

  lemma StepInv(r: Record, x: Side)
    requires Inv(r)
    ensures Inv(Step(r, x))
  {
  }

  /** In every interleaving nothing touches the freed record, neither its lock nor its count,
      and it is freed exactly when both sides are done, once. */
  lemma {:induction false} NeverMisused(run: seq<Side>)
    ensures var r := After(run); Inv(r) && !r.misused && r.freed <= 1 && (r.freed == 1 <==> r.parent.Done? && r.child.Done?)
  {
    if run != [] {
      NeverMisused(run[..|run| - 1]);
      StepInv(After(run[..|run| - 1]), run[|run| - 1]);
    }
  }

  // ---------- The change as a single step ----------

  /** The stage as a machine sees it in which the locked change is one step. */
  function Merged(g: Stage): Stage {
    match g
    case Locked => Before
    case Changed(free) => if free then Freeing else Done
    case _ => g
  }

  function View(r: Record): Record {
    r.(lock := None, parent := Merged(r.parent), child := Merged(r.child))
  }

  /** A step of that machine: the change, or the free that follows it. */
  function MergedStep(r: Record, x: Side): Record {
    match r.At(x)
    case Before => r.(count := r.count - 1).Move(x, if r.count - 1 == 0 then Freeing else Done)
    case Freeing => r.(freed := r.freed + 1).Move(x, Done)
    case _ => r
  }

  /** Every step of a run is a step of that machine or none. */
  lemma Refines(run: seq<Side>, x: Side)
    ensures var r, r' := After(run), After(run + [x]);
      View(r') == View(r) || View(r') == MergedStep(View(r), x)
  {
    NeverMisused(run);
    assert (run + [x])[..|run|] == run;
  }
}
