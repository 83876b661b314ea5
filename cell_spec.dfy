/** The abstract state of one control block together with the object it manages, and the effect
    of every block-level step on it.  The classes of module Blocks are proved against these
    functions, and the account of all pointers in module Ownership is built from them. */
module CellSpec {

  /** ControlBlock<T> holds a pointer to a separately allocated pointee; Block<T> holds the
      pointee in its own storage. */
  datatype Kind = Detached | Fused

  datatype Cell = Cell(
    strong: int,      // strong_ref_counter
    weak: int,        // weak_reaf_counter
    kind: Kind,
    hasPointee: bool, // a non-null pointee was handed to the block (always so for Fused)
    destroyed: nat,   // how often the pointee's destructor has run
    slot: bool,       // the pointee's hidden weak_this_ observes this block
    frees: nat)       // how often `delete` has run on the block itself
  {
    predicate Alive() { hasPointee && destroyed == 0 }
    predicate IsEmpty() { strong == 0 }
    predicate WholeEmpty() { strong == 0 && weak == 0 }
  }

  /** What holds of every block that has not been misused. */
  predicate Coherent(c: Cell) {
    && c.strong >= 0 && c.weak >= 0
    && c.destroyed <= 1 && c.frees <= 1
    && (c.kind == Fused ==> c.hasPointee)
    && (!c.hasPointee ==> c.destroyed == 0 && !c.slot)
    && (c.strong > 0 ==> c.destroyed == 0)
    // a wired slot is itself one weak reference, and it dies with the pointee
    && (c.slot ==> c.destroyed == 0 && c.weak >= 1)
    && (c.frees > 0 ==> c.WholeEmpty())
  }

  /** A freshly allocated ControlBlock(ptr) or Block(args...): both counters start at 0. */
  function NewBlock(kind: Kind, hasPointee: bool): (c: Cell)
    requires kind == Fused ==> hasPointee
    ensures c.strong == 0 && c.weak == 0 && c.kind == kind
    ensures c.Alive() == hasPointee && !c.slot && c.frees == 0
    ensures Coherent(c)
  {
    Cell(0, 0, kind, hasPointee, 0, false, 0)
  }

  /** BaseBlock::AddStrongRef: only the strong counter moves, by exactly one. */
  function AddStrong(c: Cell): (r: Cell)
    ensures r.strong == c.strong + 1 && r.(strong := c.strong) == c
    ensures Coherent(c) && c.frees == 0 && (c.hasPointee ==> c.Alive()) ==> Coherent(r)
  {
    c.(strong := c.strong + 1)
  }

  /** BaseBlock::AddWeakRef: only the weak counter moves, by exactly one. */
  function AddWeak(c: Cell): (r: Cell)
    ensures r.weak == c.weak + 1 && r.(weak := c.weak) == c
    ensures Coherent(c) && c.frees == 0 ==> Coherent(r)
  {
    c.(weak := c.weak + 1)
  }

  /** DecWeakRef of ControlBlock<T> and Block<T>: only the weak counter moves; the pointee is
      never touched. */
  function DecWeak(c: Cell): (r: Cell)
    ensures r.weak == c.weak - 1 && r.(weak := c.weak) == c
    ensures r.destroyed == c.destroyed && r.frees == c.frees
  {
    c.(weak := c.weak - 1)
  }

  /** `delete block_`: the block's memory is reclaimed. */
  function Free(c: Cell): (r: Cell)
    ensures r.frees == c.frees + 1 && r.(frees := c.frees) == c
  {
    c.(frees := c.frees + 1)
  }

  /** WeakPtr::DecWeakRef on a block it holds: drop one weak reference and delete the block
      once both counters are 0. */
  function WeakRelease(c: Cell): (r: Cell)
    ensures r.strong == c.strong && r.weak == c.weak - 1
    ensures r.destroyed == c.destroyed && r.slot == c.slot
    ensures r.frees == c.frees + (if r.WholeEmpty() then 1 else 0)
    ensures Coherent(c) && c.frees == 0 && c.weak >= 1 && (c.slot ==> c.weak >= 2) ==>
              Coherent(r) && (r.frees == 1 <==> r.WholeEmpty())
  {
    var d := DecWeak(c);
    if d.WholeEmpty() then Free(d) else d
  }

  /** Running the pointee's destructor (`delete ptr_` or `~T()` in place).  A self-observing
      pointee destroys its weak_this_ member with it, which is a WeakRelease of this block.  When
      that release deletes a ControlBlock, ~ControlBlock still finds ptr_ set (DecStrongRef nulls
      it only afterwards) and deletes the pointee a second time.  The second run's weak_this_
      still holds the block (WeakPtr::DecWeakRef nulls block_ only after the delete returns), so
      it lowers weak once more, to -1, and frees nothing.  Block has no such destructor. */
  function Destroy(c: Cell): (r: Cell)
    ensures !r.slot && r.strong == c.strong
    ensures r.frees == c.frees + (if c.slot && c.weak == 1 && c.strong == 0 then 1 else 0)
    ensures r.weak == c.weak - (if c.slot then 1 else 0) - (if c.kind == Detached && r.frees != c.frees then 1 else 0)
    ensures r.destroyed == c.destroyed + 1 + (if c.kind == Detached && r.frees != c.frees then 1 else 0)
  {
    var d := c.(destroyed := c.destroyed + 1, slot := false);
    if !c.slot then d
    else
      var e := WeakRelease(d);
      if c.kind == Detached && e.frees != d.frees then e.(destroyed := e.destroyed + 1, weak := e.weak - 1) else e
  }

  /** Whether DecStrongRef, having brought the counter to 0, runs the pointee's destructor:
      ControlBlock deletes ptr_ when it is still set (the pointee is alive), Block always runs
      the in-place destructor. */
  predicate DestroysAtZero(c: Cell) {
    c.kind == Fused || c.Alive()
  }

  /** DecStrongRef of ControlBlock<T> and Block<T>. */
  function DecStrong(c: Cell): (r: Cell)
    ensures r.strong == c.strong - 1 && r.kind == c.kind && r.hasPointee == c.hasPointee
    ensures r.destroyed > c.destroyed <==> c.strong == 1 && DestroysAtZero(c)
    // a detached pointee whose slot frees the block is destroyed twice, by the call and by
    // ~ControlBlock
    ensures r.destroyed == c.destroyed + (if r.destroyed > c.destroyed then 1 else 0)
                         + (if c.kind == Detached && r.frees != c.frees then 1 else 0)
    // the block can only be freed from inside this call by the pointee's own slot
    ensures r.frees != c.frees ==> c.slot && c.strong == 1 && c.weak == 1
    ensures Coherent(c) && c.frees == 0 && c.strong >= 1 && (c.slot && c.strong == 1 ==> c.weak >= 2) ==>
              Coherent(r) && r.frees == 0 && (c.hasPointee ==> (r.Alive() <==> r.strong > 0))
  {
    var d := c.(strong := c.strong - 1);
    if d.strong == 0 && DestroysAtZero(c) then Destroy(d) else d
  }

  /** SharedPtr::Helper: a temporary WeakPtr made from the new SharedPtr is copied into the
      pointee's empty weak_this_ slot and then destroyed, so the slot is one weak reference. */
  function Wire(c: Cell): (r: Cell)
    ensures r.weak == c.weak + 1 && r.slot && r.(weak := c.weak, slot := c.slot) == c
    ensures Coherent(c) && c.frees == 0 && c.Alive() ==> Coherent(r)
  {
    DecWeak(AddWeak(AddWeak(c).(slot := true)))
  }

  /** SharedPtr::CLear: delete the block if it is empty on both counters. */
  function Clear(c: Cell): (r: Cell)
    ensures r.frees == c.frees + (if c.WholeEmpty() then 1 else 0) && r.(frees := c.frees) == c
  {
    if c.strong == 0 && c.weak == 0 then Free(c) else c
  }

  /** A block some SharedPtr holds a strong reference on. */
  predicate Owned(c: Cell) {
    Coherent(c) && c.frees == 0 && c.strong >= 1
  }

  /** SharedPtr::Reset of the shared-from-this snapshot: raise weak, drop the strong reference,
      lower weak again, then CLear.  The extra weak reference keeps the block allocated while a
      self-observing pointee releases its slot from inside DecStrongRef. */
  function Release(c: Cell): (r: Cell)
    requires Owned(c)
    ensures Coherent(r) && r.kind == c.kind && r.hasPointee == c.hasPointee
    ensures r.strong == c.strong - 1
    ensures r.weak == c.weak - (if c.slot && c.strong == 1 then 1 else 0)
    ensures r.frees == 1 <==> r.WholeEmpty()
    ensures c.hasPointee ==> (r.destroyed == 1 <==> r.strong == 0)
    ensures r.slot == (c.slot && r.strong > 0)
    // the block is never freed while its strong decrement is running
    ensures DecStrong(AddWeak(c)).frees == 0
  {
    Clear(DecWeak(DecStrong(AddWeak(c))))
  }

  /** Dropping a strong reference without the weak bump: `DecStrongRef(); CLear();`, as written
      in the weak and shared snapshots and in the assignments of the shared-from-this one. */
  function ReleaseUnguarded(c: Cell): (r: Cell)
    requires Owned(c)
    // it differs from Release exactly when the last owner of a self-observing pointee drops
    // it while the slot is the only weak reference
    ensures r == Release(c) <==> !(c.slot && c.strong == 1 && c.weak == 1)
  {
    Clear(DecStrong(c))
  }

  /** A fused block made by MakeShared for a self-observing object and held by exactly one
      SharedPtr, with the hidden slot as its only weak reference. */
  function LoneSelfObserving(): (c: Cell)
    ensures Coherent(c) && c.strong == 1 && c.weak == 1 && c.slot && c.kind == Fused
  {
    Cell(1, 1, Fused, true, 0, true, 0)
  }

  /** Without the weak bump, releasing the last owner of a self-observing pointee frees the
      block inside DecStrongRef and CLear then frees it a second time. */
  lemma UnguardedReleaseFreesTwice()
    ensures DecStrong(LoneSelfObserving()).frees == 1
    ensures ReleaseUnguarded(LoneSelfObserving()).frees == 2
    ensures Release(LoneSelfObserving()).frees == 1
  {
  }

  /** The same self-observing pointee given to SharedPtr(T*) instead: a detached block. */
  function LoneDetachedSelfObserving(): (c: Cell)
    ensures Coherent(c) && c.strong == 1 && c.weak == 1 && c.slot && c.kind == Detached
  {
    Cell(1, 1, Detached, true, 0, true, 0)
  }

  /** Without the weak bump, releasing the last owner of a detached self-observing pointee frees
      the block from inside the pointee's destructor, and ~ControlBlock destroys the pointee a
      second time, whose weak_this_ leaves the freed block's weak counter at -1; CLear then sees
      a non-zero weak count and does not free the block again. */
  lemma UnguardedReleaseDestroysTwice()
    ensures DecStrong(LoneDetachedSelfObserving()).frees == 1
    ensures DecStrong(LoneDetachedSelfObserving()).destroyed == 2
    ensures DecStrong(LoneDetachedSelfObserving()).weak == -1
    ensures ReleaseUnguarded(LoneDetachedSelfObserving()).frees == 1
    ensures ReleaseUnguarded(LoneDetachedSelfObserving()).weak == -1
    ensures ReleaseUnguarded(LoneDetachedSelfObserving()).destroyed == 2
    ensures Release(LoneDetachedSelfObserving()).frees == 1
    ensures Release(LoneDetachedSelfObserving()).destroyed == 1
  {
  }
}
