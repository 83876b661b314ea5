/** The account of all SharedPtr and WeakPtr values of the shared-from-this snapshot at once.
    Each control block is a Cell under an identity; every live pointer is one Ref to it.  The
    invariant Accounted says the counters of every block are the number of pointers holding it
    (plus the pointee's own wired slot), which is what makes the local demands of the pointer
    classes (a counter is positive before it is decremented, two pointers on one block hold two
    references) hold of any program built from the operations below. */
module Ownership {
  import opened CellSpec

  /** One live pointer: a SharedPtr or a WeakPtr holding the block `id`.  Empty pointers,
      moves and swaps do not change the account. */
  datatype Ref = Strong(id: nat) | Weak(id: nat)

  datatype World = World(cells: map<nat, Cell>, refs: multiset<Ref>, next: nat)

  /** The counters of one block agree with the pointers that hold it. */
  ghost predicate CellAccounted(w: World, id: nat)
    requires id in w.cells
  {
    var c := w.cells[id];
    && Coherent(c)
    && c.strong == w.refs[Strong(id)]
    && c.weak == w.refs[Weak(id)] + (if c.slot then 1 else 0)
    // every block in the world was handed its first owner when it was made
    && (c.hasPointee ==> (c.destroyed == 0 <==> c.strong > 0))
    // a block is freed exactly when nothing refers to it any more
    && (c.frees == 1 <==> c.WholeEmpty())
  }

  ghost predicate Accounted(w: World) {
    && (forall id :: id in w.cells ==> id < w.next && CellAccounted(w, id))
    && (forall r :: r in w.refs ==> r.id in w.cells && w.cells[r.id].frees == 0)
  }

  /** The operations a program can apply to the pointers, named by the source's operations. */
  datatype Op =
    | MakeSharedOp(selfObserving: bool)              // MakeShared<T>(...)
    | FromRawOp(hasPointee: bool, selfObserving: bool) // SharedPtr(T* ptr)
    | CopyShared(id: nat)                            // copy construction, aliasing, copy assignment's adopt
    | DropShared(id: nat)                            // destructor, Reset(); see AssignedDrop
    | Demote(id: nat)                                // WeakPtr(const SharedPtr&), WeakPtr = SharedPtr
    | CopyWeak(id: nat)                              // WeakPtr copy construction / assignment
    | DropWeak(id: nat)                              // ~WeakPtr, WeakPtr::Reset, release in assignments
    | LockOp(id: nat)                                // WeakPtr::Lock and SharedPtr(const WeakPtr&)
    | SharedFromThisOp(id: nat)                      // EnableSharedFromThis::SharedFromThis
    | WeakFromThisOp(id: nat)                        // EnableSharedFromThis::WeakFromThis

  /** A new block with its first owner, wired when the pointee is self-observing. */
  function Created(kind: Kind, hasPointee: bool, selfObserving: bool): (c: Cell)
    requires kind == Fused ==> hasPointee
    ensures Coherent(c) && c.strong == 1 && c.kind == kind && c.frees == 0
    ensures c.Alive() == hasPointee
    ensures c.slot == (hasPointee && selfObserving) && c.weak == (if c.slot then 1 else 0)
  {
    var c := AddStrong(NewBlock(kind, hasPointee));
    if hasPointee && selfObserving then Wire(c) else c
  }

  function Add(w: World, kind: Kind, hasPointee: bool, selfObserving: bool): World
    requires kind == Fused ==> hasPointee
  {
    World(w.cells[w.next := Created(kind, hasPointee, selfObserving)], w.refs + multiset{Strong(w.next)}, w.next + 1)
  }

  /** One operation; an operation whose pointer does not exist, or a promotion of an expired
      block, leaves the world as it is. */
  function Step(w: World, op: Op): World
  {
    match op
    case MakeSharedOp(so) => Add(w, Fused, true, so)
    case FromRawOp(hp, so) => Add(w, Detached, hp, so)
    case CopyShared(id) =>
      if Strong(id) in w.refs && id in w.cells then
        World(w.cells[id := AddStrong(w.cells[id])], w.refs + multiset{Strong(id)}, w.next)
      else w
    case DropShared(id) =>
      if Strong(id) in w.refs && id in w.cells && Owned(w.cells[id]) then
        World(w.cells[id := Release(w.cells[id])], w.refs - multiset{Strong(id)}, w.next)
      else w
    case Demote(id) =>
      if Strong(id) in w.refs && id in w.cells then
        World(w.cells[id := AddWeak(w.cells[id])], w.refs + multiset{Weak(id)}, w.next)
      else w
    case CopyWeak(id) =>
      if Weak(id) in w.refs && id in w.cells then
        World(w.cells[id := AddWeak(w.cells[id])], w.refs + multiset{Weak(id)}, w.next)
      else w
    case DropWeak(id) =>
      if Weak(id) in w.refs && id in w.cells then
        World(w.cells[id := WeakRelease(w.cells[id])], w.refs - multiset{Weak(id)}, w.next)
      else w
    case LockOp(id) =>
      if Weak(id) in w.refs && id in w.cells && w.cells[id].strong > 0 then
        World(w.cells[id := AddStrong(w.cells[id])], w.refs + multiset{Strong(id)}, w.next)
      else w
    case SharedFromThisOp(id) =>
      if id in w.cells && w.cells[id].slot then
        World(w.cells[id := AddStrong(w.cells[id])], w.refs + multiset{Strong(id)}, w.next)
      else w
    case WeakFromThisOp(id) =>
      if id in w.cells && w.cells[id].slot then
        World(w.cells[id := AddWeak(w.cells[id])], w.refs + multiset{Weak(id)}, w.next)
      else w
  }

  function Empty(): (w: World)
    ensures Accounted(w)
  {
    World(map[], multiset{}, 0)
  }

  /** A changed block that is accounted for, in a world whose other blocks and refs are as
      before, keeps the world accounted for. */
  lemma UpdatePreserves(w: World, id: nat, c: Cell, refs: multiset<Ref>)
    requires Accounted(w) && id in w.cells
    requires forall r: Ref :: r.id != id ==> refs[r] == w.refs[r]
    requires forall r :: r in refs ==> r.id in w.cells
    requires CellAccounted(World(w.cells[id := c], refs, w.next), id)
    requires forall r :: r in refs && r.id == id ==> c.frees == 0
    ensures Accounted(World(w.cells[id := c], refs, w.next))
  {
    var w' := World(w.cells[id := c], refs, w.next);
    forall j | j in w'.cells
      ensures j < w'.next && CellAccounted(w', j)
    {
      if j != id {
        assert CellAccounted(w, j);
        assert refs[Strong(j)] == w.refs[Strong(j)];
        assert refs[Weak(j)] == w.refs[Weak(j)];
      }
    }
    forall r | r in refs
      ensures r.id in w'.cells && w'.cells[r.id].frees == 0
    {
      if r.id != id {
        assert w.refs[r] == refs[r];
      }
    }
  }

  lemma AddPreserves(w: World, kind: Kind, hasPointee: bool, selfObserving: bool)
    requires Accounted(w) && (kind == Fused ==> hasPointee)
    ensures Accounted(Add(w, kind, hasPointee, selfObserving))
  {
    var w' := Add(w, kind, hasPointee, selfObserving);
    // no ref in w names the fresh identity
    assert Strong(w.next) !in w.refs && Weak(w.next) !in w.refs;
    forall j | j in w'.cells
      ensures j < w'.next && CellAccounted(w', j)
    {
      if j != w.next {
        assert CellAccounted(w, j);
        assert w'.refs[Strong(j)] == w.refs[Strong(j)];
        assert w'.refs[Weak(j)] == w.refs[Weak(j)];
      }
    }
  }

  /** A new strong reference on a block whose pointee is alive. */
  lemma AddStrongPreserves(w: World, id: nat)
    requires Accounted(w) && id in w.cells && w.cells[id].frees == 0
    requires w.cells[id].hasPointee ==> w.cells[id].Alive()
    ensures Accounted(World(w.cells[id := AddStrong(w.cells[id])], w.refs + multiset{Strong(id)}, w.next))
  {
    assert CellAccounted(w, id);
    UpdatePreserves(w, id, AddStrong(w.cells[id]), w.refs + multiset{Strong(id)});
  }

  /** A new weak reference on an allocated block. */
  lemma AddWeakPreserves(w: World, id: nat)
    requires Accounted(w) && id in w.cells && w.cells[id].frees == 0
    ensures Accounted(World(w.cells[id := AddWeak(w.cells[id])], w.refs + multiset{Weak(id)}, w.next))
  {
    assert CellAccounted(w, id);
    UpdatePreserves(w, id, AddWeak(w.cells[id]), w.refs + multiset{Weak(id)});
  }

  lemma DropSharedPreserves(w: World, id: nat)
    requires Accounted(w) && Strong(id) in w.refs
    ensures Accounted(Step(w, DropShared(id)))
  {
    assert CellAccounted(w, id);
    var refs := w.refs - multiset{Strong(id)};
    var c := Release(w.cells[id]);
    forall r | r in refs && r.id == id
      ensures c.frees == 0
    {
      assert r in w.refs;
    }
    UpdatePreserves(w, id, c, refs);
  }

  lemma DropWeakPreserves(w: World, id: nat)
    requires Accounted(w) && Weak(id) in w.refs
    ensures Accounted(Step(w, DropWeak(id)))
  {
    assert CellAccounted(w, id);
    var refs := w.refs - multiset{Weak(id)};
    var c := WeakRelease(w.cells[id]);
    forall r | r in refs && r.id == id
      ensures c.frees == 0
    {
      assert r in w.refs;
    }
    UpdatePreserves(w, id, c, refs);
  }

  /** What copy assignment, move assignment and Reset(T*) as written do to the block they
      leave: the unguarded DecStrongRef(); CLear();.  The operations of Step release through
      Reset() instead, so StepPreserves holds of the corrected assignments only. */
  function AssignedDrop(w: World, id: nat): World
    requires id in w.cells && Owned(w.cells[id])
  {
    World(w.cells[id := ReleaseUnguarded(w.cells[id])], w.refs - multiset{Strong(id)}, w.next)
  }

  /** In an accounted world, the as-written assignment release of the only SharedPtr of a
      self-observing pointee with no WeakPtr frees a fused block twice, and destroys a detached
      pointee twice while leaving its freed block's weak counter at -1, so the world is no longer
      accounted for. */
  lemma AssignedDropBreaksAccount(w: World, id: nat)
    requires Accounted(w) && id in w.cells && w.cells[id].slot
    requires w.refs[Strong(id)] == 1 && w.refs[Weak(id)] == 0
    ensures Owned(w.cells[id])
    ensures var w' := AssignedDrop(w, id);
            && (w.cells[id].kind == Fused ==> w'.cells[id].frees == 2)
            && (w.cells[id].kind == Detached ==>
                  w'.cells[id].frees == 1 && w'.cells[id].destroyed == 2 && w'.cells[id].weak == -1)
            && !Accounted(w')
  {
    assert CellAccounted(w, id);
    var c := w.cells[id];
    assert c.strong == 1 && c.weak == 1 && c.hasPointee && c.destroyed == 0 && c.frees == 0;
    var d := DecStrong(c);
    assert d.frees == 1;
    assert !Coherent(AssignedDrop(w, id).cells[id]);
  }

  /** Such a world is what MakeShared, or SharedPtr(T*), of a self-observing pointee creates. */
  lemma LoneSelfObservingReachable(fused: bool)
    ensures var w := Step(Empty(), if fused then MakeSharedOp(true) else FromRawOp(true, true));
            && Accounted(w) && 0 in w.cells && w.cells[0].slot
            && w.refs[Strong(0)] == 1 && w.refs[Weak(0)] == 0
  {
    StepPreserves(Empty(), if fused then MakeSharedOp(true) else FromRawOp(true, true));
  }

  /** Every operation keeps the world accounted for. */
  lemma StepPreserves(w: World, op: Op)
    requires Accounted(w)
    ensures Accounted(Step(w, op))
  {
    match op
    case MakeSharedOp(so) => AddPreserves(w, Fused, true, so);
    case FromRawOp(hp, so) => AddPreserves(w, Detached, hp, so);
    case CopyShared(id) =>
      if Strong(id) in w.refs {
        assert CellAccounted(w, id);
        AddStrongPreserves(w, id);
      }
    case DropShared(id) =>
      if Strong(id) in w.refs {
        DropSharedPreserves(w, id);
      }
    case Demote(id) =>
      if Strong(id) in w.refs {
        AddWeakPreserves(w, id);
      }
    case CopyWeak(id) =>
      if Weak(id) in w.refs {
        AddWeakPreserves(w, id);
      }
    case DropWeak(id) =>
      if Weak(id) in w.refs {
        DropWeakPreserves(w, id);
      }
    case LockOp(id) =>
      if Weak(id) in w.refs && id in w.cells && w.cells[id].strong > 0 {
        assert CellAccounted(w, id);
        AddStrongPreserves(w, id);
      }
    case SharedFromThisOp(id) =>
      if id in w.cells && w.cells[id].slot {
        assert CellAccounted(w, id);
        AddStrongPreserves(w, id);
      }
    case WeakFromThisOp(id) =>
      if id in w.cells && w.cells[id].slot {
        assert CellAccounted(w, id);
        AddWeakPreserves(w, id);
      }
  }

  /** A whole program. */
  function Run(w: World, ops: seq<Op>): (r: World)
    requires Accounted(w)
    ensures Accounted(r)
    decreases |ops|
  {
    if |ops| == 0 then w
    else
      StepPreserves(w, ops[0]);
      Run(Step(w, ops[0]), ops[1..])
  }

  /** Any program started from no pointers keeps every block accounted for: no counter is
      negative, each pointee is destroyed at most once and exactly when its last owner goes,
      and each block is freed at most once and exactly when nothing refers to it.  (Releases are
      all Reset()'s; AssignedDropBreaksAccount shows the as-written assignment release.) */
  lemma {:induction false} RunAccounted(ops: seq<Op>, id: nat)
    requires id in Run(Empty(), ops).cells
    ensures var c := Run(Empty(), ops).cells[id];
            && c.strong >= 0 && c.weak >= 0 && c.destroyed <= 1 && c.frees <= 1
            && (c.hasPointee ==> (c.destroyed == 0 <==> c.strong > 0))
            && (c.frees == 1 <==> c.WholeEmpty())
  {
    assert CellAccounted(Run(Empty(), ops), id);
  }

  /** UseCount of any SharedPtr on a block is the number of live SharedPtrs on it. */
  lemma UseCountIsOwners(w: World, id: nat)
    requires Accounted(w) && id in w.cells
    ensures w.cells[id].strong == w.refs[Strong(id)]
    ensures w.cells[id].weak >= w.refs[Weak(id)]
  {
    assert CellAccounted(w, id);
  }

  /** Two distinct live SharedPtrs on one block hold two strong references, and two distinct
      WeakPtrs two weak references besides the slot: the sharing demands of the copy and move
      assignments always hold. */
  lemma SharingCounts(w: World, id: nat)
    requires Accounted(w) && id in w.cells
    ensures w.refs[Strong(id)] >= 2 ==> w.cells[id].strong >= 2
    ensures w.refs[Weak(id)] >= 2 ==> w.cells[id].weak >= (if w.cells[id].slot then 3 else 2)
  {
    assert CellAccounted(w, id);
  }

  /** A live pointer never refers to a freed block, and the pointee of a block with a live
      SharedPtr is alive. */
  lemma HeldIsAllocated(w: World, r: Ref)
    requires Accounted(w) && r in w.refs
    ensures r.id in w.cells && w.cells[r.id].frees == 0
    ensures r.Strong? && w.cells[r.id].hasPointee ==> w.cells[r.id].Alive()
  {
    assert CellAccounted(w, r.id);
  }

  /** Dropping the last SharedPtr destroys the pointee however many WeakPtrs remain, and they
      all report expired; the block itself stays until the last of them goes. */
  lemma LastOwnerDestroys(w: World, id: nat)
    requires Accounted(w) && Strong(id) in w.refs && w.refs[Strong(id)] == 1
    requires w.cells[id].hasPointee
    ensures var c := Step(w, DropShared(id)).cells[id];
            && c.strong == 0 && c.destroyed == 1
            && (c.frees == 0 <==> w.refs[Weak(id)] > 0)
  {
    assert CellAccounted(w, id);
  }

  /** Promoting a live WeakPtr adds exactly one owner; promoting an expired one changes
      nothing. */
  lemma LockAddsOneOwner(w: World, id: nat)
    requires Accounted(w) && Weak(id) in w.refs
    ensures var w' := Step(w, LockOp(id));
            && (w.cells[id].strong > 0 ==> w'.cells[id].strong == w.cells[id].strong + 1
                                           && w'.refs[Strong(id)] == w.refs[Strong(id)] + 1)
            && (w.cells[id].strong == 0 ==> w' == w)
  {
  }

  /** The start of the end-to-end history: a = MakeShared(..); b = a; w = WeakPtr(a);
      a.Reset(). */
  function FirstReset(selfObserving: bool): World {
    Step(Step(Step(Step(Empty(), MakeSharedOp(selfObserving)), CopyShared(0)), Demote(0)), DropShared(0))
  }

  /** Copying a SharedPtr adds one strong reference and one owner, nothing else. */
  lemma CopySharedStep(w: World, id: nat)
    requires id in w.cells && Strong(id) in w.refs
    ensures var w' := Step(w, CopyShared(id));
            && id in w'.cells && w'.cells[id] == AddStrong(w.cells[id])
            && w'.refs[Strong(id)] == w.refs[Strong(id)] + 1 && w'.refs[Weak(id)] == w.refs[Weak(id)]
  {
  }

  /** Demoting a SharedPtr adds one weak reference and one observer, nothing else. */
  lemma DemoteStep(w: World, id: nat)
    requires id in w.cells && Strong(id) in w.refs
    ensures var w' := Step(w, Demote(id));
            && id in w'.cells && w'.cells[id] == AddWeak(w.cells[id])
            && w'.refs[Strong(id)] == w.refs[Strong(id)] && w'.refs[Weak(id)] == w.refs[Weak(id)] + 1
  {
  }

  /** Dropping a SharedPtr releases its block and removes one owner, nothing else. */
  lemma DropSharedStep(w: World, id: nat)
    requires id in w.cells && Strong(id) in w.refs && Owned(w.cells[id])
    ensures var w' := Step(w, DropShared(id));
            && id in w'.cells && w'.cells[id] == Release(w.cells[id])
            && w'.refs[Strong(id)] == w.refs[Strong(id)] - 1 && w'.refs[Weak(id)] == w.refs[Weak(id)]
  {
  }

  /** a = MakeShared(..); b = a: one block with two owners and no observer. */
  lemma MadeAndCopied(selfObserving: bool)
    ensures var w := Step(Step(Empty(), MakeSharedOp(selfObserving)), CopyShared(0));
            && 0 in w.cells && w.cells[0] == AddStrong(Created(Fused, true, selfObserving))
            && w.refs[Strong(0)] == 2 && w.refs[Weak(0)] == 0
  {
    var s1 := Step(Empty(), MakeSharedOp(selfObserving));
    assert 0 in s1.cells && s1.cells[0] == Created(Fused, true, selfObserving);
    assert s1.refs[Strong(0)] == 1 && s1.refs[Weak(0)] == 0;
    CopySharedStep(s1, 0);
  }

  /** w = WeakPtr(a); a.Reset() on a block with two owners: one owner and one observer
      remain. */
  lemma DemotedAndReleased(w: World, c: Cell)
    requires 0 in w.cells && w.cells[0] == c && Owned(c) && c.strong == 2 && c.weak == (if c.slot then 1 else 0)
    requires w.refs[Strong(0)] == 2
    ensures var w' := Step(Step(w, Demote(0)), DropShared(0));
            && 0 in w'.cells && w'.cells[0] == Release(AddWeak(c))
            && w'.refs[Strong(0)] == 1 && w'.refs[Weak(0)] == w.refs[Weak(0)] + 1
    ensures Owned(Release(AddWeak(c))) && Release(AddWeak(c)).strong == 1
    ensures Release(AddWeak(c)).weak == (if c.slot then 2 else 1) && Release(AddWeak(c)).slot == c.slot
  {
    DemoteStep(w, 0);
    DropSharedStep(Step(w, Demote(0)), 0);
  }

  /** The end-to-end history: after FirstReset, b's use count is 1 and w is not expired; then
      b.Reset(): w is expired and the block waits for w. */
  lemma EndToEnd(selfObserving: bool)
    ensures var w0 := FirstReset(selfObserving);
            && 0 in w0.cells && w0.cells[0].strong == 1 && w0.cells[0].Alive()
            && var w1 := Step(w0, DropShared(0));
               && w1.cells[0].strong == 0 && w1.cells[0].destroyed == 1
               && w1.cells[0].frees == 0 && Weak(0) in w1.refs
  {
    MadeAndCopied(selfObserving);
    var s2 := Step(Step(Empty(), MakeSharedOp(selfObserving)), CopyShared(0));
    var c2 := AddStrong(Created(Fused, true, selfObserving));
    DemotedAndReleased(s2, c2);
    var s4 := Step(Step(s2, Demote(0)), DropShared(0));
    DropSharedStep(s4, 0);
  }
}
