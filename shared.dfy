/** SharedPtr of smart-ptrs/shared-from-this/shared.h: a (block_, field_) pair that holds one
    strong reference on block_ whenever block_ is set.  field_ is the address handed out by Get
    and may differ from the block's pointee (aliasing). */
module Shared {
  import opened CellSpec
  import opened Blocks

  class SharedPtr {
    var block: Block?    // block_
    var field: Object?   // field_

    ghost function Footprint(): set<object>
      reads this
    {
      if block == null then {}
      else if block.owned == null then {block}
      else {block, block.owned}
    }

    ghost function BlockSet(): set<Block>
      reads this
    {
      if block == null then {} else {block}
    }

    /** A SharedPtr holding a block owns one of its strong references. */
    ghost predicate Valid()
      reads this, Footprint()
    {
      block != null ==> block.Valid() && block.frees == 0 && block.strong >= 1
    }

    /** Another pointer holds a strong reference on the same block as this one. */
    ghost predicate SharesWith(other: SharedPtr)
      reads this, other
    {
      this != other && block != null && block == other.block
    }

    /** SharedPtr() and SharedPtr(nullptr). */
    constructor Empty()
      ensures block == null && field == null && Valid()
    {
      block := null;
      field := null;
    }

    /** SharedPtr(T* ptr): a fresh ControlBlock with one strong reference; a self-observing
        pointee gets its weak_this_ slot wired to the new block.  The pointer must not already
        be managed by another block. */
    constructor FromRaw(p: Object?)
      requires p != null ==> p.owner == null && p.destroyCount == 0 && p.slot == null
      modifies p
      ensures field == p && block != null && fresh(block) && Valid()
      ensures block.kind == Detached && block.owned == p
      ensures block.Snapshot() == Assigned(AddStrong(NewBlock(Detached, p != null)), p)
      ensures p != null ==> p.slot == (if p.selfObserving then block else null)
    {
      field := p;
      block := new Block.ControlBlock(p);
      new;
      AddStrongRef();
      Assign(p);
    }

    /** SharedPtr(const SharedPtr& other).  The fresh pointer's field_ is null, so it adopts
        `other` only when other's field_ is set. */
    constructor Copy(other: SharedPtr)
      requires other.Valid()
      modifies other.BlockSet()
      ensures Valid() && other.Valid()
      ensures other.field == null ==> block == null && field == null
      ensures other.field != null ==> block == other.block && field == other.field
      ensures other.block != null ==>
                other.block.Snapshot() == (if other.field != null then AddStrong(old(other.block.Snapshot()))
                                           else old(other.block.Snapshot()))
    {
      block := null;
      field := null;
      new;
      if field != other.field {
        block := other.block;
        field := other.field;
        AddStrongRef();
      }
    }

    /** SharedPtr(SharedPtr&& other): the pair moves over and no counter changes. */
    constructor Move(other: SharedPtr)
      requires other.Valid()
      modifies other
      ensures block == old(other.block) && field == old(other.field) && Valid()
      ensures other.block == null && other.field == null
    {
      block := null;
      field := null;
      new;
      DecStrongRef();
      block := other.block;
      field := other.field;
      other.block := null;
      other.field := null;
    }

    /** SharedPtr(const SharedPtr<Y>& other, T* ptr): share other's block, point at `p`. */
    constructor Aliasing(other: SharedPtr, p: Object?)
      requires other.Valid()
      modifies other.BlockSet()
      ensures field == p && block == other.block && Valid() && other.Valid()
      ensures other.block != null ==> other.block.Snapshot() == AddStrong(old(other.block.Snapshot()))
    {
      field := p;
      block := other.block;
      new;
      AddStrongRef();
    }

    method AddStrongRef()
      requires block != null ==> block.Valid() && block.frees == 0
      requires block != null && block.owned != null ==> block.owned.destroyCount == 0
      modifies BlockSet()`strong, BlockSet()`adopted
      ensures block != null ==> block.Snapshot() == AddStrong(old(block.Snapshot()))
      ensures block != null ==> block.Valid() && block.adopted
    {
      if block != null {
        block.AddStrongRef();
      }
    }

    method DecStrongRef()
      requires block != null ==> block.Valid() && block.frees == 0 && block.strong >= 1
      requires block != null && block.strong == 1 && block.owned != null && block.owned.slot == block ==> block.weak >= 2
      modifies BlockSet()`strong, BlockSet()`weak, BlockSet()`ptr, Footprint() - BlockSet()
      ensures block != null ==> block.Snapshot() == DecStrong(old(block.Snapshot()))
      ensures block != null ==> block.Valid() && block.frees == 0
    {
      if block != null {
        block.DecStrongRef();
      }
    }

    /** CLear: delete the block if both its counters are 0, then forget the pair. */
    method CLear()
      requires block != null ==> block.Valid() && block.frees == 0 && block.adopted
      modifies this, BlockSet()`frees
      ensures block == null && field == null
      ensures old(block) != null ==> old(block).Snapshot() == Clear(old(block.Snapshot())) && old(block).Valid()
    {
      if block != null && block.IsEmpty() && block.WeakCount() == 0 {
        block.Delete();
      }
      block := null;
      field := null;
    }

    /** The first three steps of Reset(): the weak counter is raised around DecStrongRef, so
        that the block outlives a self-observing pointee's destructor releasing its slot. */
    method GuardedDecStrongRef()
      requires Valid() && block != null
      modifies Footprint()
      ensures block.Snapshot() == DecWeak(DecStrong(AddWeak(old(block.Snapshot()))))
      ensures block.Valid() && block.frees == 0 && block.adopted
    {
      ghost var c := block.Snapshot();
      block.AddWeakRef();
      assert block.Snapshot() == AddWeak(c);
      DecStrongRef();
      block.DecWeakRef();
    }

    /** Reset() (and the destructor, which calls it): the guarded strong decrement, then
        CLear. */
    method Reset()
      requires Valid()
      modifies this, Footprint()
      ensures block == null && field == null
      ensures old(block) != null ==> old(block).Snapshot() == Release(old(block.Snapshot())) && old(block).Valid()
    {
      if block != null {
        GuardedDecStrongRef();
        CLear();
      }
      field := null;
      block := null;
    }

    /** `DecStrongRef(); CLear();`: the destructor and Reset() of the weak and shared snapshots,
        and the release step in this snapshot's assignments and Reset(p), as written.  Without
        the weak bump it needs the guard that DecStrongRef demands; under it the outcome is
        that of Reset() (README, Findings). */
    method ReleasePlain()
      requires Valid()
      requires block != null && block.strong == 1 && block.owned != null && block.owned.slot == block ==> block.weak >= 2
      modifies this, Footprint()
      ensures block == null && field == null
      ensures old(block) != null ==> old(block).Snapshot() == ReleaseUnguarded(old(block.Snapshot())) && old(block).Valid()
      ensures old(block) != null ==> old(block).Snapshot() == Release(old(block.Snapshot()))
    {
      DecStrongRef();
      CLear();
      field := null;
      block := null;
    }

    /** operator=(const SharedPtr& other): nothing happens when the fields are equal; otherwise
        the old reference is dropped and other's pair adopted with one more strong reference.
        The old reference is dropped as Reset() drops it (see README, Findings). */
    method CopyAssign(other: SharedPtr)
      requires Valid() && other.Valid()
      requires SharesWith(other) ==> block.strong >= 2
      modifies this, Footprint(), other.BlockSet()
      ensures Valid() && other.Valid()
      ensures old(field) == old(other.field) ==> block == old(block) && field == old(field)
      ensures old(field) == old(other.field) && block != null ==> block.Snapshot() == old(block.Snapshot())
      ensures old(field) != old(other.field) ==> block == old(other.block) && field == old(other.field)
      ensures old(field) != old(other.field) && old(block) != null && old(block) != old(other.block) ==>
                old(block).Snapshot() == Release(old(block.Snapshot()))
      ensures old(field) != old(other.field) && old(other.block) != null && old(other.block) != old(block) ==>
                old(other.block).Snapshot() == AddStrong(old(other.block.Snapshot()))
      ensures old(field) != old(other.field) && old(other.block) != null && old(other.block) == old(block) ==>
                old(block).Snapshot() == AddStrong(Release(old(block.Snapshot())))
    {
      if field != other.field {
        Reset();
        block := other.block;
        field := other.field;
        AddStrongRef();
      }
    }

    /** operator=(SharedPtr&& other): drop the old reference, take other's pair, empty other.
        Self-move has no self check in the source and is excluded. */
    method MoveAssign(other: SharedPtr)
      requires this != other && Valid() && other.Valid()
      requires SharesWith(other) ==> block.strong >= 2
      modifies this, other, Footprint()
      ensures block == old(other.block) && field == old(other.field) && Valid()
      ensures other.block == null && other.field == null
      ensures old(block) != null ==> old(block).Snapshot() == Release(old(block.Snapshot()))
      ensures old(other.block) != null && old(other.block) != old(block) ==>
                old(other.block).Snapshot() == old(other.block.Snapshot())
    {
      Reset();
      block := other.block;
      field := other.field;
      other.block := null;
      other.field := null;
    }

    /** Reset(T* ptr): drop the old reference, then hold a fresh ControlBlock for `p`.  Unlike
        the raw-pointer constructor it does not wire a self-observing pointee's slot. */
    method ResetTo(p: Object?)
      requires Valid()
      requires p != null ==> p.owner == null && p.destroyCount == 0 && p.slot == null
      modifies this, Footprint(), p
      ensures field == p && block != null && fresh(block) && Valid()
      ensures block.kind == Detached && block.owned == p
      ensures block.Snapshot() == AddStrong(NewBlock(Detached, p != null))
      ensures old(block) != null ==> old(block).Snapshot() == Release(old(block.Snapshot()))
    {
      Reset();
      field := p;
      block := new Block.ControlBlock(p);
      AddStrongRef();
    }

    /** Swap: both members are exchanged and no counter changes. */
    method Swap(other: SharedPtr)
      modifies this, other
      ensures block == old(other.block) && field == old(other.field)
      ensures other.block == old(block) && other.field == old(field)
    {
      block, other.block := other.block, block;
      field, other.field := other.field, field;
    }

    function Get(): (p: Object?)
      reads this
      ensures p == field
    {
      field
    }

    function GetBlock(): (b: Block?)
      reads this
      ensures b == block
    {
      block
    }

    /** UseCount: 0 without a block, the block's strong counter otherwise. */
    function UseCount(): (n: int)
      reads this, BlockSet()
      ensures block == null ==> n == 0
      ensures block != null ==> n == block.Snapshot().strong
      ensures Valid() ==> (n > 0 <==> block != null)
    {
      if block == null then 0 else block.GetCount()
    }

    /** explicit operator bool: tests field_, not block_. */
    predicate NonNull()
      reads this
      ensures NonNull() <==> field != null
    {
      field != null
    }

    /** Helper: wire the pointee's weak_this_ to this pointer's block. */
    method Helper(p: Object)
      requires Valid() && block != null && block.owned == p && block.adopted
      requires p.selfObserving && p.slot == null && p.destroyCount == 0
      modifies block`weak, p`slot
      ensures Valid() && block.Snapshot() == Wire(old(block.Snapshot())) && p.slot == block
    {
      // WeakPtr<U> weak_this(*this)
      block.AddWeakRef();
      // ptr->GetWeak() = weak_this: the empty slot has nothing to release
      p.slot := block;
      block.AddWeakRef();
      // ~weak_this
      block.DecWeakRef();
    }

    /** Assign: only a self-observing pointee is wired. */
    method Assign(p: Object?)
      requires Valid() && block != null && block.owned == p && block.adopted
      requires p != null ==> p.slot == null && p.destroyCount == 0
      modifies BlockSet()`weak, if p == null then {} else {p}
      ensures Valid() && block.Snapshot() == Assigned(old(block.Snapshot()), p)
      ensures p != null ==> p.slot == (if p.selfObserving then block else null)
    {
      if p != null && p.selfObserving {
        Helper(p);
      }
    }
  }

  /** The block state after Assign(p). */
  ghost function Assigned(c: Cell, p: Object?): Cell
    reads p
  {
    if p != null && p.selfObserving then Wire(c) else c
  }

  /** operator==: two pointers are equal when they share the block, whatever their fields. */
  predicate SameOwner(left: SharedPtr, right: SharedPtr)
    reads left, right
    ensures SameOwner(left, right) <==> left.block == right.block
  {
    left.block == right.block
  }

  /** MakeShared: one allocation holds block and object; the pointer holds one strong
      reference and points at the storage; a self-observing object is wired. */
  method MakeShared(selfObserving: bool) returns (sp: SharedPtr)
    ensures fresh(sp) && sp.block != null && fresh(sp.block) && sp.Valid()
    ensures sp.block.kind == Fused && fresh(sp.block.owned) && sp.field == sp.block.owned
    ensures sp.field.selfObserving == selfObserving
    ensures sp.block.Snapshot() == Assigned(AddStrong(NewBlock(Fused, true)), sp.field)
    ensures sp.field.slot == (if selfObserving then sp.block else null)
  {
    var block := new Block.WithStorage(selfObserving);
    sp := new SharedPtr.Empty();
    sp.block := block;
    sp.field := block.GetPtr();
    sp.AddStrongRef();
    sp.Assign(block.GetPtr());
  }
}
