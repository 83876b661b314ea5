/** WeakPtr of smart-ptrs/shared-from-this/weak.h, the promotion constructor SharedPtr(const
    WeakPtr&) and the SharedFromThis / WeakFromThis members of EnableSharedFromThis, which read
    the pointee's hidden weak_this_ slot. */
module Weak {
  import opened CellSpec
  import opened Blocks
  import opened Shared

  class WeakPtr {
    var field: Object?   // field_
    var block: Block?    // block_

    ghost function Footprint(): set<object>
      reads this
    {
      if block == null then {}
      else if block.owned == null then {block}
      else {block, block.owned}
    }

    ghost function BlockSet(): set<Block>
      reads this
    {
      if block == null then {} else {block}
    }

    /** A WeakPtr holding a block owns one of its weak references, besides the one a wired
        slot holds; the block came from a SharedPtr, so it has been adopted. */
    ghost predicate Valid()
      reads this, Footprint()
    {
      block != null ==>
        && block.Valid() && block.frees == 0 && block.adopted
        && block.weak >= (if block.Snapshot().slot then 2 else 1)
    }

    /** WeakPtr() = default. */
    constructor Empty()
      ensures block == null && field == null && Valid()
    {
      field := null;
      block := null;
    }

    method AddWeakRef()
      requires block != null ==> block.Valid() && block.frees == 0
      modifies BlockSet()`weak
      ensures block != null ==> block.Snapshot() == AddWeak(old(block.Snapshot())) && block.Valid()
    {
      if block != null {
        block.AddWeakRef();
      }
    }

    /** DecWeakRef: drop this pointer's weak reference; if both counters are then 0, delete
        the block and forget the pair.  Otherwise block_ and field_ stay as they were. */
    method DecWeakRef()
      requires Valid()
      modifies this, BlockSet()`weak, BlockSet()`frees
      ensures old(block) != null ==> old(block).Snapshot() == WeakRelease(old(block.Snapshot())) && old(block).Valid()
      ensures old(block) != null && old(block).WholeEmpty() ==> block == null && field == null
      ensures old(block) == null || !old(block).WholeEmpty() ==> block == old(block) && field == old(field)
    {
      if block != null {
        block.DecWeakRef();
        if block.WholeEmpty() {
          block.Delete();
          block := null;
          field := null;
        }
      }
    }

    /** WeakPtr(const WeakPtr& other). */
    constructor Copy(other: WeakPtr)
      requires other.Valid()
      modifies other.BlockSet()
      ensures block == other.block && field == other.field && Valid() && other.Valid()
      ensures block != null ==> block.Snapshot() == AddWeak(old(other.block.Snapshot()))
    {
      block := other.block;
      field := other.field;
      new;
      AddWeakRef();
    }

    /** WeakPtr(WeakPtr&& other): the pair moves over and no counter changes. */
    constructor Move(other: WeakPtr)
      requires other.Valid()
      modifies other
      ensures block == old(other.block) && field == old(other.field) && Valid()
      ensures other.block == null && other.field == null
    {
      block := other.block;
      field := other.field;
      new;
      other.block := null;
      other.field := null;
    }

    /** WeakPtr(const SharedPtr& other): demotion touches only the weak counter. */
    constructor FromShared(other: SharedPtr)
      requires other.Valid()
      modifies other.BlockSet()
      ensures block == other.block && field == other.field && Valid() && other.Valid()
      ensures block != null ==> block.Snapshot() == AddWeak(old(other.block.Snapshot()))
    {
      block := other.GetBlock();
      field := other.Get();
      new;
      AddWeakRef();
    }

    /** The adopting half of the copy-style assignments: take the pair (b, f) and add one
        weak reference to b. */
    method Observe(b: Block?, f: Object?)
      requires b != null ==> b.Valid() && b.frees == 0 && b.adopted
      requires b != null ==> b.weak >= (if b.Snapshot().slot then 1 else 0)
      modifies this, (if b == null then {} else {b})`weak
      ensures block == b && field == f && Valid()
      ensures b != null ==> b.Snapshot() == AddWeak(old(b.Snapshot()))
    {
      block := b;
      field := f;
      AddWeakRef();
    }

    /** operator=(const SharedPtr& other): release the current weak reference, then observe
        other's block. */
    method AssignShared(other: SharedPtr)
      requires Valid() && other.Valid()
      modifies this, BlockSet()`weak, BlockSet()`frees, other.BlockSet()`weak
      ensures block == other.block && field == other.field && Valid() && other.Valid()
      ensures old(block) != null && old(block) != other.block ==>
                old(block).Snapshot() == WeakRelease(old(block.Snapshot()))
      ensures other.block != null && other.block != old(block) ==>
                other.block.Snapshot() == AddWeak(old(other.block.Snapshot()))
      ensures other.block != null && other.block == old(block) ==>
                other.block.Snapshot() == old(other.block.Snapshot())
    {
      DecWeakRef();
      Observe(other.GetBlock(), other.Get());
    }

    /** operator=(const WeakPtr& other).  Self-assignment is safe: if this pointer held the
        block's last reference, the block is deleted and the pointer ends empty, otherwise
        nothing changes.  Two distinct pointers on one block hold two weak references. */
    method CopyAssign(other: WeakPtr)
      requires Valid() && other.Valid()
      requires this != other && block != null && block == other.block ==>
                 block.weak >= (if block.Snapshot().slot then 3 else 2)
      modifies this, BlockSet()`weak, BlockSet()`frees, other.BlockSet()`weak
      ensures Valid() && other.Valid()
      ensures this != other ==> block == old(other.block) && field == old(other.field)
      ensures this != other && old(block) != null && old(block) != old(other.block) ==>
                old(block).Snapshot() == WeakRelease(old(block.Snapshot()))
      ensures this != other && old(other.block) != null && old(other.block) != old(block) ==>
                old(other.block).Snapshot() == AddWeak(old(other.block.Snapshot()))
      ensures this != other && old(other.block) != null && old(other.block) == old(block) ==>
                block.Snapshot() == old(block.Snapshot())
      ensures this == other && (old(block) == null || old(block.strong) != 0 || old(block.weak) != 1) ==>
                block == old(block) && field == old(field) && (block != null ==> block.Snapshot() == old(block.Snapshot()))
      ensures this == other && old(block) != null && old(block.strong) == 0 && old(block.weak) == 1 ==>
                block == null && field == null && old(block).Snapshot() == WeakRelease(old(block.Snapshot()))
    {
      DecWeakRef();
      Observe(other.block, other.field);
    }

    /** operator=(WeakPtr&& other): release the current weak reference, take other's pair and
        empty other.  On self-move the pointer ends empty and its reference is released. */
    method MoveAssign(other: WeakPtr)
      requires Valid() && other.Valid()
      requires this != other && block != null && block == other.block ==>
                 block.weak >= (if block.Snapshot().slot then 3 else 2)
      modifies this, other, BlockSet()`weak, BlockSet()`frees
      ensures Valid() && other.block == null && other.field == null
      ensures this != other ==> block == old(other.block) && field == old(other.field)
      ensures old(block) != null ==> old(block).Snapshot() == WeakRelease(old(block.Snapshot()))
      ensures old(other.block) != null && old(other.block) != old(block) ==>
                old(other.block).Snapshot() == old(other.block.Snapshot())
    {
      DecWeakRef();
      block := other.block;
      field := other.field;
      other.block := null;
      other.field := null;
    }

    /** Reset() (and the destructor, which is its first step). */
    method Reset()
      requires Valid()
      modifies this, BlockSet()`weak, BlockSet()`frees
      ensures block == null && field == null
      ensures old(block) != null ==> old(block).Snapshot() == WeakRelease(old(block.Snapshot())) && old(block).Valid()
    {
      DecWeakRef();
      block := null;
      field := null;
    }

    /** Swap as written: only block_ is exchanged; each field_ stays behind (README, Findings). */
    method Swap(other: WeakPtr)
      modifies this, other
      ensures block == old(other.block) && other.block == old(block)
      ensures this != other ==> field == old(field) && other.field == old(other.field)
    {
      block, other.block := other.block, block;
    }

    /** Swap as evidently intended: both members are exchanged and no counter changes. */
    method SwapPair(other: WeakPtr)
      modifies this, other
      ensures block == old(other.block) && field == old(other.field)
      ensures other.block == old(block) && other.field == old(field)
    {
      block, other.block := other.block, block;
      field, other.field := other.field, field;
    }

    function UseCount(): (n: int)
      reads this, BlockSet()
      ensures block == null ==> n == 0
      ensures block != null ==> n == block.Snapshot().strong
    {
      if block != null then block.GetCount() else 0
    }

    /** Expired: no block, or no strong reference left; the pointee is then destroyed. */
    predicate Expired()
      reads this, Footprint()
      ensures Expired() <==> block == null || block.Snapshot().strong == 0
      ensures Valid() && block != null && block.owned != null ==>
                (Expired() <==> block.owned.destroyCount > 0)
    {
      if block == null then true else block.IsEmpty()
    }

    function GetBlock(): (b: Block?)
      reads this
      ensures b == block
    {
      block
    }

    /** Lock: an empty SharedPtr when expired, else a new owner of the same pair. */
    method Lock() returns (sp: SharedPtr)
      requires Valid()
      modifies BlockSet()`strong, BlockSet()`adopted
      ensures fresh(sp) && sp.Valid() && Valid()
      ensures old(Expired()) ==> sp.block == null && sp.field == null
      ensures !old(Expired()) ==> sp.block == block && sp.field == field
      ensures !old(Expired()) ==> block.Snapshot() == AddStrong(old(block.Snapshot()))
      // an expired pointer's block is left exactly as it was
      ensures old(Expired()) && block != null ==>
                block.Snapshot() == old(block.Snapshot()) && unchanged(block)
    {
      sp := LockView(block, field);
    }
  }

  /** The pair (b, f) promoted to a new owner, or an empty SharedPtr when b is absent or its
      strong counter is 0.  Shared by WeakPtr::Lock and SharedFromThis. */
  method LockView(b: Block?, f: Object?) returns (sp: SharedPtr)
    requires b != null ==> b.Valid() && b.frees == 0 && b.adopted
    modifies (if b == null then {} else {b})`strong, (if b == null then {} else {b})`adopted
    ensures fresh(sp) && sp.Valid()
    ensures b == null || old(b.strong) == 0 ==> sp.block == null && sp.field == null
    ensures b != null && old(b.strong) != 0 ==>
              sp.block == b && sp.field == f && b.Snapshot() == AddStrong(old(b.Snapshot()))
    ensures b != null ==> b.Valid() && b.adopted
    ensures b != null && old(b.strong) == 0 ==> b.Snapshot() == old(b.Snapshot()) && unchanged(b)
  {
    sp := new SharedPtr.Empty();
    if b != null && !b.IsEmpty() {
      sp.field := f;
      sp.block := b;
      sp.AddStrongRef();
    }
  }

  /** The outcome of SharedPtr(const WeakPtr&), whose failure is the BadWeakPtr exception. */
  datatype Promotion = Promoted(sp: SharedPtr) | BadWeakPtr

  /** SharedPtr(const WeakPtr& other): BadWeakPtr with nothing changed if `other` is expired,
      otherwise a new owner of other's pair with one more strong reference. */
  method Promote(other: WeakPtr) returns (r: Promotion)
    requires other.Valid()
    modifies other.BlockSet()`strong, other.BlockSet()`adopted
    ensures other.Valid()
    ensures r.BadWeakPtr? <==> old(other.Expired())
    ensures r.BadWeakPtr? && other.block != null ==> other.block.Snapshot() == old(other.block.Snapshot())
    ensures r.Promoted? ==> fresh(r.sp) && r.sp.Valid() && r.sp.block == other.block && r.sp.field == other.field
    ensures r.Promoted? ==> other.block.Snapshot() == AddStrong(old(other.block.Snapshot()))
  {
    if other.Expired() {
      return BadWeakPtr;
    }
    var sp := new SharedPtr.Empty();
    sp.block := other.GetBlock();
    sp.field := other.field;
    sp.AddStrongRef();
    return Promoted(sp);
  }

  /** What holds of a pointee's hidden slot: when wired it observes the block that owns the
      pointee, which has been adopted and not freed. */
  ghost predicate SlotValid(o: Object)
    reads o, o.SlotBlock(), if o.slot == null then {} else {o.slot.owned}
  {
    o.slot != null ==> o.slot.owned == o && o.slot.Valid() && o.slot.frees == 0 && o.slot.adopted
  }

  /** EnableSharedFromThis::SharedFromThis = weak_this_.Lock().  A wired slot always yields a
      new owner of the pointee's block; an unwired one (the object was never handed to a
      SharedPtr) yields an empty SharedPtr. */
  method SharedFromThis(o: Object) returns (sp: SharedPtr)
    requires SlotValid(o)
    modifies o.SlotBlock()`strong, o.SlotBlock()`adopted
    ensures fresh(sp) && sp.Valid() && SlotValid(o)
    ensures o.slot == null ==> sp.block == null && sp.field == null
    ensures o.slot != null ==> sp.block == o.slot && sp.field == o
    ensures o.slot != null ==> o.slot.Snapshot() == AddStrong(old(o.slot.Snapshot()))
  {
    sp := LockView(o.slot, if o.slot == null then null else o);
  }

  /** EnableSharedFromThis::WeakFromThis: a copy of weak_this_. */
  method WeakFromThis(o: Object) returns (w: WeakPtr)
    requires SlotValid(o)
    modifies o.SlotBlock()`weak
    ensures fresh(w) && w.Valid() && SlotValid(o)
    ensures w.block == o.slot && w.field == (if o.slot == null then null else o)
    ensures o.slot != null ==> o.slot.Snapshot() == AddWeak(old(o.slot.Snapshot()))
  {
    w := new WeakPtr.Empty();
    w.block := o.slot;
    w.field := if o.slot == null then null else o;
    w.AddWeakRef();
  }

  /** After the block-only Swap of two pointers that observe different MakeShared objects,
      each pointer's field_ is an object whose lifetime another block manages. */
  method SwapSplitsPairs() returns (a: WeakPtr, b: WeakPtr)
    ensures a.block != null && a.field != null && a.field.owner != a.block
    ensures b.block != null && b.field != null && b.field.owner != b.block
  {
    var x := MakeShared(false);
    var y := MakeShared(false);
    a := new WeakPtr.FromShared(x);
    b := new WeakPtr.FromShared(y);
    a.Swap(b);
  }

  /** With SwapPair the same two pointers keep each field_ with the block that manages it. */
  method SwapPairKeepsPairs() returns (a: WeakPtr, b: WeakPtr)
    ensures a.block != null && a.field != null && a.field.owner == a.block
    ensures b.block != null && b.field != null && b.field.owner == b.block
  {
    var x := MakeShared(false);
    var y := MakeShared(false);
    a := new WeakPtr.FromShared(x);
    b := new WeakPtr.FromShared(y);
    a.SwapPair(b);
  }
}
