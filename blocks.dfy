/** The control blocks of smart-ptrs/weak/sw_fwd.h: BaseBlock with its two counters, the
    detached ControlBlock<T> and the fused Block<T>, as one class whose `kind` selects the
    overridden DecStrongRef.  The pointee is an object that counts its destructor calls. */
module Blocks {
  import opened CellSpec

  /** A pointee.  `selfObserving` marks a type deriving from EnableSharedFromThis; such an
      object carries the hidden weak_this_ slot, of which only block_ matters here (its field_
      is the object itself). */
  class Object {
    var destroyCount: nat
    const selfObserving: bool
    var slot: Block?          // weak_this_.block_, null while the slot is unset
    ghost var owner: Block?   // the control block that manages this object's lifetime

    constructor (selfObserving: bool)
      ensures this.selfObserving == selfObserving
      ensures destroyCount == 0 && slot == null && owner == null
    {
      this.selfObserving := selfObserving;
      destroyCount := 0;
      slot := null;
      owner := null;
    }

    ghost function SlotBlock(): set<Block>
      reads this
    {
      if slot == null then {} else {slot}
    }

    /** The destructor.  A self-observing object destroys its weak_this_ member with it, which
        drops that weak reference from the block it observes.  The caller has to keep another
        reference to that block, so that WeakPtr::DecWeakRef does not delete it from in here. */
    method Destroy()
      requires slot != null ==> slot.weak >= 1 && !(slot.strong == 0 && slot.weak == 1)
      modifies this, SlotBlock()`weak
      ensures destroyCount == old(destroyCount) + 1 && slot == null && owner == old(owner)
      ensures old(slot) != null ==> old(slot).weak == old(slot.weak) - 1
    {
      destroyCount := destroyCount + 1;
      if slot != null {
        var b := slot;
        b.DecWeakRef();
        // WeakPtr::DecWeakRef deletes the block only when both counters are now 0
        assert !b.WholeEmpty();
      }
      slot := null;
    }
  }

  class Block {
    var strong: int           // strong_ref_counter
    var weak: int             // weak_reaf_counter
    const kind: Kind
    const owned: Object?      // Detached: the pointer the block was built from; Fused: storage_
    var ptr: Object?          // ControlBlock::ptr_ (always null for Fused)
    var frees: nat            // how often `delete` has run on this block
    ghost var adopted: bool   // the block has had its first strong reference

    /** The abstract state of the block and its pointee. */
    function Snapshot(): Cell
      reads this, owned
    {
      Cell(strong, weak, kind, owned != null,
           if owned == null then 0 else owned.destroyCount,
           owned != null && owned.slot == this, frees)
    }

    ghost predicate Valid()
      reads this, owned
    {
      && Coherent(Snapshot())
      && (kind == Fused ==> owned != null)
      && (owned != null ==> owned.owner == this)
      && (owned != null ==> owned.slot == null || (owned.slot == this && owned.selfObserving))
      // ptr_ holds the pointee exactly while it is alive
      && ptr == (if kind == Detached && owned != null && owned.destroyCount == 0 then owned else null)
      && (!adopted ==> strong == 0)
      // once adopted, the pointee lives exactly as long as a strong reference exists
      && (adopted && owned != null ==> (owned.destroyCount == 0 <==> strong > 0))
    }

    /** ControlBlock(ptr).  The pointer must not already be managed by another block. */
    constructor ControlBlock(p: Object?)
      requires p != null ==> p.owner == null && p.destroyCount == 0 && p.slot == null
      modifies p
      ensures kind == Detached && owned == p && !adopted && Valid()
      ensures Snapshot() == NewBlock(Detached, p != null)
      ensures p != null ==> p.destroyCount == 0 && p.slot == null
    {
      strong, weak, kind, owned, ptr, frees := 0, 0, Detached, p, p, 0;
      adopted := false;
      new;
      if p != null {
        p.owner := this;
      }
    }

    /** Block(args...): the pointee is constructed in the block's own storage. */
    constructor WithStorage(selfObserving: bool)
      ensures kind == Fused && owned != null && fresh(owned) && !adopted && Valid()
      ensures owned.selfObserving == selfObserving && owned.slot == null
      ensures Snapshot() == NewBlock(Fused, true)
    {
      var o := new Object(selfObserving);
      strong, weak, kind, owned, ptr, frees := 0, 0, Fused, o, null, 0;
      adopted := false;
      new;
      o.owner := this;
    }

    /** Block::GetPtr: the address of the storage, the same on every call. */
    function GetPtr(): (p: Object)
      requires kind == Fused && owned != null
      ensures p == owned
    {
      owned
    }

    function GetCount(): (n: int)
      reads this
      ensures n == Snapshot().strong
    {
      strong
    }

    function WeakCount(): (n: int)
      reads this
      ensures n == Snapshot().weak
    {
      weak
    }

    predicate IsEmpty()
      reads this
      ensures IsEmpty() <==> Snapshot().IsEmpty()
    {
      strong == 0
    }

    predicate WholeEmpty()
      reads this
      ensures WholeEmpty() <==> Snapshot().WholeEmpty()
    {
      !(strong != 0) && !(weak != 0)
    }

    /** BaseBlock::AddStrongRef.  A destroyed pointee is never brought back. */
    method AddStrongRef()
      requires Valid() && frees == 0
      requires owned == null || owned.destroyCount == 0
      modifies this`strong, this`adopted
      ensures Snapshot() == AddStrong(old(Snapshot())) && adopted && Valid()
    {
      strong := strong + 1;
      adopted := true;
    }

    /** BaseBlock::AddWeakRef. */
    method AddWeakRef()
      requires Valid() && frees == 0
      modifies this`weak
      ensures Snapshot() == AddWeak(old(Snapshot())) && Valid()
    {
      weak := weak + 1;
    }

    /** DecWeakRef of ControlBlock<T> and Block<T>: the counter is decremented unguarded, so the
        caller must hold a weak reference.  Only `weak` is in the frame: the pointee is never
        touched. */
    method DecWeakRef()
      requires weak >= 1
      modifies this`weak
      ensures Snapshot() == DecWeak(old(Snapshot()))
      ensures old(Valid()) && (old(Snapshot()).slot ==> old(weak) >= 2) ==> Valid()
    {
      weak := weak - 1;
    }

    /** DecStrongRef of ControlBlock<T> (delete ptr_ and null it) and Block<T> (run ~T in the
        storage) at the transition to 0.  If that destroys a self-observing pointee whose slot
        observes this block, the caller must hold a second weak reference so that the slot's
        release cannot delete the block while this call is running. */
    method DecStrongRef()
      requires Valid() && frees == 0 && strong >= 1
      requires strong == 1 && owned != null && owned.slot == this ==> weak >= 2
      modifies this`strong, this`weak, this`ptr, owned
      ensures Snapshot() == DecStrong(old(Snapshot())) && Valid() && frees == 0
    {
      strong := strong - 1;
      if strong == 0 {
        if kind == Detached {
          if ptr != null {
            ptr.Destroy();
          }
          ptr := null;
        } else {
          owned.Destroy();
        }
      }
    }

    /** DecWeakRef of the earliest snapshot's ControlBlock<T>: after the decrement it also runs
        `delete ptr_` once both counters are 0.  Strong has reached 0 by then, so DecStrongRef
        has already nulled ptr_ and this deletes nothing: the pointee is still destroyed at most
        once.  That snapshot has no self-observing pointees. */
    method DecWeakRefDeletingPtr()
      requires Valid() && adopted && weak >= 1
      requires owned != null ==> owned.slot == null
      modifies this`weak, ptr
      ensures Snapshot() == DecWeak(old(Snapshot())) && Valid()
    {
      weak := weak - 1;
      if strong == 0 && weak == 0 {
        DeletePtr();
      }
    }

    /** `delete ptr_` without nulling it. */
    method DeletePtr()
      requires ptr != null ==> ptr.slot == null
      modifies ptr
      ensures ptr != null ==> ptr.destroyCount == old(ptr.destroyCount) + 1 && ptr.slot == null
    {
      if ptr != null {
        ptr.Destroy();
      }
    }

    /** `delete block`: ~ControlBlock deletes ptr_ if it is still set, ~Block does nothing; then
        the block's memory is reclaimed.  Only done once both counters are 0. */
    method Delete()
      requires Valid() && frees == 0 && adopted && WholeEmpty()
      modifies this`frees
      ensures Snapshot() == Free(old(Snapshot())) && Valid()
      ensures old(Snapshot()).destroyed == Snapshot().destroyed
    {
      // strong has reached 0, so DecStrongRef has already destroyed the pointee and nulled ptr_
      assert ptr == null;
      frees := frees + 1;
    }
  }
}
