/** IntrusivePtr of smart-ptrs/intrusive/intrusive.h: the reference count lives in the pointee
    (a SimpleCounter inside RefCounted), and the pointee destroys itself through its Deleter
    when DecRef brings the count to 0. */
module Intrusive {

  /** SimpleCounter: a plain counter embedded in the object it counts. */
  datatype SimpleCounter = SimpleCounter(count: nat) {   // count_

    /** IncRef: one more; the new value is what it returns. */
    function IncRef(): (r: SimpleCounter)
      ensures r.count == count + 1
    {
      SimpleCounter(count + 1)
    }

    /** DecRef: the decrement is unguarded (size_t), so the count must be positive. */
    function DecRef(): (r: SimpleCounter)
      requires count >= 1
      ensures r.count + 1 == count
    {
      SimpleCounter(count - 1)
    }

    function RefCount(): (n: nat)
      ensures n == count
    {
      count
    }
  }

  /** SimpleCounter() = default: count_ starts at 0. */
  function NewCounter(): (c: SimpleCounter)
    ensures c.RefCount() == 0
  {
    SimpleCounter(0)
  }

  /** SimpleCounter(const SimpleCounter&): a copy starts at 0 whatever `other` counts, so a
      copied object is not owned by the original's pointers. */
  function CopiedCounter(other: SimpleCounter): (c: SimpleCounter)
    ensures c.RefCount() == 0 && c == NewCounter()
  {
    SimpleCounter(0)
  }

  /** operator=(const SimpleCounter&): the target keeps its own count. */
  function AssignedCounter(target: SimpleCounter, other: SimpleCounter): (c: SimpleCounter)
    ensures c.RefCount() == target.RefCount()
  {
    target
  }

  /** The abstract state of a reference-counted object. */
  datatype Obj = Obj(count: nat, destroyed: nat)

  /** RefCounted::IncRef: one more reference, never a destruction. */
  function Inc(o: Obj): (r: Obj)
    ensures r.count == o.count + 1 && r.destroyed == o.destroyed
  {
    o.(count := o.count + 1)
  }

  /** RefCounted::DecRef: one reference fewer; Deleter::Destroy runs exactly when the count
      reaches 0. */
  function Dec(o: Obj): (r: Obj)
    requires o.count >= 1
    ensures r.count == o.count - 1
    ensures r.destroyed == o.destroyed + (if r.count == 0 then 1 else 0)
  {
    var d := o.(count := o.count - 1);
    if d.count == 0 then d.(destroyed := o.destroyed + 1) else d
  }

  /** RefCounted<Derived, SimpleCounter, Deleter>: `destroyCount` counts the runs of
      Deleter::Destroy on this object. */
  class RefCounted {
    var counter: SimpleCounter   // counter_
    var destroyCount: nat

    /** A freshly constructed object: count 0, alive. */
    constructor ()
      ensures Snapshot() == Obj(0, 0)
    {
      counter := NewCounter();
      destroyCount := 0;
    }

    function Snapshot(): Obj
      reads this
    {
      Obj(counter.count, destroyCount)
    }

    /** The object has not been destroyed. */
    predicate Alive()
      reads this
    {
      destroyCount == 0
    }

    method IncRef()
      modifies this
      ensures Snapshot() == Inc(old(Snapshot()))
    {
      counter := counter.IncRef();
    }

    method DecRef()
      requires counter.count >= 1
      modifies this
      ensures Snapshot() == Dec(old(Snapshot()))
    {
      counter := counter.DecRef();
      if counter.RefCount() == 0 {
        // Deleter::Destroy(static_cast<Derived*>(this))
        destroyCount := destroyCount + 1;
      }
    }

    function RefCount(): (n: nat)
      reads this
      ensures n == Snapshot().count
    {
      counter.RefCount()
    }
  }

  class IntrusivePtr {
    var ptr: RefCounted?   // ptr_

    ghost function Footprint(): set<object>
      reads this
    {
      if ptr == null then {} else {ptr}
    }

    /** A held object is alive and counts this pointer. */
    ghost predicate Valid()
      reads this, Footprint()
    {
      ptr != null ==> ptr.Alive() && ptr.counter.count >= 1
    }

    /** IntrusivePtr() and IntrusivePtr(nullptr). */
    constructor Empty()
      ensures ptr == null && Valid()
    {
      ptr := null;
    }

    /** IntrusivePtr(T* ptr): one more reference on a live object. */
    constructor FromRaw(p: RefCounted?)
      requires p != null ==> p.Alive()
      modifies if p == null then {} else {p}
      ensures ptr == p && Valid()
      ensures p != null ==> p.Snapshot() == Inc(old(p.Snapshot()))
    {
      ptr := p;
      new;
      IncHeld();
    }

    /** Inc: IncRef on the held object, if any. */
    method IncHeld()
      modifies if ptr == null then {} else {ptr}
      ensures ptr != null ==> ptr.Snapshot() == Inc(old(ptr.Snapshot()))
    {
      if ptr != null {
        ptr.IncRef();
      }
    }

    /** Dec: DecRef on the held object, if any, and forget it. */
    method DecHeld()
      requires Valid()
      modifies this, Footprint()
      ensures ptr == null
      ensures old(ptr) != null ==> old(ptr).Snapshot() == Dec(old(ptr.Snapshot()))
    {
      if ptr != null {
        ptr.DecRef();
        ptr := null;
      }
    }

    /** IntrusivePtr(const IntrusivePtr&): the fresh pointer is null, so it adopts `other`
        and adds a reference only when other holds an object. */
    constructor Copy(other: IntrusivePtr)
      requires other.Valid()
      modifies other.Footprint()
      ensures ptr == other.ptr && Valid() && other.Valid()
      ensures ptr != null ==> ptr.Snapshot() == Inc(old(other.ptr.Snapshot()))
    {
      ptr := null;
      new;
      if ptr != other.ptr {
        ptr := other.ptr;
        IncHeld();
      }
    }

    /** IntrusivePtr(IntrusivePtr&&): the pointer moves over, no count changes. */
    constructor Move(other: IntrusivePtr)
      requires other.Valid()
      modifies other
      ensures ptr == old(other.ptr) && other.ptr == null && Valid()
    {
      ptr := null;
      new;
      if ptr != other.ptr {
        ptr := other.ptr;
        other.ptr := null;
      }
    }

    /** operator=(const IntrusivePtr&): nothing if both hold the same object; otherwise the
        old object loses a reference (and may be destroyed), then the new one gains one. */
    method CopyAssign(other: IntrusivePtr)
      requires Valid() && other.Valid()
      modifies this, Footprint(), other.Footprint()
      ensures ptr == old(other.ptr) && Valid() && other.Valid()
      ensures old(ptr) == old(other.ptr) && ptr != null ==> ptr.Snapshot() == old(ptr.Snapshot())
      ensures old(ptr) != old(other.ptr) && old(ptr) != null ==> old(ptr).Snapshot() == Dec(old(ptr.Snapshot()))
      ensures old(ptr) != old(other.ptr) && ptr != null ==> ptr.Snapshot() == Inc(old(other.ptr.Snapshot()))
    {
      if ptr == other.ptr {
        return;
      }
      DecHeld();
      ptr := other.ptr;
      IncHeld();
    }

    /** operator=(IntrusivePtr&&): nothing if both hold the same object; otherwise the old
        object loses a reference and the pointer moves over. */
    method MoveAssign(other: IntrusivePtr)
      requires Valid() && other.Valid()
      modifies this, other, Footprint()
      ensures old(ptr) == old(other.ptr) ==> ptr == old(ptr) && other.ptr == old(other.ptr)
      ensures old(ptr) == old(other.ptr) && ptr != null ==> ptr.Snapshot() == old(ptr.Snapshot())
      ensures old(ptr) != old(other.ptr) ==> ptr == old(other.ptr) && other.ptr == null
      ensures old(ptr) != old(other.ptr) && old(ptr) != null ==> old(ptr).Snapshot() == Dec(old(ptr.Snapshot()))
      ensures old(ptr) != old(other.ptr) && ptr != null ==> ptr.Snapshot() == old(other.ptr.Snapshot())
      ensures Valid()
    {
      if ptr == other.ptr {
        return;
      }
      DecHeld();
      ptr := other.ptr;
      other.ptr := null;
    }

    /** Reset() and the destructor. */
    method Reset()
      requires Valid()
      modifies this, Footprint()
      ensures ptr == null
      ensures old(ptr) != null ==> old(ptr).Snapshot() == Dec(old(ptr.Snapshot()))
    {
      DecHeld();
    }

    /** Reset(T* ptr): release the old object, then add a reference to `p`.  Resetting to the
        object already held is excluded (its last reference would destroy it first). */
    method ResetTo(p: RefCounted?)
      requires Valid() && (p != null ==> p.Alive())
      requires p == null || p != ptr
      modifies this, Footprint(), if p == null then {} else {p}
      ensures ptr == p && Valid()
      ensures old(ptr) != null ==> old(ptr).Snapshot() == Dec(old(ptr.Snapshot()))
      ensures p != null ==> p.Snapshot() == Inc(old(p.Snapshot()))
    {
      DecHeld();
      ptr := p;
      IncHeld();
    }

    /** Swap: the pointers are exchanged, no count changes. */
    method Swap(other: IntrusivePtr)
      modifies this, other
      ensures ptr == old(other.ptr) && other.ptr == old(ptr)
    {
      ptr, other.ptr := other.ptr, ptr;
    }

    function Get(): (p: RefCounted?)
      reads this
      ensures p == ptr
    {
      ptr
    }

    /** UseCount: 0 for null, the object's count otherwise; positive while an object is held. */
    function UseCount(): (n: nat)
      reads this, Footprint()
      ensures ptr == null ==> n == 0
      ensures ptr != null ==> n == ptr.Snapshot().count
      ensures Valid() ==> (n > 0 <==> ptr != null)
    {
      if ptr == null then 0 else ptr.RefCount()
    }

    /** explicit operator bool. */
    predicate NonNull()
      reads this
      ensures NonNull() <==> ptr != null
    {
      ptr != null
    }
  }

  /** MakeIntrusive: a new object held by one pointer with count 1. */
  method MakeIntrusive() returns (ip: IntrusivePtr)
    ensures fresh(ip) && ip.ptr != null && fresh(ip.ptr) && ip.Valid()
    ensures ip.ptr.Snapshot() == Obj(1, 0)
  {
    var o := new RefCounted();
    ip := new IntrusivePtr.FromRaw(o);
  }

  /** All objects and IntrusivePtrs of a program at once: `refs[id]` is the number of
      pointers holding object `id`. */
  datatype Pool = Pool(objs: seq<Obj>, refs: multiset<nat>)

  /** Every object counts exactly its pointers, is destroyed once its count is 0 and never
      more than once. */
  ghost predicate Counted(p: Pool) {
    && (forall r :: r in p.refs ==> r < |p.objs|)
    && (forall id :: 0 <= id < |p.objs| ==>
          p.objs[id].count == p.refs[id]
          && p.objs[id].destroyed == (if p.objs[id].count == 0 then 1 else 0))
  }

  datatype PoolOp =
    | Make            // MakeIntrusive<T>()
    | Share(id: nat)  // copy construction, copy assignment's Inc, Reset(p)'s Inc
    | Drop(id: nat)   // destructor, Reset(), the Dec of assignments and Reset(p)

  function Perform(p: Pool, op: PoolOp): Pool {
    match op
    case Make => Pool(p.objs + [Inc(Obj(0, 0))], p.refs + multiset{|p.objs|})
    case Share(id) =>
      if id in p.refs && id < |p.objs| then Pool(p.objs[id := Inc(p.objs[id])], p.refs + multiset{id}) else p
    case Drop(id) =>
      if id in p.refs && id < |p.objs| && p.objs[id].count >= 1 then
        Pool(p.objs[id := Dec(p.objs[id])], p.refs - multiset{id})
      else p
  }

  /** Every operation keeps the count of each object equal to its pointers: a held object is
      alive, and an object is destroyed exactly when its last pointer lets go. */
  lemma PerformPreserves(p: Pool, op: PoolOp)
    requires Counted(p)
    ensures Counted(Perform(p, op))
  {
    var q := Perform(p, op);
    match op
    case Make =>
      forall id | 0 <= id < |q.objs|
        ensures q.objs[id].count == q.refs[id]
      {
        if id < |p.objs| {
          assert q.objs[id] == p.objs[id];
        }
      }
    case Share(id) =>
      forall j | 0 <= j < |q.objs|
        ensures q.objs[j].count == q.refs[j]
      {
        if j != id {
          assert q.objs[j] == p.objs[j];
        }
      }
    case Drop(id) =>
      if id in p.refs && id < |p.objs| && p.objs[id].count >= 1 {
        forall j | 0 <= j < |q.objs|
          ensures q.objs[j].count == q.refs[j]
        {
          if j != id {
            assert q.objs[j] == p.objs[j];
          }
        }
      }
  }

  /** The last pointer's Drop destroys the object exactly once; any other Drop does not. */
  lemma DropDestroysAtLast(p: Pool, id: nat)
    requires Counted(p) && id in p.refs
    ensures var q := Perform(p, Drop(id));
            && q.objs[id].destroyed == (if p.refs[id] == 1 then 1 else 0)
            && q.objs[id].destroyed <= 1
  {
    assert p.objs[id].count == p.refs[id];
  }
}
