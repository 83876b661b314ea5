/** UniquePtr of smart-ptrs/unique/unique.h, its array specialisation, and the default deleters
    Slug<T> and Slug<T[]>.  A pointer is a token: 0 stands for nullptr, any other value for one
    allocation.  Running a deleter is recorded in a Heap, so "deleted exactly once" becomes a
    statement about the record. */
module Unique {

  /** The deletion policy: the default Slug, or a user policy whose state is an integer. */
  datatype Deleter = Slug | Stateful(state: int)

  /** Deleter(): the value a moved-from pointer's policy is reset to. */
  function DefaultOf(d: Deleter): (r: Deleter)
    ensures r.Slug? == d.Slug?
    ensures r.Stateful? ==> r.state == 0
  {
    match d
    case Slug => Slug
    case Stateful(_) => Stateful(0)
  }

  /** What running a policy on an allocation does: Slug<T> is `delete`, Slug<T[]> is
      `delete[]`, a user policy is its own call operator. */
  datatype Form = DeleteObject | DeleteArray | UserPolicy(state: int)

  function FormOf(d: Deleter, isArray: bool): (f: Form)
    ensures d.Slug? ==> (f == DeleteArray <==> isArray) && !f.UserPolicy?
    ensures d.Stateful? ==> f == UserPolicy(d.state)
  {
    match d
    case Slug => if isArray then DeleteArray else DeleteObject
    case Stateful(s) => UserPolicy(s)
  }

  /** One run of a deleter on `target`; `heldAtCall` is what the calling UniquePtr held
      while the deleter ran. */
  datatype Call = Call(form: Form, target: nat, heldAtCall: nat)

  /** The record of every deleter run. */
  class Heap {
    var calls: seq<Call>

    constructor ()
      ensures calls == []
    {
      calls := [];
    }

    /** pair_.GetSecond()(temp). */
    method Invoke(d: Deleter, isArray: bool, target: nat, heldAtCall: nat)
      modifies this
      ensures calls == old(calls) + [Call(FormOf(d, isArray), target, heldAtCall)]
    {
      calls := calls + [Call(FormOf(d, isArray), target, heldAtCall)];
    }
  }

  /** The deleter calls a UniquePtr releasing `p` makes: one if `p` is not null. */
  function Deletion(d: Deleter, isArray: bool, p: nat, heldAtCall: nat): (s: seq<Call>)
    ensures |s| == (if p == 0 then 0 else 1)
    ensures p != 0 ==> s[0].target == p && s[0].heldAtCall == heldAtCall && s[0].form == FormOf(d, isArray)
  {
    if p == 0 then [] else [Call(FormOf(d, isArray), p, heldAtCall)]
  }

  /** UniquePtr<T, Deleter> (isArray false) and UniquePtr<T[], Deleter> (isArray true). */
  class UniquePtr {
    var ptr: nat           // pair_.GetFirst()
    var deleter: Deleter   // pair_.GetSecond()
    const isArray: bool

    /** UniquePtr(T* ptr = nullptr): the default deleter. */
    constructor (isArray: bool, p: nat)
      ensures this.isArray == isArray && ptr == p && deleter == Slug
    {
      this.isArray := isArray;
      ptr := p;
      deleter := Slug;
    }

    /** UniquePtr(T* ptr, Del&& deleter). */
    constructor WithDeleter(isArray: bool, p: nat, d: Deleter)
      ensures this.isArray == isArray && ptr == p && deleter == d
    {
      this.isArray := isArray;
      ptr := p;
      deleter := d;
    }

    /** UniquePtr(UniquePtr&& other) of both templates.  The fresh pair holds null, so a null
        source is left alone; otherwise its pair moves over and the source is left null.  The
        primary template resets the source's deleter to its default, the array one does not. */
    constructor Move(other: UniquePtr)
      modifies other
      ensures isArray == other.isArray
      ensures old(other.ptr) == 0 ==> ptr == 0 && deleter == DefaultOf(old(other.deleter))
      ensures old(other.ptr) == 0 ==> other.ptr == 0 && other.deleter == old(other.deleter)
      ensures old(other.ptr) != 0 ==> ptr == old(other.ptr) && deleter == old(other.deleter) && other.ptr == 0
      ensures old(other.ptr) != 0 ==>
                other.deleter == (if other.isArray then old(other.deleter) else DefaultOf(old(other.deleter)))
    {
      isArray := other.isArray;
      ptr := 0;
      deleter := DefaultOf(other.deleter);
      new;
      if ptr != other.ptr {
        // CorrectDelete on the fresh null pair runs no deleter
        ptr := other.ptr;
        deleter := other.deleter;
        other.ptr := 0;
        if !isArray {
          other.deleter := DefaultOf(other.deleter);
        }
      }
    }

    /** CorrectDelete, used by the destructor: the pointer is cleared first, then the deleter
        runs once on the old pointer if it was not null. */
    method CorrectDelete(heap: Heap)
      modifies this`ptr, heap
      ensures ptr == 0
      ensures heap.calls == old(heap.calls) + Deletion(deleter, isArray, old(ptr), 0)
    {
      var temp := ptr;
      ptr := 0;
      if temp != 0 {
        heap.Invoke(deleter, isArray, temp, ptr);
      }
    }

    /** operator=(std::nullptr_t). */
    method AssignNull(heap: Heap)
      modifies this`ptr, heap
      ensures ptr == 0
      ensures heap.calls == old(heap.calls) + Deletion(deleter, isArray, old(ptr), 0)
    {
      CorrectDelete(heap);
      ptr := 0;
    }

    /** operator=(UniquePtr&& other) of both templates: nothing when both hold the same
        pointer (so self-move is harmless); otherwise the old pointer is deleted, the pair moves
        over and the source is left null with a default deleter. */
    method MoveAssign(other: UniquePtr, heap: Heap)
      requires other.isArray == isArray
      modifies this, other, heap
      ensures old(ptr) == old(other.ptr) ==>
                ptr == old(ptr) && deleter == old(deleter) && other.ptr == old(other.ptr)
                && other.deleter == old(other.deleter) && heap.calls == old(heap.calls)
      ensures old(ptr) != old(other.ptr) ==>
                ptr == old(other.ptr) && deleter == old(other.deleter)
                && other.ptr == 0 && other.deleter == DefaultOf(old(other.deleter))
                && heap.calls == old(heap.calls) + Deletion(old(deleter), isArray, old(ptr), 0)
    {
      if ptr == other.ptr {
        return;
      }
      CorrectDelete(heap);
      ptr := other.ptr;
      deleter := other.deleter;
      other.deleter := DefaultOf(other.deleter);
      other.ptr := 0;
    }

    /** Release: hand the pointer to the caller without running the deleter. */
    method Release() returns (p: nat)
      modifies this`ptr
      ensures p == old(ptr) && ptr == 0
    {
      p := ptr;
      ptr := 0;
    }

    /** Reset(T* ptr = nullptr): store the new pointer first, then delete the old one if it
        was not null.  Resetting to the pointer already held is excluded. */
    method Reset(p: nat, heap: Heap)
      requires p == 0 || p != ptr
      modifies this`ptr, heap
      ensures ptr == p
      ensures heap.calls == old(heap.calls) + Deletion(deleter, isArray, old(ptr), p)
    {
      var temp := ptr;
      ptr := p;
      if temp != 0 {
        heap.Invoke(deleter, isArray, temp, ptr);
      }
    }

    /** Swap: both pointers and both deleters are exchanged; no deleter runs. */
    method Swap(other: UniquePtr)
      modifies this, other
      ensures ptr == old(other.ptr) && deleter == old(other.deleter)
      ensures other.ptr == old(ptr) && other.deleter == old(deleter)
    {
      ptr, other.ptr := other.ptr, ptr;
      deleter, other.deleter := other.deleter, deleter;
    }

    function Get(): (p: nat)
      reads this
      ensures p == ptr
    {
      ptr
    }

    function GetDeleter(): (d: Deleter)
      reads this
      ensures d == deleter
    {
      deleter
    }

    /** explicit operator bool. */
    predicate NonNull()
      reads this
      ensures NonNull() <==> ptr != 0
    {
      ptr != 0
    }
  }

  /** Every UniquePtr of a program at once, with the allocations handed out by Release and not
      yet adopted again, and the targets of every deleter run so far, in order. */
  datatype Pair = Pair(ptr: nat, deleter: Deleter, isArray: bool)
  datatype Store = Store(pairs: seq<Pair>, loose: set<nat>, deleted: seq<nat>, next: nat)

  /** A non-null allocation has exactly one owner: one UniquePtr, or the caller after Release,
      or nobody once deleted; and nothing is deleted twice. */
  ghost predicate Exclusive(s: Store) {
    && (forall i :: 0 <= i < |s.pairs| && s.pairs[i].ptr != 0 ==>
          s.pairs[i].ptr < s.next && s.pairs[i].ptr !in s.loose && s.pairs[i].ptr !in s.deleted)
    && (forall i, j :: 0 <= i < j < |s.pairs| && s.pairs[i].ptr != 0 ==> s.pairs[i].ptr != s.pairs[j].ptr)
    && (forall p :: p in s.loose ==> 0 < p < s.next && p !in s.deleted)
    && (forall k :: 0 <= k < |s.deleted| ==> 0 < s.deleted[k] < s.next)
    && (forall k, l :: 0 <= k < l < |s.deleted| ==> s.deleted[k] != s.deleted[l])
    && s.next >= 1
  }

  datatype UniqueOp =
    | New(isArray: bool, d: Deleter)       // UniquePtr(new T, d)
    | NewNull(isArray: bool, d: Deleter)   // UniquePtr(nullptr, d)
    | Adopt(p: nat, isArray: bool, d: Deleter) // UniquePtr(raw) of a pointer obtained by Release
    | MoveNew(i: nat)                      // UniquePtr(std::move(pairs[i]))
    | MoveInto(i: nat, j: nat)             // pairs[i] = std::move(pairs[j])
    | Drop(i: nat)                         // ~UniquePtr or pairs[i] = nullptr
    | ReleaseOp(i: nat)                    // pairs[i].Release()
    | ResetOp(i: nat, p: nat)              // pairs[i].Reset(p), p null or obtained by Release
    | SwapOp(i: nat, j: nat)               // pairs[i].Swap(pairs[j])

  /** The deleted targets when `p` is released: none for null. */
  function Deleted(p: nat): seq<nat> {
    if p == 0 then [] else [p]
  }

  /** One operation; one whose pointer does not exist, or whose raw pointer does not belong to
      the caller, leaves the store as it is. */
  function Apply(s: Store, op: UniqueOp): Store {
    match op
    case New(a, d) => Store(s.pairs + [Pair(s.next, d, a)], s.loose, s.deleted, s.next + 1)
    case NewNull(a, d) => Store(s.pairs + [Pair(0, d, a)], s.loose, s.deleted, s.next)
    case Adopt(p, a, d) =>
      if p in s.loose then Store(s.pairs + [Pair(p, d, a)], s.loose - {p}, s.deleted, s.next) else s
    case MoveNew(i) =>
      if i < |s.pairs| then
        var src := s.pairs[i];
        if src.ptr == 0 then Store(s.pairs + [Pair(0, DefaultOf(src.deleter), src.isArray)], s.loose, s.deleted, s.next)
        else
          var left := Pair(0, if src.isArray then src.deleter else DefaultOf(src.deleter), src.isArray);
          Store(s.pairs[i := left] + [src], s.loose, s.deleted, s.next)
      else s
    case MoveInto(i, j) =>
      if i < |s.pairs| && j < |s.pairs| && s.pairs[i].isArray == s.pairs[j].isArray then
        var dst := s.pairs[i];
        var src := s.pairs[j];
        if dst.ptr == src.ptr then s
        else Store(s.pairs[i := src][j := Pair(0, DefaultOf(src.deleter), src.isArray)], s.loose,
                   s.deleted + Deleted(dst.ptr), s.next)
      else s
    case Drop(i) =>
      if i < |s.pairs| then
        Store(s.pairs[i := s.pairs[i].(ptr := 0)], s.loose, s.deleted + Deleted(s.pairs[i].ptr), s.next)
      else s
    case ReleaseOp(i) =>
      if i < |s.pairs| then
        Store(s.pairs[i := s.pairs[i].(ptr := 0)], s.loose + (if s.pairs[i].ptr == 0 then {} else {s.pairs[i].ptr}),
              s.deleted, s.next)
      else s
    case ResetOp(i, p) =>
      if i < |s.pairs| && (p == 0 || p in s.loose) then
        Store(s.pairs[i := s.pairs[i].(ptr := p)], s.loose - {p}, s.deleted + Deleted(s.pairs[i].ptr), s.next)
      else s
    case SwapOp(i, j) =>
      if i < |s.pairs| && j < |s.pairs| then Store(s.pairs[i := s.pairs[j]][j := s.pairs[i]], s.loose, s.deleted, s.next)
      else s
  }

  /** Destroying pair i deletes its allocation, which nobody else holds or has deleted. */
  lemma DroppedPreserves(s: Store, i: nat)
    requires Exclusive(s) && i < |s.pairs|
    ensures Exclusive(Apply(s, Drop(i)))
  {
    var t := Apply(s, Drop(i));
    var p := s.pairs[i].ptr;
    forall k, l | 0 <= k < l < |t.deleted|
      ensures t.deleted[k] != t.deleted[l]
    {
      if l == |s.deleted| {
        assert t.deleted[l] == p && p != 0;
        assert t.deleted[k] == s.deleted[k];
      }
    }
  }

  lemma ReleasedPreserves(s: Store, i: nat)
    requires Exclusive(s) && i < |s.pairs|
    ensures Exclusive(Apply(s, ReleaseOp(i)))
  {
  }

  lemma MoveIntoPreserves(s: Store, i: nat, j: nat)
    requires Exclusive(s)
    ensures Exclusive(Apply(s, MoveInto(i, j)))
  {
    if i < |s.pairs| && j < |s.pairs| && s.pairs[i].isArray == s.pairs[j].isArray && s.pairs[i].ptr != s.pairs[j].ptr {
      var t := Apply(s, MoveInto(i, j));
      var p := s.pairs[i].ptr;
      forall k, l | 0 <= k < l < |t.deleted|
        ensures t.deleted[k] != t.deleted[l]
      {
        if l == |s.deleted| {
          assert t.deleted[l] == p && p != 0;
          assert t.deleted[k] == s.deleted[k];
        }
      }
      forall a, b | 0 <= a < b < |t.pairs| && t.pairs[a].ptr != 0
        ensures t.pairs[a].ptr != t.pairs[b].ptr
      {
        assert a != j && (b == j ==> t.pairs[b].ptr == 0);
        if a == i {
          assert t.pairs[a] == s.pairs[j];
          assert b != i && b != j ==> t.pairs[b] == s.pairs[b];
        } else if b == i {
          assert t.pairs[b] == s.pairs[j] && t.pairs[a] == s.pairs[a];
        }
      }
    }
  }

  lemma ResetPreserves(s: Store, i: nat, p: nat)
    requires Exclusive(s)
    ensures Exclusive(Apply(s, ResetOp(i, p)))
  {
    if i < |s.pairs| && (p == 0 || p in s.loose) {
      var t := Apply(s, ResetOp(i, p));
      var q := s.pairs[i].ptr;
      forall k, l | 0 <= k < l < |t.deleted|
        ensures t.deleted[k] != t.deleted[l]
      {
        if l == |s.deleted| {
          assert t.deleted[l] == q && q != 0;
          assert t.deleted[k] == s.deleted[k];
        }
      }
    }
  }

  lemma SwapPreserves(s: Store, i: nat, j: nat)
    requires Exclusive(s)
    ensures Exclusive(Apply(s, SwapOp(i, j)))
  {
    if i < |s.pairs| && j < |s.pairs| {
      var t := Apply(s, SwapOp(i, j));
      forall a, b | 0 <= a < b < |t.pairs| && t.pairs[a].ptr != 0
        ensures t.pairs[a].ptr != t.pairs[b].ptr
      {
        var a' := if a == i then j else if a == j then i else a;
        var b' := if b == i then j else if b == j then i else b;
        assert t.pairs[a] == s.pairs[a'] && t.pairs[b] == s.pairs[b'] && a' != b';
      }
    }
  }

  lemma MoveNewPreserves(s: Store, i: nat)
    requires Exclusive(s)
    ensures Exclusive(Apply(s, MoveNew(i)))
  {
    if i < |s.pairs| && s.pairs[i].ptr != 0 {
      var t := Apply(s, MoveNew(i));
      forall a, b | 0 <= a < b < |t.pairs| && t.pairs[a].ptr != 0
        ensures t.pairs[a].ptr != t.pairs[b].ptr
      {
        if b == |s.pairs| {
          assert t.pairs[b] == s.pairs[i] && a != i && t.pairs[a] == s.pairs[a];
          if a > i {
            assert s.pairs[i].ptr != s.pairs[a].ptr;
          }
        }
      }
    }
  }

  lemma NewPreserves(s: Store, isArray: bool, d: Deleter)
    requires Exclusive(s)
    ensures Exclusive(Apply(s, New(isArray, d)))
  {
    var t := Apply(s, New(isArray, d));
    forall a, b | 0 <= a < b < |t.pairs| && t.pairs[a].ptr != 0
      ensures t.pairs[a].ptr != t.pairs[b].ptr
    {
      if b == |s.pairs| {
        assert t.pairs[a] == s.pairs[a] && s.pairs[a].ptr < s.next;
      }
    }
  }

  lemma AdoptPreserves(s: Store, p: nat, isArray: bool, d: Deleter)
    requires Exclusive(s)
    ensures Exclusive(Apply(s, Adopt(p, isArray, d)))
  {
    if p in s.loose {
      var t := Apply(s, Adopt(p, isArray, d));
      forall a, b | 0 <= a < b < |t.pairs| && t.pairs[a].ptr != 0
        ensures t.pairs[a].ptr != t.pairs[b].ptr
      {
        if b == |s.pairs| {
          assert t.pairs[a] == s.pairs[a] && s.pairs[a].ptr !in s.loose;
        }
      }
    }
  }

  /** Every operation keeps each allocation with a single owner and deletes nothing twice. */
  lemma ApplyPreserves(s: Store, op: UniqueOp)
    requires Exclusive(s)
    ensures Exclusive(Apply(s, op))
  {
    match op
    case New(a, d) => NewPreserves(s, a, d);
    case NewNull(a, d) =>
      var t := Apply(s, op);
      assert forall k :: 0 <= k < |s.pairs| ==> t.pairs[k] == s.pairs[k];
    case Adopt(p, a, d) => AdoptPreserves(s, p, a, d);
    case MoveNew(i) =>
      if i < |s.pairs| && s.pairs[i].ptr == 0 {
        var t := Apply(s, op);
        assert forall k :: 0 <= k < |s.pairs| ==> t.pairs[k] == s.pairs[k];
      } else {
        MoveNewPreserves(s, i);
      }
    case MoveInto(i, j) => MoveIntoPreserves(s, i, j);
    case Drop(i) => if i < |s.pairs| { DroppedPreserves(s, i); }
    case ReleaseOp(i) => if i < |s.pairs| { ReleasedPreserves(s, i); }
    case ResetOp(i, p) => ResetPreserves(s, i, p);
    case SwapOp(i, j) => SwapPreserves(s, i, j);
  }

  function RunUnique(s: Store, ops: seq<UniqueOp>): (r: Store)
    requires Exclusive(s)
    ensures Exclusive(r)
    decreases |ops|
  {
    if |ops| == 0 then s
    else
      ApplyPreserves(s, ops[0]);
      RunUnique(Apply(s, ops[0]), ops[1..])
  }

  /** From no pointers, any program deletes every allocation at most once and never lets
      two UniquePtrs hold the same one. */
  lemma {:induction false} NeverDeletedTwice(ops: seq<UniqueOp>)
    ensures var r := RunUnique(Store([], {}, [], 1), ops);
            && (forall k, l :: 0 <= k < l < |r.deleted| ==> r.deleted[k] != r.deleted[l])
            && (forall i, j :: 0 <= i < j < |r.pairs| && r.pairs[i].ptr != 0 ==> r.pairs[i].ptr != r.pairs[j].ptr)
  {
    assert Exclusive(Store([], {}, [], 1));
  }
}
