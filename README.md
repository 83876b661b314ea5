# Hand-written reference-counting smart pointers, modelled in Dafny

This project models the smart pointers of the repository `Self-written-smart-ptrs`. It describes
each one by its counters and nullable references and proves how every operation changes them:

- **Control blocks** (`smart-ptrs/weak/sw_fwd.h`). A control block has a strong and a weak
  counter. It comes in a *detached* form (`ControlBlock<T>`, the pointee allocated apart) and a
  *fused* form (`Block<T>`, the pointee built in the block's own storage). Both forms are one
  class, `Blocks.Block`, with a `kind`. The pointee is `Blocks.Object`: it counts its
  destructions in `destroyCount`. A self-observing pointee (one deriving from
  `EnableSharedFromThis`) also has a `slot`, the block its hidden weak pointer refers to. Freeing
  a block is counted in `frees`.
- **SharedPtr / WeakPtr**, from the shared-from-this snapshot
  (`smart-ptrs/shared-from-this/shared.h`, `smart-ptrs/shared-from-this/weak.h`). These are
  classes `Shared.SharedPtr` and `Weak.WeakPtr`, each a `(block, field)` pair.
  - Every method states the new state of its block as a pure step function of the old one
    (module `CellSpec`), which is where the counting properties are proved.
  - Module `Ownership` puts all blocks and pointers of a program together. It proves that any
    program keeps every counter equal to the number of pointers holding the block, destroys a
    pointee exactly when its last SharedPtr goes, and frees a block exactly when nothing refers
    to it. In these programs every SharedPtr lets its block go the way `Reset()` does. The
    assignments and `Reset(T*)` as written do not, and `Ownership.AssignedDropBreaksAccount`
    shows that their release breaks the account (see Findings). This is also what makes the local preconditions of the classes hold: a counter is
    positive before it is decremented, and two pointers sharing a block hold two references.
- **Self-observation** (`EnableSharedFromThis`). Construction from a raw pointer and
  `MakeShared` wire the hidden weak slot; `SharedFromThis` and `WeakFromThis` read it.
  `Reset()` raises the weak count around its strong decrement, so that a pointee whose
  destruction drops the slot's weak reference cannot free the block while the decrement is still
  running (`CellSpec.Release`).
- **The earlier snapshots** (`smart-ptrs/weak/shared.h`, `smart-ptrs/shared/shared.h`) have no
  self-observation. Their operations are the same members with a pointee whose slot is never
  wired: the raw-pointer constructor is `FromRaw` of a plain object, `MakeShared` is
  `MakeShared(false)`, and the copy and move assignments are the same members. For such a
  pointee `CellSpec.Release` and `CellSpec.ReleaseUnguarded` coincide.
  - Their `Reset()` and destructor are `Shared.SharedPtr.ReleasePlain`.
  - The earliest `ControlBlock::DecWeakRef`, which issues its own delete, is
    `Blocks.Block.DecWeakRefDeletingPtr`.
  - Promotion of a WeakPtr into a SharedPtr is `Weak.Promote`, with `BadWeakPtr` as a failure
    value instead of an exception.
- **UniquePtr** (`smart-ptrs/unique/unique.h`), both the primary template and the array
  specialisation, with the default deleters `Slug<T>` and `Slug<T[]>`.
  - Pointers are tokens, 0 standing for null.
  - Every deleter run is recorded in a `Heap` passed to the operations that may delete.
  - Module-level `Store` and `Apply` show that no program built from the operations deletes an
    allocation twice, or lets two UniquePtrs hold the same one.
- **IntrusivePtr** (`smart-ptrs/intrusive/intrusive.h`). The counter (`SimpleCounter`) is a
  value inside the counted object (`RefCounted`), which destroys itself when `DecRef` brings the
  count to 0. `Pool` and `Perform` show that the count always equals the number of pointers and
  that each object is destroyed exactly once, when its last pointer lets it go.

The counters are `int`/`size_t` in the source. They are unbounded here: overflow past the
type's maximum is not modelled, and decrements below zero are excluded by preconditions (see
"Left out").

## Model

| member | source | states |
|---|---|---|
| CellSpec.NewBlock | smart-ptrs/weak/sw_fwd.h:41-50 | a new block has both counters 0, an alive pointee exactly when it owns one, no wired slot and is not freed |
| CellSpec.AddStrong | smart-ptrs/weak/sw_fwd.h:7-9 | strong rises by exactly 1 and nothing else changes; the block stays coherent while its pointee is alive |
| CellSpec.AddWeak | smart-ptrs/weak/sw_fwd.h:15-17 | weak rises by exactly 1 and nothing else changes |
| CellSpec.DecWeak | smart-ptrs/weak/sw_fwd.h:60-62 | weak drops by exactly 1; the pointee is not destroyed and the block is not freed |
| CellSpec.WeakRelease | smart-ptrs/shared-from-this/weak.h:24-34 | releasing a weak reference lowers only weak, never touches strong or the pointee, and frees the block exactly when both counters are then 0 |
| CellSpec.Destroy | smart-ptrs/weak/sw_fwd.h:52-66 | destroying a pointee counts one destruction; a wired slot drops its weak reference, which frees the block when that was the last reference; when that frees a detached block, ~ControlBlock finds `ptr_` still set, the pointee is destroyed a second time, and its `weak_this_`, still holding the block, lowers weak to -1 without freeing again |
| CellSpec.DecStrong | smart-ptrs/weak/sw_fwd.h:52-58 | strong drops by 1; the pointee is destroyed exactly at the 1→0 step, once, or twice for a detached block that the slot frees during the decrement; that self-free happens only if the slot held the last weak reference; on a coherent block that keeps a weak reference besides the slot, nothing is freed and at most one destruction happens |
| CellSpec.Wire | smart-ptrs/shared-from-this/shared.h:288-296 | wiring the slot adds one weak reference and marks the slot, nothing else |
| CellSpec.Clear | smart-ptrs/shared-from-this/shared.h:189-195 | CLear frees the block exactly when both counters are 0 and changes nothing else |
| CellSpec.Release | smart-ptrs/shared-from-this/shared.h:227-238 | Reset lowers strong by 1 and leaves weak as it was (less the slot's reference when the pointee dies); the pointee is dead iff strong is 0; the block is freed iff both counters are 0; the block is never freed during the strong decrement |
| CellSpec.ReleaseUnguarded | smart-ptrs/shared-from-this/shared.h:166-175 | the release without the weak bump agrees with Reset's, except for the last owner of a self-observing pointee whose slot is the only weak reference |
| CellSpec.UnguardedReleaseFreesTwice | smart-ptrs/shared-from-this/shared.h:197-205 | for that last owner, the unguarded release frees the block twice, where Reset frees it once |
| CellSpec.UnguardedReleaseDestroysTwice | smart-ptrs/shared-from-this/shared.h:240-246 | for the last owner of a detached self-observing pointee, the unguarded release of `Reset(T*)` and the assignments destroys the pointee twice, frees the block once from inside the decrement and leaves its weak counter at -1, so CLear does not free it again; Reset destroys it once and frees it once |
| Blocks.Object.Destroy | smart-ptrs/shared-from-this/shared.h:50-56 | destroying a pointee counts one destruction and releases its slot's weak reference |
| Blocks.Block.ControlBlock | smart-ptrs/weak/sw_fwd.h:49-50 | a detached block for `p`, both counters 0, not yet adopted |
| Blocks.Block.WithStorage | smart-ptrs/weak/sw_fwd.h:77-80 | a fused block whose pointee is a fresh object in its own storage |
| Blocks.Block.GetPtr | smart-ptrs/weak/sw_fwd.h:82-84 | a fused block's pointer is always its own stored object |
| Blocks.Block.GetCount | smart-ptrs/weak/sw_fwd.h:23-25 | the strong counter, read without change |
| Blocks.Block.WeakCount | smart-ptrs/weak/sw_fwd.h:35-37 | the weak counter, read without change |
| Blocks.Block.IsEmpty | smart-ptrs/weak/sw_fwd.h:27-29 | holds iff strong is 0 |
| Blocks.Block.WholeEmpty | smart-ptrs/weak/sw_fwd.h:31-33 | holds iff both counters are 0 |
| Blocks.Block.AddStrongRef | smart-ptrs/weak/sw_fwd.h:7-9 | the block's new state is AddStrong of the old one |
| Blocks.Block.AddWeakRef | smart-ptrs/weak/sw_fwd.h:15-17 | the block's new state is AddWeak of the old one |
| Blocks.Block.DecWeakRef | smart-ptrs/weak/sw_fwd.h:95-97 | the block's new state is DecWeak of the old one; the pointee is left alone |
| Blocks.Block.DecStrongRef | smart-ptrs/weak/sw_fwd.h:88-93 | the block's new state is DecStrong of the old one (the detached form nulls its pointer, the fused one destroys in place) |
| Blocks.Block.DecWeakRefDeletingPtr | smart-ptrs/shared/shared.h:58-63 | the earliest DecWeakRef lowers weak and, although it issues a delete at 0/0, destroys no pointee a second time, because its pointer was nulled at strong 0 |
| Blocks.Block.DeletePtr | smart-ptrs/shared/shared.h:60-62 | deleting the stored pointer destroys the pointee once when it is not null, and does nothing otherwise |
| Blocks.Block.Delete | smart-ptrs/weak/sw_fwd.h:64-68 | deleting an empty block frees it once and never destroys the pointee again |
| Shared.SharedPtr.Empty | smart-ptrs/shared-from-this/shared.h:71-77 | both fields null |
| Shared.SharedPtr.FromRaw | smart-ptrs/shared-from-this/shared.h:79-93 | a fresh detached block with strong 1 and field = p, with the slot wired to it iff p is self-observing |
| Shared.SharedPtr.Copy | smart-ptrs/shared-from-this/shared.h:95-110 | adopts other's pair with strong +1, or stays empty with no count changed when other's field is null |
| Shared.SharedPtr.Move | smart-ptrs/shared-from-this/shared.h:112-127 | takes other's pair and empties other; no count changes |
| Shared.SharedPtr.Aliasing | smart-ptrs/shared-from-this/shared.h:143-147 | shares other's block with strong +1 but stores the given address |
| Shared.SharedPtr.AddStrongRef | smart-ptrs/shared-from-this/shared.h:129-133 | AddStrong on the held block, nothing without one |
| Shared.SharedPtr.DecStrongRef | smart-ptrs/shared-from-this/shared.h:135-139 | DecStrong on the held block, nothing without one |
| Shared.SharedPtr.CLear | smart-ptrs/shared-from-this/shared.h:189-195 | the block is freed iff both counters are 0, and the pointer ends empty |
| Shared.SharedPtr.Reset | smart-ptrs/shared-from-this/shared.h:227-238 | the pointer ends empty and the old block's new state is Release of its old one |
| Shared.SharedPtr.ReleasePlain | smart-ptrs/weak/shared.h:169-174 | the earlier snapshots' Reset and destructor: DecStrongRef then CLear, which equals Release whenever the slot does not hold the last weak reference |
| Shared.SharedPtr.CopyAssign | smart-ptrs/shared-from-this/shared.h:166-187 | no change for equal fields; otherwise the old block is released and the new one gains one strong reference, including when both are the same block |
| Shared.SharedPtr.MoveAssign | smart-ptrs/shared-from-this/shared.h:197-216 | takes other's pair, empties other, releases the old block, and leaves the moved block's counters unchanged |
| Shared.SharedPtr.ResetTo | smart-ptrs/shared-from-this/shared.h:240-255 | releases the old block, then holds a fresh detached block for p with strong 1 |
| Shared.SharedPtr.Swap | smart-ptrs/shared-from-this/shared.h:257-260 | both pairs exchanged, no count touched |
| Shared.SharedPtr.Get | smart-ptrs/shared-from-this/shared.h:265-267 | the stored address |
| Shared.SharedPtr.GetBlock | smart-ptrs/shared-from-this/shared.h:313-315 | the held block |
| Shared.SharedPtr.UseCount | smart-ptrs/shared-from-this/shared.h:277-282 | 0 without a block, the strong count otherwise; positive iff a block is held |
| Shared.SharedPtr.NonNull | smart-ptrs/shared-from-this/shared.h:284-286 | tests the field, not the block |
| Shared.SharedPtr.Helper | smart-ptrs/shared-from-this/shared.h:288-296 | wires the pointee's slot to this pointer's block, adding one weak reference |
| Shared.SharedPtr.Assign | smart-ptrs/shared-from-this/shared.h:298-303 | wires the slot iff the pointee is self-observing |
| Shared.SameOwner | smart-ptrs/shared-from-this/shared.h:325-328 | operator== holds iff both pointers hold the same block, whatever addresses they store |
| Shared.MakeShared | smart-ptrs/shared-from-this/shared.h:331-340 | a fresh fused block with strong 1, field = its stored object, the slot wired iff self-observing |
| Weak.WeakPtr.Empty | smart-ptrs/shared-from-this/weak.h:15 | both fields null |
| Weak.WeakPtr.AddWeakRef | smart-ptrs/shared-from-this/weak.h:17-22 | AddWeak on the held block, nothing without one |
| Weak.WeakPtr.DecWeakRef | smart-ptrs/shared-from-this/weak.h:24-34 | WeakRelease on the held block; the pair is cleared exactly when the block was freed |
| Weak.WeakPtr.Copy | smart-ptrs/shared-from-this/weak.h:36-40 | other's pair with weak +1 |
| Weak.WeakPtr.Move | smart-ptrs/shared-from-this/weak.h:42-47 | takes other's pair and empties other; no count changes |
| Weak.WeakPtr.FromShared | smart-ptrs/shared-from-this/weak.h:51-62 | the SharedPtr's pair with weak +1 and strong unchanged |
| Weak.WeakPtr.AssignShared | smart-ptrs/shared-from-this/weak.h:64-70 | releases the old weak reference, then adopts the SharedPtr's pair with weak +1 |
| Weak.WeakPtr.CopyAssign | smart-ptrs/shared-from-this/weak.h:75-81 | releases the old weak reference, then adopts other's pair with weak +1; self-assignment keeps everything unless it held the block's last reference, in which case the block is freed and the pointer ends empty |
| Weak.WeakPtr.MoveAssign | smart-ptrs/shared-from-this/weak.h:83-90 | releases the old weak reference, takes other's pair and empties other; self-move ends empty |
| Weak.WeakPtr.Reset | smart-ptrs/shared-from-this/weak.h:102-106 | WeakRelease on the held block, then both fields null |
| Weak.WeakPtr.Swap | smart-ptrs/shared-from-this/weak.h:108-110 | as written: exchanges the blocks only, each field stays where it was |
| Weak.WeakPtr.SwapPair | smart-ptrs/shared-from-this/weak.h:108-110 | corrected: exchanges both the blocks and the fields |
| Weak.WeakPtr.UseCount | smart-ptrs/shared-from-this/weak.h:115-120 | 0 without a block, the strong count otherwise |
| Weak.WeakPtr.Expired | smart-ptrs/shared-from-this/weak.h:122-127 | holds iff there is no block or strong is 0, that is, iff the pointee has been destroyed |
| Weak.WeakPtr.GetBlock | smart-ptrs/shared-from-this/weak.h:144-146 | the held block |
| Weak.WeakPtr.Lock | smart-ptrs/shared-from-this/weak.h:129-138 | an empty SharedPtr when expired, leaving a still-held block exactly as it was; otherwise one with the same pair, strong +1 and weak unchanged |
| Weak.LockView | smart-ptrs/shared-from-this/weak.h:129-138 | Lock on a given block and field, shared by the WeakPtr and the hidden slot: empty and the block untouched when strong is 0, otherwise the same pair with strong +1 |
| Weak.Promote | smart-ptrs/shared-from-this/shared.h:154-161 | BadWeakPtr iff expired, with nothing changed; otherwise a SharedPtr with the weak pointer's pair and strong +1 |
| Weak.SharedFromThis | smart-ptrs/shared-from-this/shared.h:17-19 | the slot's Lock: a SharedPtr on the pointee's own block with strong +1, empty when the slot was never wired |
| Weak.WeakFromThis | smart-ptrs/shared-from-this/shared.h:25-27 | a copy of the slot with weak +1 |
| Weak.SwapSplitsPairs | smart-ptrs/shared-from-this/weak.h:108-110 | after Swap of two live WeakPtrs, each holds a block that does not own the object it points at |
| Weak.SwapPairKeepsPairs | smart-ptrs/shared-from-this/weak.h:108-110 | after the corrected swap, each WeakPtr's field is the object owned by its block |
| Ownership.Created | smart-ptrs/shared-from-this/shared.h:79-86 | a new block has one owner, an alive pointee iff it has one, and one weak reference iff its slot is wired |
| Ownership.AssignedDropBreaksAccount | smart-ptrs/shared-from-this/shared.h:166-216 | in an accounted world, the as-written assignment release of the only owner of a self-observing pointee without WeakPtrs frees a fused block twice, destroys a detached pointee twice and leaves that block's weak counter at -1, and leaves the world unaccounted for |
| Ownership.LoneSelfObservingReachable | smart-ptrs/shared-from-this/shared.h:331-340 | MakeShared or SharedPtr(T*) of a self-observing pointee produces exactly such a world |
| Ownership.StepPreserves | smart-ptrs/shared-from-this/shared.h:95-238 | every operation keeps every block's counters equal to the pointers holding it (plus the slot), its pointee alive iff strong is positive, and it freed iff both counters are 0 |
| Ownership.RunAccounted | smart-ptrs/shared-from-this/shared.h:220-238 | after any program from no pointers whose SharedPtrs all let go the way `Reset()` does, no counter is negative, each pointee is destroyed at most once and exactly when strong reaches 0, and each block is freed at most once and exactly when both counters are 0 |
| Ownership.UseCountIsOwners | smart-ptrs/shared-from-this/shared.h:277-282 | UseCount equals the number of live SharedPtrs on the block |
| Ownership.SharingCounts | smart-ptrs/shared-from-this/shared.h:166-216 | two live SharedPtrs on one block hold two strong references, and two WeakPtrs two weak references besides the slot |
| Ownership.HeldIsAllocated | smart-ptrs/shared-from-this/weak.h:122-138 | no live pointer refers to a freed block, and a block with a live SharedPtr has an alive pointee |
| Ownership.LastOwnerDestroys | smart-ptrs/weak/sw_fwd.h:52-58 | dropping the last SharedPtr destroys the pointee once, and the block survives iff WeakPtrs remain |
| Ownership.LockAddsOneOwner | smart-ptrs/shared-from-this/weak.h:129-138 | promoting a live WeakPtr adds exactly one owner; promoting an expired one changes nothing |
| Ownership.EndToEnd | smart-ptrs/shared-from-this/shared.h:227-238 | MakeShared, copy, demote, reset one owner: one owner remains and the pointee is alive; reset the other: the pointee is destroyed and the block waits for the WeakPtr |
| Ownership.MadeAndCopied | smart-ptrs/shared-from-this/shared.h:331-340 | MakeShared then a copy: one block with two strong references and no weak reference besides the slot |
| Ownership.DemotedAndReleased | smart-ptrs/shared-from-this/shared.h:227-238 | a WeakPtr made from a SharedPtr and one of two owners reset: one owner and one more observer remain, the pointee still alive |
| Unique.DefaultOf | smart-ptrs/unique/unique.h:7-18 | a default-constructed deleter of the same kind, with default state |
| Unique.FormOf | smart-ptrs/unique/unique.h:20-40 | Slug deletes with `delete`, Slug<T[]> with `delete[]`, a user deleter with its own call |
| Unique.Deletion | smart-ptrs/unique/unique.h:91-97 | one deleter call on the old pointer iff it was not null |
| Unique.Heap.Invoke | smart-ptrs/unique/unique.h:94-96 | one deleter call appended to the record |
| Unique.UniquePtr.constructor | smart-ptrs/unique/unique.h:52-53 | holds p with the default deleter; null by default |
| Unique.UniquePtr.WithDeleter | smart-ptrs/unique/unique.h:55-57 | holds p with the given deleter |
| Unique.UniquePtr.Move | smart-ptrs/unique/unique.h:59-69 | takes other's pointer and deleter and leaves other null; the primary template resets other's deleter, the array one (lines 180-188) keeps it; a null source is left as it is |
| Unique.UniquePtr.CorrectDelete | smart-ptrs/unique/unique.h:91-97 | the pointer is null before the deleter runs, and the deleter runs exactly once iff the old pointer was not null |
| Unique.UniquePtr.AssignNull | smart-ptrs/unique/unique.h:99-103 | ends null after deleting the old pointer iff it was not null |
| Unique.UniquePtr.MoveAssign | smart-ptrs/unique/unique.h:78-89 | nothing when both hold the same pointer; otherwise the old pointer is deleted once, the pair moves over, and other ends null with a default deleter |
| Unique.UniquePtr.Release | smart-ptrs/unique/unique.h:115-119 | returns the held pointer, leaves null and calls no deleter |
| Unique.UniquePtr.Reset | smart-ptrs/unique/unique.h:121-127 | stores p first, then deletes the previous pointer once iff it was not null |
| Unique.UniquePtr.Swap | smart-ptrs/unique/unique.h:129-132 | both pointers and both deleters exchanged, no deleter runs |
| Unique.UniquePtr.Get | smart-ptrs/unique/unique.h:137-139 | the held pointer |
| Unique.UniquePtr.GetDeleter | smart-ptrs/unique/unique.h:141-147 | the held deleter |
| Unique.UniquePtr.NonNull | smart-ptrs/unique/unique.h:149-151 | holds iff the pointer is not null |
| Unique.ApplyPreserves | smart-ptrs/unique/unique.h:59-132 | every operation keeps each allocation with one owner and deletes nothing twice |
| Unique.NeverDeletedTwice | smart-ptrs/unique/unique.h:71-73 | with copying deleted, any program deletes each allocation at most once and never lets two UniquePtrs hold the same one |
| Intrusive.SimpleCounter.IncRef | smart-ptrs/intrusive/intrusive.h:8-11 | the count rises by exactly 1 |
| Intrusive.SimpleCounter.DecRef | smart-ptrs/intrusive/intrusive.h:13-16 | the count drops by exactly 1 |
| Intrusive.SimpleCounter.RefCount | smart-ptrs/intrusive/intrusive.h:18-20 | the count |
| Intrusive.NewCounter | smart-ptrs/intrusive/intrusive.h:22-31 | a fresh counter is 0 |
| Intrusive.CopiedCounter | smart-ptrs/intrusive/intrusive.h:24 | a copied counter is 0 whatever it was copied from |
| Intrusive.AssignedCounter | smart-ptrs/intrusive/intrusive.h:26-28 | copy assignment keeps the target's count |
| Intrusive.Inc | smart-ptrs/intrusive/intrusive.h:45-47 | IncRef raises the count by 1 and never destroys |
| Intrusive.Dec | smart-ptrs/intrusive/intrusive.h:51-56 | DecRef lowers the count by 1 and destroys exactly when it reaches 0 |
| Intrusive.RefCounted.constructor | smart-ptrs/intrusive/intrusive.h:63-64 | a new object has count 0 and is alive |
| Intrusive.RefCounted.IncRef | smart-ptrs/intrusive/intrusive.h:45-47 | the object's new state is Inc of its old one |
| Intrusive.RefCounted.DecRef | smart-ptrs/intrusive/intrusive.h:51-56 | the object's new state is Dec of its old one |
| Intrusive.RefCounted.RefCount | smart-ptrs/intrusive/intrusive.h:59-61 | the count |
| Intrusive.IntrusivePtr.Empty | smart-ptrs/intrusive/intrusive.h:77-80 | null |
| Intrusive.IntrusivePtr.FromRaw | smart-ptrs/intrusive/intrusive.h:82-84 | holds p, whose count rises by 1 when p is not null |
| Intrusive.IntrusivePtr.IncHeld | smart-ptrs/intrusive/intrusive.h:86-90 | Inc on the held object, nothing for null |
| Intrusive.IntrusivePtr.DecHeld | smart-ptrs/intrusive/intrusive.h:92-97 | Dec on the held object, then null |
| Intrusive.IntrusivePtr.Copy | smart-ptrs/intrusive/intrusive.h:115-120 | holds other's object with its count +1, or is null when other is null |
| Intrusive.IntrusivePtr.Move | smart-ptrs/intrusive/intrusive.h:122-127 | takes other's object, leaves other null, count unchanged |
| Intrusive.IntrusivePtr.CopyAssign | smart-ptrs/intrusive/intrusive.h:130-138 | no change for the same object; otherwise the old object's count drops (destroying it at 0) before the new one's rises |
| Intrusive.IntrusivePtr.MoveAssign | smart-ptrs/intrusive/intrusive.h:140-148 | no change for the same object; otherwise the old object's count drops, the pointer moves over and other ends null |
| Intrusive.IntrusivePtr.Reset | smart-ptrs/intrusive/intrusive.h:151-158 | Reset and the destructor: the held object's count drops and the pointer ends null |
| Intrusive.IntrusivePtr.ResetTo | smart-ptrs/intrusive/intrusive.h:160-164 | the old object's count drops, then p's rises and p is held |
| Intrusive.IntrusivePtr.Swap | smart-ptrs/intrusive/intrusive.h:166-168 | the pointers are exchanged, no count changes |
| Intrusive.IntrusivePtr.Get | smart-ptrs/intrusive/intrusive.h:171-173 | the held object |
| Intrusive.IntrusivePtr.UseCount | smart-ptrs/intrusive/intrusive.h:183-188 | 0 for null, the count otherwise; positive iff an object is held |
| Intrusive.IntrusivePtr.NonNull | smart-ptrs/intrusive/intrusive.h:190-192 | holds iff an object is held |
| Intrusive.MakeIntrusive | smart-ptrs/intrusive/intrusive.h:198-201 | a fresh object with count 1 held by one pointer |
| Intrusive.PerformPreserves | smart-ptrs/intrusive/intrusive.h:86-97 | every operation keeps each object's count equal to its pointers, and each object destroyed exactly when its count is 0 |
| Intrusive.DropDestroysAtLast | smart-ptrs/intrusive/intrusive.h:51-56 | dropping a pointer destroys its object iff it was the last one, and never twice |

## Left out

- Dereference (`operator*`, `operator->`) and array indexing (`operator[]`) are unchecked memory reads with no effect on ownership.
- `compressed_pair.h` is storage layout only; a UniquePtr is modelled as a plain (pointer, deleter) pair.
- The template and type machinery (conversions between `U*` and `T*`, `const T` variants, the `is_convertible_v` / `is_const_v` dispatch) is replaced by one pointee class with a `selfObserving` flag.
- The `const` overloads of `SharedFromThis` and `WeakFromThis` read `const_weak_this_`, which no code ever wires, so they are not modelled.
- Raw memory (placement new, `aligned_storage`, `delete`, `delete[]`) becomes the counters `destroyCount` and `frees` and the deleter record `Unique.Heap`.
- `BadWeakPtr` is a failure value of `Weak.Promote` instead of an exception.
- The empty promotion constructor, the bodiless `operator==` and the bodiless `EnableSharedFromThis` of the earlier snapshots are stubs and are not modelled.
- Concurrency: the counters are plain integers with no atomics, and the model is sequential.
- Integer width: `int` and `size_t` counters are unbounded integers. Decrementing below zero is excluded by precondition, and overflow past the type's maximum is not modelled.
- Shared.SharedPtr.MoveAssign: self-move-assignment has no self check in the source and is excluded by `this != other`.
- Shared.SharedPtr.CopyAssign: two distinct SharedPtrs on one block must hold two strong references, as `Ownership.SharingCounts` proves of every program; the class alone does not track who holds a block.
- Weak.WeakPtr.CopyAssign: likewise for two distinct WeakPtrs on one block.
- Unique.UniquePtr.Reset: resetting to the pointer already held is excluded; the source would delete the object it keeps.
- Intrusive.IntrusivePtr.ResetTo: resetting to the object already held is excluded; its last reference would destroy it before the new increment.
- Shared.SharedPtr.FromRaw: a null pointer whose static type derives from `EnableSharedFromThis` makes `Helper` dereference null; objects here carry no static type, so a null pointer always builds an ordinary empty block with no slot, and the world's `FromRawOp(false, true)` does the same.
- Ownership.StepPreserves, Ownership.RunAccounted: the world's `DropShared` is the release of the destructor and `Reset()`; the assignments and `Reset(T*)` are taken to release the same way, so these hold of the corrected assignments only (the as-written release is `Ownership.AssignedDrop`).
- Shared.SharedPtr.CopyAssign, Shared.SharedPtr.MoveAssign, Shared.SharedPtr.ResetTo: these release the old block through `Reset()` (the corrected release, see Findings), not through the unguarded `DecStrongRef(); CLear();` the source writes.
- What a deleter does to memory is not modelled: a UniquePtr deleter run is recorded as a call, and IntrusivePtr's `Deleter::Destroy` is counted in `destroyCount`.

Two behaviours of the code worth knowing:

- Intrusive copy assignment returns early for the same object and otherwise decrements the old
  object before incrementing the new one.
- `SharedFromThis` on a pointee that no SharedPtr ever owned returns an empty SharedPtr, the
  `Lock()` of a slot that was never wired.

## Findings

| source | as written | input that shows it | evidently intended | confidence | as-written member | corrected member |
|---|---|---|---|---|---|---|
| smart-ptrs/shared-from-this/shared.h:166-216 | copy assignment, move assignment and `Reset(T*)` release the old block with `DecStrongRef(); CLear();`, without the weak bump that `Reset()` puts around the decrement | `MakeShared` of a type deriving from `EnableSharedFromThis`, then assigning another pointer to that only SharedPtr: the pointee's destruction drops `weak_this_`, the last weak reference, so the WeakPtr destructor deletes the block; `CLear` then reads the freed block and deletes it again. With `SharedPtr<S> a(new S); a = SharedPtr<S>();` instead (a detached block), the block is freed once inside the decrement, `~ControlBlock` finds `ptr_` still set and destroys the pointee a second time, and that second `weak_this_` lowers the freed block's weak counter to -1 | release the old block as `Reset()` does, raising weak around the decrement | not executed | CellSpec.UnguardedReleaseFreesTwice | CellSpec.Release |
| smart-ptrs/shared-from-this/shared.h:240-246 | `Reset(T*)` releases the old block with `DecStrongRef(); CLear();`, as the assignments do | `SharedPtr<S> a(new S); a.Reset(new S);` with S deriving from `EnableSharedFromThis`: the first pointee's `weak_this_` deletes the detached block, `~ControlBlock` deletes the pointee again, whose `weak_this_` still holds the block and lowers its weak counter to -1; `CLear` then reads the freed block | release the old block as `Reset()` does | not executed | CellSpec.UnguardedReleaseDestroysTwice | CellSpec.Release |
| smart-ptrs/shared-from-this/weak.h:108-110 | `Swap` exchanges `block_` only | two WeakPtrs on two live objects, swapped: each now holds the other's block with its own object pointer, so `Lock()` returns a SharedPtr to one object owned by the other's block | exchange `field_` as well, as `SharedPtr::Swap` does | not executed | Weak.SwapSplitsPairs | Weak.WeakPtr.SwapPair |
