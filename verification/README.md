# Reference counting of `shared_ptr_wrapper` and `weak_ptr_wrapper`, in Dafny

This project models the reference-counting engine of a small C++ smart-pointer
library (`shared_ptr.h`). The library has three parts:

- a count block `ref_counter` holding a shared count and a weak count;
- a strong handle `shared_ptr_wrapper`, which owns its target;
- a weak handle `weak_ptr_wrapper`, which only observes the target.

A handle is the pair (`obj_ptr`, `ref_cntr`). Here it is the datatype
`Memory.Handle(target, block, strategy)`. The target is an address (0 is
`nullptr`) and the block is `Option<BlockId>`. The strategy is the deletion
policy, `PTR_STRATEGY` or `ARRAY_STRATEGY`. The heap (`Memory.Heap`) holds:

- a map from block id to `Counter(shared, weak)` for the blocks not yet deleted;
- the allocator's next id;
- a log of every `dispose` call.

Every operation is a pure function. It maps the heap and the handles it touches
to a new heap and new handles. The `logic_error` thrown by `dec_shared` and
`dec_weak` becomes `Failure`. Dereferencing a null or deleted `ref_cntr` is
undefined behaviour in C++, so it becomes a precondition.

Modules:

- `RefCounter`: the count block.
- `Memory`: the heap, handles and the allocator.
- `Shared`: strong handles.
- `Weak`: weak handles.
- `Factory`: `make_shared` and `make_shared_array`.
- `Ownership`: a whole program's handles, one slot per handle object. A slot's
  index is the object's identity.
- `Invariants`: the invariant `Consistent` and its preservation. `Consistent`
  means:
  - every count equals the number of handles pointing at the block;
  - no handle points at a deleted block;
  - no block outlives its handles;
  - every block is disposed exactly once, after its last strong handle let go,
    and no block is disposed while it has an owner. This counts disposals per
    block; `Coherence` says whose target each one deletes.

  The main theorem is `Invariants.StepPreserves`. From a consistent world, every
  operation whose C++ preconditions hold completes without a `logic_error`, and
  the world stays consistent. Four operations take part in their corrected
  forms, because as written they break consistency:
  - `make_shared` and `make_shared_array` (`Factory.MakeSharedFixed`);
  - weak copy assignment (`Weak.CopyAssign`);
  - the weak release with a null guard (`Weak.Release`);
  - promotion from a weak handle with an expiry check (`Weak.Promote`).

  The as-written forms are modelled beside them, each with a lemma showing how
  it breaks consistency.
- `Coherence`: the invariant `Coherent`. All handles on one block hold the same
  target with the same strategy, and every disposal of a block deletes that
  target with that strategy. `Coherence.StepCoherent` shows that every enabled
  operation keeps it in a consistent world, since a handle only ever receives a
  pair some handle already held, or a block that did not exist before. So in a
  consistent, coherent world the one disposal of an expired handle's block
  deleted that handle's own target (`Coherence.OwnTargetDisposedOnce`).
- `Findings`: defects in the code, each shown against the invariant.
- `Scenarios`: the behaviours the test suite checks, stated for all inputs.
  - The scenarios around `make_shared` are stated on the heap with the factory
    as written: `CopyReportsSameCount`, `CopiesDisposeOnce` and
    `DefaultThenAssigned`.
  - The others are stated for every consistent world: `AssignLeavesOtherUnique`,
    `WeakReportsSharedCount`, `LastOwnerGoneExpires` and `LockIsNotUnique`. Their
    handles therefore come from the single-block factory. The block that the
    factory as written leaves behind has no handle pointing at it, and none of
    these lemmas reads its counts.

The model follows the code, including where it departs from what a smart pointer
conventionally does:

- Default and `nullptr` construction allocate a block. Such a handle reports
  `use_count() == 1` and converts to `false`. Only moved-from and released
  handles have a null block.
- A strong copy, a weak handle built from a strong one, and a weak copy all
  dereference the source's block. Each requires a non-null source block, rather
  than producing an empty handle from an empty source.
- Promotion from an expired weak handle resurrects the count instead of failing.
  The weak release has no null guard. The factories leak a block. Each of these
  is modelled as written and corrected (see "## Findings").

Members without a row of their own are characterised by the lemmas about them:
- `Shared.Get`, `Shared.Eq`, `Shared.Ne`, `Shared.Lt`, `Shared.Gt`, `Shared.Le`
  and `Shared.Ge` (shared_ptr.h:236-238, 265-293): `Shared.ComparisonsAgree`.
- `Shared.EqNull`, `Shared.NeNull` and `Shared.ToBool` (shared_ptr.h:260-262,
  296-314): `Shared.NullComparisons`.
- `Shared.UseCount` and `Shared.Unique` (shared_ptr.h:248-258, and the weak
  `use_count` at 406-412): `Invariants.UseCountZeroIffNull`, `Weak.Expired`,
  `Shared.Default` and `Shared.Copy`.
- `RefCounter.HasRefs` (shared_ptr.h:57-59): `RefCounter.LastReference`.
- The `Ownership` slot operations each have a preservation lemma in
  `Invariants`. `NewStrong` and `MakeStrong` go with `NewStrongPreserves` and
  `MakeStrongPreserves`. `CopyStrong`, `MoveStrong` and `ReleaseStrong` go with
  `CopyStrongPreserves`, `MoveStrongPreserves` and `ReleaseStrongPreserves`.
  The same pattern covers `CopyAssignStrong`, `MoveAssignStrong`,
  `ResetStrongTo`, `SwapStrong`, `NewWeak`, `WeakFromStrong`, `CopyWeak`,
  `CopyAssignWeak`, `ReleaseWeak`, `SwapWeak`, `LockWeak` and `PromoteWeak`.
  Each also has a lemma in `Coherence` (`NewStrongCoherent` and so on) that
  `Coherence.StepCoherent` gathers.

## Model

| member | source | states |
|---|---|---|
| RefCounter.Fresh | shared_ptr.h:20-23 | a new block counts one strong handle and no weak handle, so it has references |
| RefCounter.IncShared | shared_ptr.h:25-27 | the shared count rises by one, the weak count is kept, and the block then has references |
| RefCounter.DecShared | shared_ptr.h:29-35 | throws `logic_error` exactly when the shared count is 0; otherwise lowers it by exactly one and keeps the weak count |
| RefCounter.IncWeak | shared_ptr.h:37-39 | the weak count rises by one and the shared count is kept |
| RefCounter.DecWeak | shared_ptr.h:41-47 | throws `logic_error` exactly when the weak count is 0; otherwise lowers it by exactly one and keeps the shared count |
| RefCounter.IncDecInverse | shared_ptr.h:25-47 | each decrement undoes the matching increment, and the other way round |
| RefCounter.LastReference | shared_ptr.h:57-59 | a decrement leaves no references exactly when the block held (1, 0) or (0, 1) |
| Memory.NewBlock | shared_ptr.h:99 | `new ref_counter()` returns an id not in use, with counts (1, 0), and changes no other block |
| Shared.Release | shared_ptr.h:70-86 | no-op on a null block. Otherwise it throws iff shared is 0, else lowers shared by one, disposes the target iff shared reaches 0, deletes the block iff no reference is left, changes no other block, and nulls the handle |
| Shared.Adopt | shared_ptr.h:98-101 | `set_ptr` binds the target to a block that did not exist before, with counts (1, 0) |
| Shared.Default | shared_ptr.h:113-119 | a default or `nullptr` handle has a block, `use_count() == 1` and `unique()`, yet converts to false and equals `nullptr`; the block is the allocator's next id and the handle keeps the requested strategy; the heap gains exactly that block at (1, 0) and nothing else changes |
| Shared.Copy | shared_ptr.h:126-131 | a copy has the same pair and raises shared by exactly one; both copies report the new count |
| Shared.Move | shared_ptr.h:133-138 | the pair moves to the new handle and the source ends null |
| Shared.CopyAssign | shared_ptr.h:140-149 | throws iff the old binding's shared count is 0. Otherwise the heap is the destination's release followed by a copy of the source: the destination takes the source's pair and the source's count rises by one. Between handles of one block nothing changes |
| Shared.MoveAssign | shared_ptr.h:151-160 | the counters change exactly as in the destination's release; the destination takes the source's pair and the source ends null |
| Shared.ResetTo | shared_ptr.h:225-229 | throws iff the old binding's shared count is 0. Otherwise the result is `set_ptr` applied after the handle's release: the unique owner of the new pointer through a new block |
| Shared.FromWeak | shared_ptr.h:162-167 | the handle takes the weak handle's pair and raises shared by one even when it was 0, becoming its unique owner; nothing else in the heap changes |
| Shared.ComparisonsAgree | shared_ptr.h:265-293 | `==` is equality of `get()` and `!=` its negation; exactly one of `<`, `==`, `>` holds; `<=` and `>=` agree with them |
| Shared.NullComparisons | shared_ptr.h:296-314 | comparing with `nullptr` is the negated `bool` conversion, the same as comparing with a null handle |
| Weak.ReleaseAsWritten | shared_ptr.h:322-330 | for a non-null block: throws iff weak is 0. Otherwise lowers weak by one, never disposes, deletes the block iff no reference is left, and nulls the handle |
| Weak.Release | shared_ptr.h:393-399 | the release with a null guard: a no-op on a null block, otherwise as written |
| Weak.DefaultWeakRelease | shared_ptr.h:341-344 | a default weak handle falls outside the as-written release; the guarded release leaves the heap alone |
| Weak.FromStrong | shared_ptr.h:346-351 | same pair, weak raised by one, shared unchanged; the weak handle's `use_count` reports the shared count |
| Weak.Copy | shared_ptr.h:353-358 | same pair, weak raised by one, expiry unchanged |
| Weak.CopyAssignAsWritten | shared_ptr.h:360-367 | the destination takes the source's pair, and only the source's weak count rises. The destination's old block keeps its counts, and nothing else in the heap changes |
| Weak.CopyAssign | shared_ptr.h:360-367 | corrected assignment. It throws only when a different old block's weak count is 0. Otherwise it binds the source and raises the source block's weak count by one. It lowers the old block's weak count by one and deletes that block iff no reference is left. Every other block, the allocator and the disposal log are unchanged. Self-assignment changes nothing |
| Weak.Expired | shared_ptr.h:414-420 | `expired()` holds exactly when `use_count()` is 0 |
| Weak.Lock | shared_ptr.h:422-428 | on an expired handle: a handle to no target, with the weak handle's strategy, through a fresh (1, 0) block that is the allocator's next id, and nothing else changes. Otherwise: the same pair, only shared raised by one, and not `unique()` |
| Weak.Promote | shared_ptr.h:162-167 | corrected promotion: an expired handle yields the empty handle and the heap is unchanged; a live one gains an owner, only its shared count rising by one |
| Factory.MakeAsWritten | shared_ptr.h:463-483 | the result is the unique owner of `obj` through a fresh block (1, 0). The default handle's block stays allocated with counts (1, 0) |
| Factory.MakeShared | shared_ptr.h:463-472 | a `PTR_STRATEGY` owner of the new object with `use_count() == 1`. Exactly two (1, 0) blocks are added: the default handle's and the result's. Nothing else changes |
| Factory.MakeSharedArray | shared_ptr.h:474-483 | an `ARRAY_STRATEGY` owner of the new array with `use_count() == 1`. Exactly two (1, 0) blocks are added: the default handle's and the result's. Nothing else changes |
| Factory.MakeSharedFixed | shared_ptr.h:463-472 | the factory with exactly one new (1, 0) block, which is the result's and the allocator's next id; nothing else in the heap changes |
| Invariants.NewStrongPreserves | shared_ptr.h:113-124 | construction keeps the world consistent and adds a unique owner of the pointer |
| Invariants.MakeStrongPreserves | shared_ptr.h:463-483 | the single-block factory keeps the world consistent and adds a unique owner |
| Invariants.CopyStrongPreserves | shared_ptr.h:126-131 | a copy keeps the world consistent, has the source's pair, and raises `use_count()` by one |
| Invariants.MoveStrongPreserves | shared_ptr.h:133-138 | a move changes no counter, relocates the pair, and leaves the source with `use_count() == 0` |
| Invariants.ReleaseStrongPreserves | shared_ptr.h:217-223 | destruction and `reset()` never throw in a consistent world; only the released slot changes, and it ends null |
| Invariants.CopyAssignStrongPreserves | shared_ptr.h:140-149 | copy assignment between distinct objects never throws and keeps the world consistent |
| Invariants.MoveAssignStrongPreserves | shared_ptr.h:151-160 | move assignment, self-assignment included, never throws; the destination takes the pair and the source ends null |
| Invariants.ResetStrongToPreserves | shared_ptr.h:225-229 | `reset(ptr)` never throws and makes the handle the unique owner of `ptr` |
| Invariants.SwapStrongPreserves | shared_ptr.h:231-234 | `swap` exchanges the pairs and changes no counter |
| Invariants.NewWeakPreserves | shared_ptr.h:341-344 | a default weak handle keeps the world consistent and is expired |
| Invariants.WeakFromStrongPreserves | shared_ptr.h:346-351 | a weak handle from a strong one is not expired and reports the strong handle's count |
| Invariants.CopyWeakPreserves | shared_ptr.h:353-358 | a weak copy keeps the world consistent and has the source's pair |
| Invariants.CopyAssignWeakPreserves | shared_ptr.h:360-367 | the corrected weak assignment never throws, disposes nothing and keeps the world consistent |
| Invariants.ReleaseWeakPreserves | shared_ptr.h:393-399 | the guarded weak release never throws, disposes nothing, and nulls only its own slot |
| Invariants.SwapWeakPreserves | shared_ptr.h:401-404 | weak `swap` exchanges the pairs and changes no counter |
| Invariants.LockWeakPreserves | shared_ptr.h:422-428 | `lock()` keeps the world consistent and yields the weak pair when not expired, a null target otherwise |
| Invariants.PromoteWeakPreserves | shared_ptr.h:162-167 | guarded promotion keeps the world consistent: an empty handle when expired, the weak pair otherwise |
| Invariants.StepPreserves | shared_ptr.h:63-429 | every handle operation whose C++ preconditions hold keeps a consistent world consistent and never throws, with `make_shared`, weak assignment, weak release and promotion in their corrected forms |
| Invariants.Run | shared_ptr.h:63-429 | any sequence of such operations, with the same four operations corrected, from a consistent world ends in a consistent world |
| Invariants.UseCountZeroIffNull | shared_ptr.h:248-254 | in a consistent world, `use_count()` is 0 exactly when the handle's block pointer is null |
| Invariants.ExpiredIffNoOwner | shared_ptr.h:414-420 | a bound weak handle is expired exactly when no strong handle points at its block |
| Invariants.DisposedAtMostOnce | shared_ptr.h:77-79 | no block's target is disposed twice, and none while its block has an owner |
| Coherence.StepCoherent | shared_ptr.h:63-429 | every handle operation whose C++ preconditions hold, from a consistent world whose handles on one block agree on target and strategy and whose disposals match them, succeeds and keeps that agreement; the same four operations are in their corrected forms |
| Coherence.RunCoherent | shared_ptr.h:63-429 | any sequence of such operations from a consistent, coherent world ends coherent |
| Coherence.ReleaseStrongCoherent | shared_ptr.h:70-86 | releasing a strong handle disposes, if anything, that handle's own target with its own strategy, so the world stays coherent |
| Coherence.OwnTargetDisposedOnce | shared_ptr.h:77-79 | in a consistent, coherent world, the block of a bound expired weak handle was disposed exactly once, and that disposal deleted the handle's own target with its own strategy |
| Invariants.AllocatedIffReferenced | shared_ptr.h:81-83 | a block is allocated exactly when some strong or weak handle points at it |
| Findings.PromoteExpiredDisposesTwice | shared_ptr.h:162-167 | promoting an expired weak handle as written, then releasing the result, disposes the target a second time |
| Findings.OutlivedIsExpired | tests.cpp:175-183 | a weak handle that outlives its only strong handle is reachable, bound and expired |
| Findings.WeakAssignAsWrittenLeaks | shared_ptr.h:360-367 | weak assignment as written leaves the old block with one weak count no handle holds, breaking consistency |
| Findings.MakeSharedAsWrittenLeaks | shared_ptr.h:463-483 | the factories as written leave a block with shared count 1 that no handle points at |
| Findings.DefaultWeakDestroyed | shared_ptr.h:393-395 | a default weak handle is destroyed by the guarded release without touching the heap |
| Scenarios.CopyReportsSameCount | tests.cpp:21-26 | the result of `make_shared` as written and its copy both report `use_count() == 2` and compare equal; the default handle's block is still allocated |
| Scenarios.AssignLeavesOtherUnique | tests.cpp:54-61 | moving a new handle into one of two copies leaves the other `unique()` |
| Scenarios.WeakReportsSharedCount | tests.cpp:155-160 | a weak handle from a unique owner reports `use_count() == 1`, like the owner |
| Scenarios.LastOwnerGoneExpires | tests.cpp:175-183 | releasing the last owner expires the weak handle, and `lock()` then yields a false handle |
| Scenarios.LockIsNotUnique | tests.cpp:185-189 | `lock()` on a live weak handle yields an equal, non-unique owner |
| Scenarios.CopiesDisposeOnce | tests.cpp:122-132 | the result of `make_shared` as written and its copy, both released, dispose the target exactly once with `delete` and delete the result's block; the default handle's block stays at (1, 0) |
| Scenarios.DefaultThenAssigned | tests.cpp:93-98 | a default handle converts to false; after the result of `make_shared` as written is moved into it, it converts to true, owns the new target alone, and the moved-from handle converts to false |

## Left out

- Memory is not modelled. The `delete`/`delete[]` of `PTR_STRATEGY` and `ARRAY_STRATEGY` (shared_ptr.h:432-447) becomes a `Disposal` record with a strategy tag. Deleting a `ref_counter` removes its id from the heap.
- Object destructors and the live-object counter of the tests are not modelled. "Disposed exactly once" is stated per block instead.
- A throw from `new T` inside the factories is not modelled. The counter allocated just before it would leak.
- `new ref_counter()` (shared_ptr.h:99, 467, 478) never fails in the model: `Memory.NewBlock` always succeeds. A `bad_alloc` thrown from `set_ptr` in `reset(ptr)` (shared_ptr.h:227-228) would come after the release and leak `ptr`, and this is not modelled.
- Invariants.StepPreserves: covers `make_shared`/`make_shared_array`, weak copy assignment, weak release and promotion only in their corrected forms. As written, the first two break consistency (`Findings.MakeSharedAsWrittenLeaks`, `Findings.WeakAssignAsWrittenLeaks`). The last two dereference null or dispose twice (`Weak.DefaultWeakRelease`, `Findings.PromoteExpiredDisposesTwice`). So no invariant is claimed for a program that uses them as written.
- Invariants.Run: the same restriction as `Invariants.StepPreserves`, since it runs the same operations.
- Invariants.DisposedAtMostOnce: counts disposals per block; which target each disposal deletes is stated by `Coherence.OwnTargetDisposedOnce`, for worlds that start coherent. Two handles adopting the same raw address through two blocks, which is the caller's error in C++, dispose that address twice. Every default handle's block also disposes the null target when it is released, as `delete nullptr` does.
- Template conversions between payload types and strategies (shared_ptr.h:169-215, 369-391) are collapsed into one handle type. Assignments and swaps require equal strategies, which the C++ types enforce. The templated weak assignment's missing `return` is therefore outside the model.
- `operator*` and `operator->` (shared_ptr.h:240-246) dereference the target, which is an abstract address here.
- Raw pointers are ordered as integers. C++ leaves `<` between unrelated pointers unspecified.
- `operator<<` (shared_ptr.h:485-489) is stream output.
- `reset_ref_counter` (shared_ptr.h:93-96) is inlined into `Factory.MakeAsWritten`.
- `shared_ptr.cpp` is a demo `main` with output only. tests.cpp serves only as evidence for `Scenarios`.
- The destructors (shared_ptr.h:217-219, 393-395) are implicitly `noexcept`, so a `logic_error` from `dec_shared` or `dec_weak` there would call `std::terminate`. The model does not tell a destructor from `reset()`: `Ownership.ReleaseStrong` and `Ownership.ReleaseWeak` report either as `Failure`. `Invariants.ReleaseStrongPreserves` and `Invariants.ReleaseWeakPreserves` show that neither fails in a consistent world.
- There is no concurrency: the counters are plain `long`s.
- RefCounter.IncShared: does not model overflow of the `long` counters, which would need 2^63 live handles.
- RefCounter.IncWeak: does not model overflow of the `long` counters, for the same reason.
- Strong swap and weak swap exist only on slots (`Ownership.SwapStrong`, `Ownership.SwapWeak`), because `std::swap` of two pointers has no heap effect.
- The weak handle has no move constructor, so moving one copies it. This is `Ownership.CopyWeak`.
- Self copy-assignment of a strong handle is undefined, because `reset()` nulls the source before it is read. `Ownership.CopyAssignStrong` requires distinct slots.
- Handle-level functions on values cannot see object identity. `Shared.CopyAssign` instead requires that a block shared by the destination and the source counts both of them.

## Findings

| source | as written | input that shows it | evidently intended | confidence | as-written member | corrected member |
|---|---|---|---|---|---|---|
| shared_ptr.h:162-167 | the constructor from a weak handle raises the shared count without checking it, reviving an expired block | a weak handle outliving its only strong handle (`Findings.Outlived`), then `shared_ptr_wrapper(weak)`, then release: the target is disposed twice | an expired weak handle promotes to the empty handle, as `lock()` guards | high; not executed | Shared.FromWeak, Findings.PromoteExpiredDisposesTwice | Weak.Promote, Invariants.PromoteWeakPreserves |
| shared_ptr.h:360-367 | weak copy assignment overwrites the pair without releasing the old one | weak `a` on block A, weak `b` on block B, `a = b`: A's weak count never returns to 0 | release the old binding, as the strong assignment does | high; not executed | Weak.CopyAssignAsWritten, Findings.WeakAssignAsWrittenLeaks | Weak.CopyAssign, Invariants.CopyAssignWeakPreserves |
| shared_ptr.h:322-330 | the weak release dereferences the block with no null check | `weak_ptr<int> w;` going out of scope | a null block makes the release a no-op, as in the strong release (shared_ptr.h:71-73) | high; not executed | Weak.ReleaseAsWritten, Weak.DefaultWeakRelease | Weak.Release, Findings.DefaultWeakDestroyed |
| shared_ptr.h:463-483 | the factories start from a default handle whose block is then overwritten without release | any `make_shared<int>(5)`: a block with shared count 1 and no handle stays allocated | one block per made handle | high; not executed | Factory.MakeAsWritten, Findings.MakeSharedAsWrittenLeaks | Factory.MakeSharedFixed, Invariants.MakeStrongPreserves |
