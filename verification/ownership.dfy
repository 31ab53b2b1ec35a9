/**
 * A whole program's worth of handles: the heap plus every strong and every
 * weak handle object, each in a slot of its own. A slot index is the object's
 * identity, which the handle-level functions cannot see. Destroying an object
 * is releasing its slot; a released slot refers to no block and counts for
 * nothing.
 */
module Ownership {
  import opened Wrappers
  import opened RefCounter
  import opened Memory
  import Shared
  import Weak
  import Factory

  datatype World = World(heap: Heap, strongs: seq<Handle>, weaks: seq<Handle>)

  /** 1 when `p` points at block `b`, else 0. */
  function Ind(p: Handle, b: BlockId): nat {
    if p.block == Some(b) then 1 else 0
  }

  /** How many of the handles point at block `b`. */
  function Refs(hs: seq<Handle>, b: BlockId): nat
  {
    if |hs| == 0 then 0 else Refs(hs[..|hs| - 1], b) + Ind(hs[|hs| - 1], b)
  }

  lemma RefsAppend(hs: seq<Handle>, x: Handle, b: BlockId)
    ensures Refs(hs + [x], b) == Refs(hs, b) + Ind(x, b)
  {
    assert (hs + [x])[..|hs|] == hs;
  }

  /** Overwriting one slot trades its contribution for the new handle's. */
  lemma {:induction false} RefsUpdate(hs: seq<Handle>, i: int, x: Handle, b: BlockId)
    requires 0 <= i < |hs|
    ensures Refs(hs[i := x], b) + Ind(hs[i], b) == Refs(hs, b) + Ind(x, b)
    decreases |hs|
  {
    var n := |hs| - 1;
    if i == n {
      assert hs[i := x][..n] == hs[..n];
    } else {
      assert hs[i := x][..n] == hs[..n][i := x];
      RefsUpdate(hs[..n], i, x, b);
    }
  }

  /** Some handle points at `b` exactly when the count is positive. */
  lemma {:induction false} RefsPositive(hs: seq<Handle>, b: BlockId)
    ensures Refs(hs, b) > 0 <==> exists i :: 0 <= i < |hs| && hs[i].block == Some(b)
    decreases |hs|
  {
    if |hs| > 0 {
      var n := |hs| - 1;
      RefsPositive(hs[..n], b);
      if Refs(hs, b) > 0 && hs[n].block != Some(b) {
        var i :| 0 <= i < n && hs[..n][i].block == Some(b);
        assert hs[i].block == Some(b);
      }
      if exists i :: 0 <= i < |hs| && hs[i].block == Some(b) {
        var i :| 0 <= i < |hs| && hs[i].block == Some(b);
        if i < n {
          assert hs[..n][i].block == Some(b);
        }
      }
    }
  }

  /** Two distinct slots pointing at `b` count at least twice. */
  lemma RefsTwo(hs: seq<Handle>, i: int, j: int, b: BlockId)
    requires 0 <= i < |hs| && 0 <= j < |hs| && i != j
    ensures hs[i].block == Some(b) && hs[j].block == Some(b) ==> Refs(hs, b) >= 2
  {
    if hs[i].block != Some(b) || hs[j].block != Some(b) {
      return;
    }
    var hs' := hs[i := Null(hs[i].strategy)];
    RefsUpdate(hs, i, Null(hs[i].strategy), b);
    assert hs'[j].block == Some(b);
    RefsPositive(hs', b);
  }

  /** Swapping two slots changes no count. */
  lemma RefsSwap(hs: seq<Handle>, i: int, j: int, b: BlockId)
    requires 0 <= i < |hs| && 0 <= j < |hs|
    ensures Refs(hs[i := hs[j]][j := hs[i]], b) == Refs(hs, b)
  {
    RefsUpdate(hs, i, hs[j], b);
    RefsUpdate(hs[i := hs[j]], j, hs[i], b);
  }

  ghost predicate AllLive(h: Heap, hs: seq<Handle>) {
    forall i :: 0 <= i < |hs| ==> Live(h, hs[i])
  }

  /** How many times the target of `b` must have been disposed: once exactly when its owners are gone. */
  function ExpectedDisposals(h: Heap, b: BlockId): nat {
    if b < h.next && !(b in h.blocks && h.blocks[b].shared > 0) then 1 else 0
  }

  /** Every block's counts equal the number of strong and weak handles pointing at it. */
  ghost predicate Counted(w: World) {
    forall b :: b in w.heap.blocks ==>
      w.heap.blocks[b].shared == Refs(w.strongs, b) && w.heap.blocks[b].weak == Refs(w.weaks, b)
  }

  /** Each block's target was disposed once if its last owner is gone, else never. */
  ghost predicate DisposedOnce(w: World) {
    forall b :: DisposalsOf(w.heap.disposals, b) == ExpectedDisposals(w.heap, b)
  }

  /** No block outlives its last reference. */
  ghost predicate Reclaimed(h: Heap) {
    forall b :: b in h.blocks ==> HasRefs(h.blocks[b])
  }

  /**
   * The invariant the reference counting exists to keep: counts match the
   * handles, no handle points at a deleted block, no block outlives its
   * handles, and every target is disposed exactly once, after its last strong
   * handle let go.
   */
  ghost predicate Consistent(w: World) {
    && Valid(w.heap)
    && AllLive(w.heap, w.strongs)
    && AllLive(w.heap, w.weaks)
    && Counted(w)
    && Reclaimed(w.heap)
    && DisposedOnce(w)
  }

  function Init(): World {
    World(Heap(map[], 0, []), [], [])
  }

  // ---------------------------------------------------------------------------
  // Operations on slots, each through the handle-level function it names.
  // ---------------------------------------------------------------------------

  /** `shared_ptr_wrapper(ptr)`; with `ptr == NULL` the default and `nullptr` constructors. */
  function NewStrong(w: World, ptr: Address, strategy: Strategy): World
    requires Valid(w.heap)
  {
    var (h', p) := Shared.Adopt(w.heap, ptr, strategy);
    World(h', w.strongs + [p], w.weaks)
  }

  /** `make_shared` or `make_shared_array` with a single block; `obj` is the new target. */
  function MakeStrong(w: World, obj: Address, strategy: Strategy): World
    requires Valid(w.heap) && obj != NULL
  {
    var (h', p) := Factory.MakeSharedFixed(w.heap, obj, strategy);
    World(h', w.strongs + [p], w.weaks)
  }

  /** The copy constructor on slot `i`, building a new slot. */
  function CopyStrong(w: World, i: int): World
    requires 0 <= i < |w.strongs| && w.strongs[i].block.Some? && Live(w.heap, w.strongs[i])
  {
    var (h', p) := Shared.Copy(w.heap, w.strongs[i]);
    World(h', w.strongs + [p], w.weaks)
  }

  /** The move constructor from slot `i`, building a new slot. */
  function MoveStrong(w: World, i: int): World
    requires 0 <= i < |w.strongs|
  {
    var (p, q) := Shared.Move(w.strongs[i]);
    World(w.heap, w.strongs[i := q] + [p], w.weaks)
  }

  /** `reset()` or the destructor on slot `i`. */
  function ReleaseStrong(w: World, i: int): Result<World, LogicError>
    requires 0 <= i < |w.strongs| && Live(w.heap, w.strongs[i])
  {
    match Shared.Release(w.heap, w.strongs[i])
    case Failure(e) => Failure(e)
    case Success((h', p)) => Success(World(h', w.strongs[i := p], w.weaks))
  }

  /**
   * Slot `i` = slot `j` (copy), for two distinct objects. When both point at
   * one block, that block counts both of them.
   */
  function CopyAssignStrong(w: World, i: int, j: int): Result<World, LogicError>
    requires Consistent(w)
    requires 0 <= i < |w.strongs| && 0 <= j < |w.strongs| && i != j
    requires w.strongs[j].block.Some?
    requires w.strongs[i].strategy == w.strongs[j].strategy
  {
    var b := w.strongs[j].block.value;
    RefsTwo(w.strongs, i, j, b);
    match Shared.CopyAssign(w.heap, w.strongs[i], w.strongs[j])
    case Failure(e) => Failure(e)
    case Success((h', p)) => Success(World(h', w.strongs[i := p], w.weaks))
  }

  /**
   * Slot `i` = std::move(slot `j`). On self-assignment `reset()` nulls the
   * handle before it is read, so the object ends released.
   */
  function MoveAssignStrong(w: World, i: int, j: int): Result<World, LogicError>
    requires 0 <= i < |w.strongs| && 0 <= j < |w.strongs|
    requires Live(w.heap, w.strongs[i])
    requires w.strongs[i].strategy == w.strongs[j].strategy
  {
    if i == j then ReleaseStrong(w, i)
    else
      match Shared.MoveAssign(w.heap, w.strongs[i], w.strongs[j])
      case Failure(e) => Failure(e)
      case Success((h', d, s)) => Success(World(h', w.strongs[i := d][j := s], w.weaks))
  }

  /** `reset(ptr)` on slot `i`. */
  function ResetStrongTo(w: World, i: int, ptr: Address): Result<World, LogicError>
    requires 0 <= i < |w.strongs| && Valid(w.heap) && Live(w.heap, w.strongs[i])
  {
    match Shared.ResetTo(w.heap, w.strongs[i], ptr)
    case Failure(e) => Failure(e)
    case Success((h', p)) => Success(World(h', w.strongs[i := p], w.weaks))
  }

  /** `swap` of two strong slots: `std::swap` of both pointers. */
  function SwapStrong(w: World, i: int, j: int): World
    requires 0 <= i < |w.strongs| && 0 <= j < |w.strongs|
  {
    w.(strongs := w.strongs[i := w.strongs[j]][j := w.strongs[i]])
  }

  /** The default weak constructor: both pointers null. */
  function NewWeak(w: World, strategy: Strategy): World {
    w.(weaks := w.weaks + [Null(strategy)])
  }

  /** A weak handle built from strong slot `i`. */
  function WeakFromStrong(w: World, i: int): World
    requires 0 <= i < |w.strongs| && w.strongs[i].block.Some? && Live(w.heap, w.strongs[i])
  {
    var (h', p) := Weak.FromStrong(w.heap, w.strongs[i]);
    World(h', w.strongs, w.weaks + [p])
  }

  /** The weak copy constructor on slot `k`. */
  function CopyWeak(w: World, k: int): World
    requires 0 <= k < |w.weaks| && w.weaks[k].block.Some? && Live(w.heap, w.weaks[k])
  {
    var (h', p) := Weak.Copy(w.heap, w.weaks[k]);
    World(h', w.strongs, w.weaks + [p])
  }

  /** Weak slot `k` = weak slot `l`, releasing the old binding. */
  function CopyAssignWeak(w: World, k: int, l: int): Result<World, LogicError>
    requires Consistent(w)
    requires 0 <= k < |w.weaks| && 0 <= l < |w.weaks|
    requires w.weaks[l].block.Some?
    requires w.weaks[k].strategy == w.weaks[l].strategy
  {
    RefsPositive(w.weaks, w.weaks[l].block.value);
    match Weak.CopyAssign(w.heap, w.weaks[k], w.weaks[l])
    case Failure(e) => Failure(e)
    case Success((h', p)) => Success(World(h', w.strongs, w.weaks[k := p]))
  }

  /** `reset()` or the destructor on weak slot `k`, with the null guard. */
  function ReleaseWeak(w: World, k: int): Result<World, LogicError>
    requires 0 <= k < |w.weaks| && Live(w.heap, w.weaks[k])
  {
    match Weak.Release(w.heap, w.weaks[k])
    case Failure(e) => Failure(e)
    case Success((h', p)) => Success(World(h', w.strongs, w.weaks[k := p]))
  }

  function SwapWeak(w: World, k: int, l: int): World
    requires 0 <= k < |w.weaks| && 0 <= l < |w.weaks|
  {
    w.(weaks := w.weaks[k := w.weaks[l]][l := w.weaks[k]])
  }

  /** `lock()` on weak slot `k`, building a new strong slot. */
  function LockWeak(w: World, k: int): World
    requires 0 <= k < |w.weaks| && Valid(w.heap) && Live(w.heap, w.weaks[k])
  {
    var (h', p) := Weak.Lock(w.heap, w.weaks[k]);
    World(h', w.strongs + [p], w.weaks)
  }

  /** Guarded promotion of weak slot `k`, building a new strong slot. */
  function PromoteWeak(w: World, k: int): World
    requires 0 <= k < |w.weaks| && Live(w.heap, w.weaks[k])
  {
    var (h', p) := Weak.Promote(w.heap, w.weaks[k]);
    World(h', w.strongs + [p], w.weaks)
  }

  // ---------------------------------------------------------------------------
  // One step of a program using the handles.
  // ---------------------------------------------------------------------------

  datatype Op =
    | NewStrongOp(ptr: Address, strategy: Strategy)
    | MakeStrongOp(obj: Address, strategy: Strategy)
    | CopyStrongOp(i: int)
    | MoveStrongOp(i: int)
    | CopyAssignStrongOp(i: int, j: int)
    | MoveAssignStrongOp(i: int, j: int)
    | ReleaseStrongOp(i: int)
    | ResetStrongToOp(i: int, ptr: Address)
    | SwapStrongOp(i: int, j: int)
    | NewWeakOp(strategy: Strategy)
    | WeakFromStrongOp(i: int)
    | CopyWeakOp(k: int)
    | CopyAssignWeakOp(k: int, l: int)
    | ReleaseWeakOp(k: int)
    | SwapWeakOp(k: int, l: int)
    | LockWeakOp(k: int)
    | PromoteWeakOp(k: int)

  predicate StrongSlot(w: World, i: int) {
    0 <= i < |w.strongs|
  }

  predicate WeakSlot(w: World, k: int) {
    0 <= k < |w.weaks|
  }

  /**
   * What the C++ code needs of its caller: existing objects, a non-null block
   * wherever one is dereferenced, the same strategy on both sides of an
   * assignment or swap, and distinct objects in a copy assignment. The
   * operations themselves are the corrected ones where the code is defective:
   * the single-block factory, the releasing weak assignment, the guarded weak
   * release and the guarded promotion.
   */
  predicate Enabled(w: World, op: Op) {
    match op
    case NewStrongOp(_, _) => true
    case MakeStrongOp(obj, _) => obj != NULL
    case CopyStrongOp(i) => StrongSlot(w, i) && w.strongs[i].block.Some?
    case MoveStrongOp(i) => StrongSlot(w, i)
    case CopyAssignStrongOp(i, j) =>
      StrongSlot(w, i) && StrongSlot(w, j) && i != j && w.strongs[j].block.Some?
      && w.strongs[i].strategy == w.strongs[j].strategy
    case MoveAssignStrongOp(i, j) =>
      StrongSlot(w, i) && StrongSlot(w, j) && w.strongs[i].strategy == w.strongs[j].strategy
    case ReleaseStrongOp(i) => StrongSlot(w, i)
    case ResetStrongToOp(i, _) => StrongSlot(w, i)
    case SwapStrongOp(i, j) =>
      StrongSlot(w, i) && StrongSlot(w, j) && w.strongs[i].strategy == w.strongs[j].strategy
    case NewWeakOp(_) => true
    case WeakFromStrongOp(i) => StrongSlot(w, i) && w.strongs[i].block.Some?
    case CopyWeakOp(k) => WeakSlot(w, k) && w.weaks[k].block.Some?
    case CopyAssignWeakOp(k, l) =>
      WeakSlot(w, k) && WeakSlot(w, l) && w.weaks[l].block.Some? && w.weaks[k].strategy == w.weaks[l].strategy
    case ReleaseWeakOp(k) => WeakSlot(w, k)
    case SwapWeakOp(k, l) =>
      WeakSlot(w, k) && WeakSlot(w, l) && w.weaks[k].strategy == w.weaks[l].strategy
    case LockWeakOp(k) => WeakSlot(w, k)
    case PromoteWeakOp(k) => WeakSlot(w, k)
  }

  function Step(w: World, op: Op): Result<World, LogicError>
    requires Consistent(w) && Enabled(w, op)
  {
    match op
    case NewStrongOp(ptr, s) => Success(NewStrong(w, ptr, s))
    case MakeStrongOp(obj, s) => Success(MakeStrong(w, obj, s))
    case CopyStrongOp(i) => Success(CopyStrong(w, i))
    case MoveStrongOp(i) => Success(MoveStrong(w, i))
    case CopyAssignStrongOp(i, j) => CopyAssignStrong(w, i, j)
    case MoveAssignStrongOp(i, j) => MoveAssignStrong(w, i, j)
    case ReleaseStrongOp(i) => ReleaseStrong(w, i)
    case ResetStrongToOp(i, ptr) => ResetStrongTo(w, i, ptr)
    case SwapStrongOp(i, j) => Success(SwapStrong(w, i, j))
    case NewWeakOp(s) => Success(NewWeak(w, s))
    case WeakFromStrongOp(i) => Success(WeakFromStrong(w, i))
    case CopyWeakOp(k) => Success(CopyWeak(w, k))
    case CopyAssignWeakOp(k, l) => CopyAssignWeak(w, k, l)
    case ReleaseWeakOp(k) => ReleaseWeak(w, k)
    case SwapWeakOp(k, l) => Success(SwapWeak(w, k, l))
    case LockWeakOp(k) => Success(LockWeak(w, k))
    case PromoteWeakOp(k) => Success(PromoteWeak(w, k))
  }
}
