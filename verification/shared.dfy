/**
 * The strong handle `shared_ptr_wrapper`. Every operation is a pure function of
 * the heap and the handles it touches; a C++ `throw` becomes a `Failure`, and a
 * dereference of a null or deleted `ref_cntr` becomes a precondition.
 */
module Shared {
  import opened Wrappers
  import opened RefCounter
  import opened Memory

  /**
   * The effect on the heap of one strong release of `p`'s block: the shared
   * count drops by one, the target is disposed when it was the last strong
   * reference, the block is deleted when no reference of either kind remains,
   * and no other block changes.
   */
  ghost predicate StrongReleased(h: Heap, p: Handle, h': Heap)
    requires p.block.Some? && p.block.value in h.blocks
  {
    var b := p.block.value;
    var c := h.blocks[b];
    && h'.next == h.next
    && h'.blocks - {b} == h.blocks - {b}
    && (b in h'.blocks <==> c.shared + c.weak > 1)
    && (b in h'.blocks ==> h'.blocks[b].shared + 1 == c.shared && h'.blocks[b].weak == c.weak)
    && h'.disposals == h.disposals + (if c.shared == 1 then [Disposal(b, p.target, p.strategy)] else [])
  }

  /**
   * `check_delete_ptr`, which is also `reset()` and the destructor. A null block
   * makes it a no-op; a shared count already at zero makes `dec_shared` throw.
   */
  function Release(h: Heap, p: Handle): (r: Result<(Heap, Handle), LogicError>)
    requires Live(h, p)
    ensures p.block.None? ==> r == Success((h, p))
    ensures p.block.Some? ==> (r.Failure? <==> h.blocks[p.block.value].shared == 0)
    ensures r.Failure? ==> r.error == SharedAlreadyZero
    ensures p.block.Some? && r.Success? ==> StrongReleased(h, p, r.value.0)
    ensures p.block.Some? && r.Success? ==> r.value.1 == Null(p.strategy)
  {
    match p.block
    case None => Success((h, p))
    case Some(b) =>
      match DecShared(h.blocks[b])
      case Failure(e) => Failure(e)
      case Success(c) =>
        var log := if c.shared == 0 then h.disposals + [Disposal(b, p.target, p.strategy)] else h.disposals;
        var blocks := if HasRefs(c) then h.blocks[b := c] else h.blocks - {b};
        Success((Heap(blocks, h.next, log), Null(p.strategy)))
  }

  /**
   * `set_ptr`: the raw-pointer constructor. The handle owns `ptr` through a
   * block that did not exist before and counts just this handle.
   */
  function Adopt(h: Heap, ptr: Address, strategy: Strategy): (r: (Heap, Handle))
    requires Valid(h)
    ensures var (h', p) := r;
      && p.target == ptr && p.strategy == strategy
      && p.block == Some(h.next) && p.block.value !in h.blocks
      && h'.blocks == h.blocks[p.block.value := Counter(1, 0)]
      && h'.disposals == h.disposals
      && h'.next == h.next + 1
      && Valid(h')
  {
    var (h', b) := NewBlock(h);
    (h', Handle(ptr, Some(b), strategy))
  }

  /**
   * The default and `nullptr` constructors. They also call `set_ptr`, so the
   * handle is not blockless: it reports one owner while converting to false.
   */
  function Default(h: Heap, strategy: Strategy): (r: (Heap, Handle))
    requires Valid(h)
    ensures r.1.block == Some(h.next) && r.1.block.value !in h.blocks && r.1.strategy == strategy
    ensures Valid(r.0) && r.0.blocks - {r.1.block.value} == h.blocks && r.0.disposals == h.disposals
    ensures r.0.blocks == h.blocks[r.1.block.value := Counter(1, 0)] && r.0.next == h.next + 1
    ensures Live(r.0, r.1) && UseCount(r.0, r.1) == 1 && Unique(r.0, r.1)
    ensures !ToBool(r.1) && EqNull(r.1)
  {
    Adopt(h, NULL, strategy)
  }

  /**
   * The copy constructor. It dereferences the source's block, so the source
   * must not be moved-from or released.
   */
  function Copy(h: Heap, src: Handle): (r: (Heap, Handle))
    requires src.block.Some? && Live(h, src)
    ensures r.1 == src
    ensures var b := src.block.value;
      r.0 == h.(blocks := h.blocks[b := Counter(h.blocks[b].shared + 1, h.blocks[b].weak)])
    ensures Live(r.0, r.1) && UseCount(r.0, r.1) == UseCount(h, src) + 1
  {
    var b := src.block.value;
    (h.(blocks := h.blocks[b := IncShared(h.blocks[b])]), src)
  }

  /** The move constructor: the pair moves over, the source ends null, no count changes. */
  function Move(src: Handle): (r: (Handle, Handle))
    ensures r.0 == src
    ensures r.1.block.None? && r.1.target == NULL && r.1.strategy == src.strategy
  {
    (src, Null(src.strategy))
  }

  /**
   * Copy assignment: `reset()` then copy. The destination must be a different
   * object from the source (on self-assignment `reset()` nulls the source before
   * it is read), so when both share a block it counts at least both of them.
   */
  function CopyAssign(h: Heap, dst: Handle, src: Handle): (r: Result<(Heap, Handle), LogicError>)
    requires Live(h, dst) && Live(h, src) && src.block.Some?
    requires dst.strategy == src.strategy
    requires dst.block == src.block ==> h.blocks[src.block.value].shared >= 2
    ensures r.Failure? <==> dst.block.Some? && h.blocks[dst.block.value].shared == 0
    ensures r.Success? ==> r.value.1 == src && Live(r.value.0, src)
    ensures r.Success? ==> UseCount(r.value.0, src) == UseCount(h, src) + (if dst.block == src.block then 0 else 1)
    ensures dst.block == src.block ==> r == Success((h, src))
    ensures r.Success? ==> Release(h, dst).Success? && Live(Release(h, dst).value.0, src)
    ensures r.Success? ==> r.value.0 == Copy(Release(h, dst).value.0, src).0
  {
    match Release(h, dst)
    case Failure(e) => Failure(e)
    case Success((h1, _)) =>
      var b := src.block.value;
      assert b in h1.blocks;
      assert dst.block == src.block ==> h1.blocks[b := h.blocks[b]] == h.blocks;
      Success(Copy(h1, src))
  }

  /**
   * Move assignment: `reset()` then take the source's pair and null the source.
   * The result is (heap, destination, source).
   */
  function MoveAssign(h: Heap, dst: Handle, src: Handle): (r: Result<(Heap, Handle, Handle), LogicError>)
    requires Live(h, dst)
    requires dst.strategy == src.strategy
    ensures r.Failure? <==> dst.block.Some? && h.blocks[dst.block.value].shared == 0
    ensures r.Success? ==> r.value.1 == src && r.value.2 == Null(src.strategy)
    ensures r.Success? ==> Release(h, dst).Success? && r.value.0 == Release(h, dst).value.0
  {
    match Release(h, dst)
    case Failure(e) => Failure(e)
    case Success((h1, _)) => Success((h1, src, Null(src.strategy)))
  }

  /** `reset(ptr)`: release, then adopt `ptr` through a fresh block. */
  function ResetTo(h: Heap, p: Handle, ptr: Address): (r: Result<(Heap, Handle), LogicError>)
    requires Valid(h) && Live(h, p)
    ensures r.Failure? <==> p.block.Some? && h.blocks[p.block.value].shared == 0
    ensures r.Success? ==> var (h', q) := r.value;
      && q.target == ptr && q.strategy == p.strategy
      && q.block.Some? && q.block.value !in h.blocks
      && Live(h', q) && Unique(h', q) && Valid(h')
    ensures r.Success? ==> Release(h, p).Success? && Valid(Release(h, p).value.0)
    ensures r.Success? ==> r.value == Adopt(Release(h, p).value.0, ptr, p.strategy)
  {
    match Release(h, p)
    case Failure(e) => Failure(e)
    case Success((h1, _)) => Success(Adopt(h1, ptr, p.strategy))
  }

  /**
   * The constructor from a weak handle, as written: it increments the shared
   * count without looking at it, so an expired block comes back to life with
   * one owner although its target has already been disposed.
   */
  function FromWeak(h: Heap, w: Handle): (r: (Heap, Handle))
    requires w.block.Some? && Live(h, w)
    ensures r.1 == w
    ensures Live(r.0, r.1) && UseCount(r.0, r.1) == UseCount(h, w) + 1
    ensures h.blocks[w.block.value].shared == 0 ==> Unique(r.0, r.1)
    ensures var b := w.block.value; r.0 == h.(blocks := h.blocks[b := IncShared(h.blocks[b])])
  {
    Copy(h, w)
  }

  /** `get()`: the raw target address. */
  function Get(p: Handle): Address {
    p.target
  }

  /** `use_count()`: zero for a null block, else the block's shared count. */
  function UseCount(h: Heap, p: Handle): nat
    requires Live(h, p)
  {
    match p.block
    case None => 0
    case Some(b) => h.blocks[b].shared
  }

  function Unique(h: Heap, p: Handle): bool
    requires Live(h, p)
  {
    UseCount(h, p) == 1
  }

  /** `explicit operator bool`. */
  function ToBool(p: Handle): bool {
    Get(p) != NULL
  }

  function Eq(p: Handle, q: Handle): bool {
    Get(p) == Get(q)
  }

  function Ne(p: Handle, q: Handle): bool {
    !Eq(p, q)
  }

  function Lt(p: Handle, q: Handle): bool {
    Get(p) < Get(q)
  }

  function Gt(p: Handle, q: Handle): bool {
    !Lt(p, q) && Ne(p, q)
  }

  function Le(p: Handle, q: Handle): bool {
    !(Get(p) > Get(q))
  }

  function Ge(p: Handle, q: Handle): bool {
    !(Get(p) < Get(q))
  }

  /** `ptr == nullptr` and `nullptr == ptr`. */
  function EqNull(p: Handle): bool {
    Get(p) == NULL
  }

  /** `ptr != nullptr` and `nullptr != ptr`. */
  function NeNull(p: Handle): bool {
    Get(p) != NULL
  }

  /** The six comparisons agree with one total order on target addresses. */
  lemma ComparisonsAgree(p: Handle, q: Handle)
    ensures Eq(p, q) <==> Get(p) == Get(q)
    ensures Ne(p, q) <==> !Eq(p, q)
    ensures Lt(p, q) || Eq(p, q) || Gt(p, q)
    ensures !(Lt(p, q) && Eq(p, q)) && !(Lt(p, q) && Gt(p, q)) && !(Eq(p, q) && Gt(p, q))
    ensures Le(p, q) <==> Lt(p, q) || Eq(p, q)
    ensures Ge(p, q) <==> Gt(p, q) || Eq(p, q)
    ensures Lt(p, q) <==> Gt(q, p)
    ensures Eq(p, q) <==> Eq(q, p)
  {
  }

  /** Comparing with `nullptr` is the negated boolean conversion. */
  lemma NullComparisons(p: Handle, s: Strategy)
    ensures EqNull(p) <==> !ToBool(p)
    ensures NeNull(p) <==> ToBool(p)
    ensures EqNull(p) <==> Eq(p, Null(s))
  {
  }
}
