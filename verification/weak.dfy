/**
 * The weak handle `weak_ptr_wrapper`. It shares the heap with the strong handle,
 * observes the shared count and moves only the weak count.
 */
module Weak {
  import opened Wrappers
  import opened RefCounter
  import opened Memory
  import Shared

  /**
   * The effect on the heap of one weak release of `w`'s block: the weak count
   * drops by one, nothing is disposed, the block is deleted when no reference of
   * either kind remains, and no other block changes.
   */
  ghost predicate WeakReleased(h: Heap, w: Handle, h': Heap)
    requires w.block.Some? && w.block.value in h.blocks
  {
    var b := w.block.value;
    var c := h.blocks[b];
    && h'.next == h.next
    && h'.disposals == h.disposals
    && h'.blocks - {b} == h.blocks - {b}
    && (b in h'.blocks <==> c.shared + c.weak > 1)
    && (b in h'.blocks ==> h'.blocks[b].weak + 1 == c.weak && h'.blocks[b].shared == c.shared)
  }

  /**
   * `check_delete_ptr` as written, which is also `reset()` and the destructor.
   * It has no null guard: a handle with a null block dereferences `nullptr`.
   */
  function ReleaseAsWritten(h: Heap, w: Handle): (r: Result<(Heap, Handle), LogicError>)
    requires w.block.Some? && Live(h, w)
    ensures r.Failure? <==> h.blocks[w.block.value].weak == 0
    ensures r.Failure? ==> r.error == WeakAlreadyZero
    ensures r.Success? ==> WeakReleased(h, w, r.value.0) && r.value.1 == Null(w.strategy)
  {
    var b := w.block.value;
    match DecWeak(h.blocks[b])
    case Failure(e) => Failure(e)
    case Success(c) =>
      var blocks := if HasRefs(c) then h.blocks[b := c] else h.blocks - {b};
      Success((h.(blocks := blocks), Null(w.strategy)))
  }

  /** The release with the null guard the strong handle has: a null block makes it a no-op. */
  function Release(h: Heap, w: Handle): (r: Result<(Heap, Handle), LogicError>)
    requires Live(h, w)
    ensures w.block.None? ==> r == Success((h, w))
    ensures w.block.Some? ==> (r.Failure? <==> h.blocks[w.block.value].weak == 0)
    ensures w.block.Some? && r.Success? ==> WeakReleased(h, w, r.value.0) && r.value.1 == Null(w.strategy)
  {
    if w.block.None? then Success((h, w)) else ReleaseAsWritten(h, w)
  }

  /** A default weak handle is outside the as-written release's domain; the guarded release leaves it alone. */
  lemma DefaultWeakRelease(h: Heap, s: Strategy)
    ensures !(Null(s).block.Some? && Live(h, Null(s)))
    ensures Release(h, Null(s)) == Success((h, Null(s)))
  {
  }

  /**
   * The constructor from a strong handle: same pair, one more weak reference,
   * shared count untouched. It dereferences the source's block.
   */
  function FromStrong(h: Heap, s: Handle): (r: (Heap, Handle))
    requires s.block.Some? && Live(h, s)
    ensures r.1 == s
    ensures var b := s.block.value;
      r.0 == h.(blocks := h.blocks[b := Counter(h.blocks[b].shared, h.blocks[b].weak + 1)])
    ensures Live(r.0, r.1) && Live(r.0, s)
    ensures Shared.UseCount(r.0, r.1) == Shared.UseCount(h, s) == Shared.UseCount(r.0, s)
  {
    var b := s.block.value;
    (h.(blocks := h.blocks[b := IncWeak(h.blocks[b])]), s)
  }

  /** The copy constructor: one more weak reference to the source's block, which it dereferences. */
  function Copy(h: Heap, w: Handle): (r: (Heap, Handle))
    requires w.block.Some? && Live(h, w)
    ensures r.1 == w
    ensures var b := w.block.value;
      r.0 == h.(blocks := h.blocks[b := Counter(h.blocks[b].shared, h.blocks[b].weak + 1)])
    ensures Live(r.0, r.1) && Expired(r.0, r.1) == Expired(h, w)
  {
    var b := w.block.value;
    (h.(blocks := h.blocks[b := IncWeak(h.blocks[b])]), w)
  }

  /**
   * Copy assignment as written: it overwrites the destination's pair without
   * releasing it, so the destination's old block keeps a weak count no handle
   * accounts for.
   */
  function CopyAssignAsWritten(h: Heap, dst: Handle, src: Handle): (r: (Heap, Handle))
    requires src.block.Some? && Live(h, src)
    requires dst.strategy == src.strategy
    ensures r.1 == src
    ensures src.block.value in r.0.blocks && r.0.blocks[src.block.value].weak == h.blocks[src.block.value].weak + 1
    ensures forall b :: b != src.block.value ==> (b in r.0.blocks <==> b in h.blocks)
    ensures dst.block.Some? && dst.block != src.block && dst.block.value in h.blocks ==>
              r.0.blocks[dst.block.value] == h.blocks[dst.block.value]
    ensures var b := src.block.value; r.0 == h.(blocks := h.blocks[b := IncWeak(h.blocks[b])])
  {
    Copy(h, src)
  }

  /**
   * Copy assignment that releases the old binding: the source's weak count is
   * raised first, so assigning a handle to itself never deletes its block.
   */
  function CopyAssign(h: Heap, dst: Handle, src: Handle): (r: Result<(Heap, Handle), LogicError>)
    requires src.block.Some? && Live(h, src) && Live(h, dst)
    requires dst.strategy == src.strategy
    requires dst.block == src.block ==> h.blocks[src.block.value].weak >= 1
    ensures r.Failure? <==> dst.block.Some? && dst.block != src.block && h.blocks[dst.block.value].weak == 0
    ensures r.Success? ==> r.value.1 == src && Live(r.value.0, src)
    ensures r.Success? ==> Shared.UseCount(r.value.0, src) == Shared.UseCount(h, src)
    ensures dst.block == src.block ==> r == Success((h, src))
    ensures r.Success? && dst.block.Some? && dst.block != src.block ==>
              (dst.block.value in r.value.0.blocks <==> HasRefs(DecWeak(h.blocks[dst.block.value]).value))
    ensures r.Success? && dst.block != src.block ==>
              r.value.0.blocks[src.block.value] == IncWeak(h.blocks[src.block.value])
    ensures r.Success? && dst.block.Some? && dst.block != src.block && dst.block.value in r.value.0.blocks ==>
              r.value.0.blocks[dst.block.value] == DecWeak(h.blocks[dst.block.value]).value
    ensures r.Success? ==> r.value.0.next == h.next && r.value.0.disposals == h.disposals
    ensures r.Success? ==> forall b :: b != src.block.value && Some(b) != dst.block ==>
              (b in r.value.0.blocks <==> b in h.blocks) && (b in h.blocks ==> r.value.0.blocks[b] == h.blocks[b])
  {
    var (h1, _) := Copy(h, src);
    var b := src.block.value;
    assert dst.block == src.block ==> h1.blocks[b := h.blocks[b]] == h.blocks;
    match Release(h1, dst)
    case Failure(e) => Failure(e)
    case Success((h2, _)) =>
      assert dst.block.Some? && dst.block != src.block ==> b in h1.blocks - {dst.block.value};
      Success((h2, src))
  }

  /** `expired()`: the block is null or no strong handle is left. */
  function Expired(h: Heap, w: Handle): (r: bool)
    requires Live(h, w)
    ensures r <==> Shared.UseCount(h, w) == 0
  {
    if w.block.None? then true else h.blocks[w.block.value].shared == 0
  }

  /**
   * `lock()`: an expired handle yields a default strong handle (null target,
   * fresh block, one owner); otherwise the constructor from a weak handle.
   */
  function Lock(h: Heap, w: Handle): (r: (Heap, Handle))
    requires Valid(h) && Live(h, w)
    ensures Live(r.0, r.1) && Valid(r.0)
    ensures Expired(h, w) ==>
              r.1.target == NULL && r.1.block.Some? && r.1.block.value !in h.blocks && Shared.Unique(r.0, r.1)
    ensures !Expired(h, w) ==>
              r.1 == w && Shared.UseCount(r.0, r.1) == Shared.UseCount(h, w) + 1 && !Shared.Unique(r.0, r.1)
    ensures r.0.disposals == h.disposals
    ensures Expired(h, w) ==>
              r.0.blocks == h.blocks[r.1.block.value := Counter(1, 0)] && r.0.next == h.next + 1
    ensures Expired(h, w) ==> r.1.strategy == w.strategy && r.1.block == Some(h.next)
    ensures !Expired(h, w) ==>
              var b := w.block.value; r.0 == h.(blocks := h.blocks[b := IncShared(h.blocks[b])])
  {
    if Expired(h, w) then Shared.Default(h, w.strategy) else Shared.FromWeak(h, w)
  }

  /**
   * Promotion with the guard the constructor from a weak handle lacks: an
   * expired handle yields the empty strong handle and touches no count.
   */
  function Promote(h: Heap, w: Handle): (r: (Heap, Handle))
    requires Live(h, w)
    ensures Expired(h, w) ==> r == (h, Null(w.strategy))
    ensures !Expired(h, w) ==> r.1 == w && Live(r.0, r.1) && Shared.UseCount(r.0, r.1) == Shared.UseCount(h, w) + 1
    ensures r.1.block.Some? ==> Shared.UseCount(h, w) > 0
    ensures !Expired(h, w) ==>
              var b := w.block.value; r.0 == h.(blocks := h.blocks[b := IncShared(h.blocks[b])])
  {
    if Expired(h, w) then (h, Null(w.strategy)) else Shared.FromWeak(h, w)
  }
}
