/**
 * The state every handle operation reads and writes: the live count blocks, the
 * allocator's next block id, and the log of targets disposed so far. Handles of
 * both kinds hold the same pair of raw pointers, `obj_ptr` and `ref_cntr`.
 */
module Memory {
  import opened Wrappers
  import opened RefCounter

  /** A raw target address; 0 is `nullptr`. Raw pointers compare as these integers. */
  type Address = nat

  const NULL: Address := 0

  /** The identity of one `ref_counter` allocation. */
  type BlockId = nat

  /** The deletion policy: `PTR_STRATEGY` (`delete`) or `ARRAY_STRATEGY` (`delete[]`). */
  datatype Strategy = PtrStrategy | ArrayStrategy

  /** One call of `dispose`: the target of block `block` was deleted with `strategy`. */
  datatype Disposal = Disposal(block: BlockId, target: Address, strategy: Strategy)

  /**
   * `blocks` holds the counters not yet deleted. The allocator hands out `next`
   * and never an id in use; `disposals` lists every `dispose` call in order.
   */
  datatype Heap = Heap(blocks: map<BlockId, Counter>, next: BlockId, disposals: seq<Disposal>)

  /** The (obj_ptr, ref_cntr) pair of a strong or weak handle, with its strategy. */
  datatype Handle = Handle(target: Address, block: Option<BlockId>, strategy: Strategy)

  /** The state `reset_no_delete` leaves: both pointers null. */
  function Null(strategy: Strategy): (p: Handle)
    ensures p.block.None? && p.target == NULL && p.strategy == strategy
  {
    Handle(NULL, None, strategy)
  }

  /** Every block id in use was handed out by the allocator. */
  ghost predicate Valid(h: Heap) {
    forall b :: b in h.blocks ==> b < h.next
  }

  /** The handle's block pointer is null or points at a block not yet deleted. */
  predicate Live(h: Heap, p: Handle) {
    p.block.Some? ==> p.block.value in h.blocks
  }

  /** `new ref_counter()`: a block id not in use, holding counts (1, 0). */
  function NewBlock(h: Heap): (r: (Heap, BlockId))
    requires Valid(h)
    ensures var (h', b) := r;
      && b == h.next && b !in h.blocks
      && h'.blocks == h.blocks[b := Fresh()]
      && h'.disposals == h.disposals
      && h'.next == h.next + 1
      && Valid(h')
  {
    (h.(blocks := h.blocks[h.next := Fresh()], next := h.next + 1), h.next)
  }

  /** How many times the target of block `b` has been disposed. */
  function DisposalsOf(log: seq<Disposal>, b: BlockId): nat
  {
    if |log| == 0 then 0
    else DisposalsOf(log[..|log| - 1], b) + (if log[|log| - 1].block == b then 1 else 0)
  }

  /** Two block maps that differ at most at `b` agree on every other id. */
  lemma AgreeAway<V>(m: map<BlockId, V>, m': map<BlockId, V>, b: BlockId, x: BlockId)
    requires m' - {b} == m - {b} && x != b
    ensures x in m' <==> x in m
    ensures x in m ==> m'[x] == m[x]
  {
    assert x in m' <==> x in m' - {b};
    assert x in m <==> x in m - {b};
    if x in m {
      assert (m - {b})[x] == m[x];
      assert (m' - {b})[x] == m'[x];
    }
  }

  lemma DisposalsAppend(log: seq<Disposal>, e: Disposal, b: BlockId)
    ensures DisposalsOf(log + [e], b) == DisposalsOf(log, b) + (if e.block == b then 1 else 0)
  {
    assert (log + [e])[..|log|] == log;
  }
}
