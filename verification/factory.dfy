/**
 * `make_shared` and `make_shared_array` at the level of count blocks. Both
 * start from a default handle, whose constructor already allocated a block,
 * and then overwrite its pair with a second, fresh block and the new target.
 */
module Factory {
  import opened Wrappers
  import opened RefCounter
  import opened Memory
  import Shared

  /**
   * The shared body of both factories as written. The result owns `obj` through
   * a fresh block with counts (1, 0); the default handle's block is left behind
   * with counts (1, 0) and no handle pointing at it.
   */
  function MakeAsWritten(h: Heap, obj: Address, strategy: Strategy): (r: (Heap, Handle))
    requires Valid(h) && obj != NULL
    ensures var (h', p) := r;
      && p.target == obj && p.strategy == strategy
      && p.block.Some? && p.block.value !in h.blocks
      && Live(h', p) && Shared.Unique(h', p) && h'.blocks[p.block.value] == Counter(1, 0)
      && Shared.ToBool(p)
      && h'.disposals == h.disposals && Valid(h')
    ensures var (h', p) := r;
      && h.next in h'.blocks && h.next !in h.blocks && Some(h.next) != p.block
      && h'.blocks[h.next] == Counter(1, 0)
    ensures var (h', p) := r;
      && h'.blocks == h.blocks[h.next := Counter(1, 0)][p.block.value := Counter(1, 0)]
      && p.block == Some(h.next + 1) && h'.next == h.next + 2
  {
    var (h1, _) := Shared.Default(h, strategy);
    var (h2, b) := NewBlock(h1);
    (h2, Handle(obj, Some(b), strategy))
  }

  /** `make_shared<T>(args...)`: `obj` is the address `new T(args...)` returned. */
  function MakeShared(h: Heap, obj: Address): (r: (Heap, Handle))
    requires Valid(h) && obj != NULL
    ensures r.1.strategy == PtrStrategy && r.1.target == obj
    ensures r.1.block == Some(h.next + 1) && r.0.next == h.next + 2
    ensures r.0.blocks == h.blocks[h.next := Counter(1, 0)][r.1.block.value := Counter(1, 0)]
    ensures Live(r.0, r.1) && Shared.UseCount(r.0, r.1) == 1
    ensures |r.0.blocks.Keys - h.blocks.Keys| == 2
    ensures forall b :: b in h.blocks ==> b in r.0.blocks && r.0.blocks[b] == h.blocks[b]
    ensures Valid(r.0) && r.0.disposals == h.disposals
  {
    var r := MakeAsWritten(h, obj, PtrStrategy);
    assert r.0.blocks.Keys - h.blocks.Keys == {h.next, r.1.block.value};
    r
  }

  /** `make_shared_array<T>(size)`: `obj` is the address `new T[size]` returned. */
  function MakeSharedArray(h: Heap, obj: Address): (r: (Heap, Handle))
    requires Valid(h) && obj != NULL
    ensures r.1.strategy == ArrayStrategy && r.1.target == obj
    ensures r.1.block == Some(h.next + 1) && r.0.next == h.next + 2
    ensures r.0.blocks == h.blocks[h.next := Counter(1, 0)][r.1.block.value := Counter(1, 0)]
    ensures Live(r.0, r.1) && Shared.UseCount(r.0, r.1) == 1
    ensures |r.0.blocks.Keys - h.blocks.Keys| == 2
    ensures forall b :: b in h.blocks ==> b in r.0.blocks && r.0.blocks[b] == h.blocks[b]
    ensures Valid(r.0) && r.0.disposals == h.disposals
  {
    var r := MakeAsWritten(h, obj, ArrayStrategy);
    assert r.0.blocks.Keys - h.blocks.Keys == {h.next, r.1.block.value};
    r
  }

  /** Both factories without the stray default handle: exactly one new block. */
  function MakeSharedFixed(h: Heap, obj: Address, strategy: Strategy): (r: (Heap, Handle))
    requires Valid(h) && obj != NULL
    ensures r.1.strategy == strategy && r.1.target == obj && Shared.ToBool(r.1)
    ensures r.1.block == Some(h.next)
    ensures Live(r.0, r.1) && Shared.UseCount(r.0, r.1) == 1
    ensures r.0.blocks.Keys - h.blocks.Keys == {r.1.block.value}
    ensures r.0.blocks - {r.1.block.value} == h.blocks
    ensures r.0.blocks == h.blocks[r.1.block.value := Counter(1, 0)]
    ensures r.0.next == h.next + 1 && r.0.disposals == h.disposals && Valid(r.0)
  {
    var r := Shared.Adopt(h, obj, strategy);
    assert r.0.blocks.Keys - h.blocks.Keys == {r.1.block.value};
    r
  }
}
