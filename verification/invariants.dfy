/**
 * Every slot operation, started from a consistent world and given what the
 * C++ code dereferences, completes without a `logic_error` and leaves the world
 * consistent.
 */
module Invariants {
  import opened Wrappers
  import opened RefCounter
  import opened Memory
  import opened Ownership
  import Shared
  import Weak
  import Factory

  lemma InitConsistent()
    ensures Consistent(Init())
  {
  }

  /** A block absent from the heap has no handle pointing at it. */
  lemma AbsentUnreferenced(w: World, b: BlockId)
    requires Consistent(w) && b !in w.heap.blocks
    ensures Refs(w.strongs, b) == 0 && Refs(w.weaks, b) == 0
  {
    forall i | 0 <= i < |w.strongs|
      ensures w.strongs[i].block != Some(b)
    {
      assert Live(w.heap, w.strongs[i]);
    }
    forall k | 0 <= k < |w.weaks|
      ensures w.weaks[k].block != Some(b)
    {
      assert Live(w.heap, w.weaks[k]);
    }
    RefsPositive(w.strongs, b);
    RefsPositive(w.weaks, b);
  }

  /** Changing no count and leaving every handle live keeps the world consistent. */
  lemma Rearranged(w: World, s': seq<Handle>, k': seq<Handle>)
    requires Consistent(w)
    requires forall b :: Refs(s', b) == Refs(w.strongs, b)
    requires forall b :: Refs(k', b) == Refs(w.weaks, b)
    requires AllLive(w.heap, s') && AllLive(w.heap, k')
    ensures Consistent(World(w.heap, s', k'))
  {
  }

  /** A new object with both pointers null changes no count. */
  lemma ExtendStrong(w: World, s: Strategy)
    requires Consistent(w)
    ensures Consistent(World(w.heap, w.strongs + [Null(s)], w.weaks))
  {
    forall b
      ensures Refs(w.strongs + [Null(s)], b) == Refs(w.strongs, b)
    {
      RefsAppend(w.strongs, Null(s), b);
    }
    Rearranged(w, w.strongs + [Null(s)], w.weaks);
  }

  lemma ExtendWeak(w: World, s: Strategy)
    requires Consistent(w)
    ensures Consistent(World(w.heap, w.strongs, w.weaks + [Null(s)]))
  {
    forall b
      ensures Refs(w.weaks + [Null(s)], b) == Refs(w.weaks, b)
    {
      RefsAppend(w.weaks, Null(s), b);
    }
    Rearranged(w, w.strongs, w.weaks + [Null(s)]);
  }

  /** Binding null strong slot `i` to a new block that counts just it keeps the world consistent. */
  lemma FillFresh(w: World, i: int, h': Heap, p: Handle)
    requires Consistent(w) && 0 <= i < |w.strongs| && IsNull(w.strongs[i])
    requires p.block == Some(w.heap.next)
    requires h'.blocks == w.heap.blocks[w.heap.next := Counter(1, 0)]
    requires h'.next == w.heap.next + 1 && h'.disposals == w.heap.disposals
    ensures Consistent(World(h', w.strongs[i := p], w.weaks))
  {
    var s' := w.strongs[i := p];
    var nb := w.heap.next;
    AbsentUnreferenced(w, nb);
    forall b | b in h'.blocks
      ensures h'.blocks[b].shared == Refs(s', b) && h'.blocks[b].weak == Refs(w.weaks, b)
    {
      RefsUpdate(w.strongs, i, p, b);
    }
    forall j | 0 <= j < |s'|
      ensures Live(h', s'[j])
    {
    }
    forall b
      ensures DisposalsOf(h'.disposals, b) == ExpectedDisposals(h', b)
    {
      assert DisposalsOf(h'.disposals, b) == ExpectedDisposals(w.heap, b);
    }
  }

  /** Binding null strong slot `i` to an owned block whose shared count rose by one keeps the world consistent. */
  lemma FillSharing(w: World, i: int, h': Heap, p: Handle)
    requires Consistent(w) && 0 <= i < |w.strongs| && IsNull(w.strongs[i])
    requires p.block.Some? && p.block.value in w.heap.blocks
    requires w.heap.blocks[p.block.value].shared > 0
    requires var b := p.block.value; var c := w.heap.blocks[b];
      h' == w.heap.(blocks := w.heap.blocks[b := Counter(c.shared + 1, c.weak)])
    ensures Consistent(World(h', w.strongs[i := p], w.weaks))
  {
    var s' := w.strongs[i := p];
    forall b | b in h'.blocks
      ensures h'.blocks[b].shared == Refs(s', b) && h'.blocks[b].weak == Refs(w.weaks, b)
    {
      RefsUpdate(w.strongs, i, p, b);
    }
    forall j | 0 <= j < |s'|
      ensures Live(h', s'[j])
    {
    }
    forall b
      ensures DisposalsOf(h'.disposals, b) == ExpectedDisposals(h', b)
    {
      assert ExpectedDisposals(h', b) == ExpectedDisposals(w.heap, b);
    }
  }

  /** Binding null weak slot `k` to a block whose weak count rose by one keeps the world consistent. */
  lemma FillWeak(w: World, k: int, h': Heap, p: Handle)
    requires Consistent(w) && 0 <= k < |w.weaks| && IsNull(w.weaks[k])
    requires p.block.Some? && p.block.value in w.heap.blocks
    requires var b := p.block.value; var c := w.heap.blocks[b];
      h' == w.heap.(blocks := w.heap.blocks[b := Counter(c.shared, c.weak + 1)])
    ensures Consistent(World(h', w.strongs, w.weaks[k := p]))
  {
    var k' := w.weaks[k := p];
    forall b | b in h'.blocks
      ensures h'.blocks[b].shared == Refs(w.strongs, b) && h'.blocks[b].weak == Refs(k', b)
    {
      RefsUpdate(w.weaks, k, p, b);
    }
    forall j | 0 <= j < |k'|
      ensures Live(h', k'[j])
    {
    }
    forall b
      ensures DisposalsOf(h'.disposals, b) == ExpectedDisposals(h', b)
    {
      assert ExpectedDisposals(h', b) == ExpectedDisposals(w.heap, b);
    }
  }

  /** A new strong object bound to a fresh block: extend with a null slot, then fill it. */
  lemma AppendFresh(w: World, h': Heap, p: Handle)
    requires Consistent(w)
    requires p.block == Some(w.heap.next)
    requires h'.blocks == w.heap.blocks[w.heap.next := Counter(1, 0)]
    requires h'.next == w.heap.next + 1 && h'.disposals == w.heap.disposals
    ensures Consistent(World(h', w.strongs + [p], w.weaks))
  {
    var w1 := World(w.heap, w.strongs + [Null(p.strategy)], w.weaks);
    ExtendStrong(w, p.strategy);
    FillFresh(w1, |w.strongs|, h', p);
    assert w1.strongs[|w.strongs| := p] == w.strongs + [p];
  }

  lemma AppendSharing(w: World, h': Heap, p: Handle)
    requires Consistent(w)
    requires p.block.Some? && p.block.value in w.heap.blocks
    requires w.heap.blocks[p.block.value].shared > 0
    requires var b := p.block.value; var c := w.heap.blocks[b];
      h' == w.heap.(blocks := w.heap.blocks[b := Counter(c.shared + 1, c.weak)])
    ensures Consistent(World(h', w.strongs + [p], w.weaks))
  {
    var w1 := World(w.heap, w.strongs + [Null(p.strategy)], w.weaks);
    ExtendStrong(w, p.strategy);
    FillSharing(w1, |w.strongs|, h', p);
    assert w1.strongs[|w.strongs| := p] == w.strongs + [p];
  }

  lemma AppendWeak(w: World, h': Heap, p: Handle)
    requires Consistent(w)
    requires p.block.Some? && p.block.value in w.heap.blocks
    requires var b := p.block.value; var c := w.heap.blocks[b];
      h' == w.heap.(blocks := w.heap.blocks[b := Counter(c.shared, c.weak + 1)])
    ensures Consistent(World(h', w.strongs, w.weaks + [p]))
  {
    var w1 := World(w.heap, w.strongs, w.weaks + [Null(p.strategy)]);
    ExtendWeak(w, p.strategy);
    FillWeak(w1, |w.weaks|, h', p);
    assert w1.weaks[|w.weaks| := p] == w.weaks + [p];
  }

  /** Construction from a raw pointer (or none) adds one unique owner of a fresh block. */
  lemma NewStrongPreserves(w: World, ptr: Address, strategy: Strategy)
    requires Consistent(w)
    ensures var w' := NewStrong(w, ptr, strategy);
      && Consistent(w')
      && |w'.strongs| == |w.strongs| + 1
      && Shared.Unique(w'.heap, w'.strongs[|w.strongs|])
      && w'.strongs[|w.strongs|].target == ptr
  {
    var (h', p) := Shared.Adopt(w.heap, ptr, strategy);
    AppendFresh(w, h', p);
  }

  /** The factory with a single block adds one unique owner of `obj` through a fresh block. */
  lemma MakeStrongPreserves(w: World, obj: Address, s: Strategy)
    requires Consistent(w) && obj != NULL
    ensures var w' := MakeStrong(w, obj, s);
      && Consistent(w')
      && |w'.strongs| == |w.strongs| + 1
      && Shared.Unique(w'.heap, w'.strongs[|w.strongs|])
      && w'.strongs[|w.strongs|] == Handle(obj, Some(w.heap.next), s)
  {
    var (h', p) := Factory.MakeSharedFixed(w.heap, obj, s);
    AppendFresh(w, h', p);
  }

  lemma CopyStrongPreserves(w: World, i: int)
    requires Consistent(w) && 0 <= i < |w.strongs| && w.strongs[i].block.Some?
    ensures var w' := CopyStrong(w, i);
      && Consistent(w')
      && w'.strongs[|w.strongs|] == w.strongs[i]
      && Shared.UseCount(w'.heap, w'.strongs[i]) == Shared.UseCount(w.heap, w.strongs[i]) + 1
  {
    var b := w.strongs[i].block.value;
    RefsPositive(w.strongs, b);
    var (h', p) := Shared.Copy(w.heap, w.strongs[i]);
    AppendSharing(w, h', p);
  }

  /** A null slot: the state release and move leave behind. */
  predicate IsNull(p: Handle) {
    p.block.None?
  }

  /**
   * The strong release of slot `i` in a consistent world never throws, and the
   * world it leaves is consistent, with slot `i` null and every other slot as it was.
   */
  lemma ReleaseStrongPreserves(w: World, i: int)
    requires Consistent(w) && 0 <= i < |w.strongs|
    ensures ReleaseStrong(w, i).Success?
    ensures var w' := ReleaseStrong(w, i).value;
      && Consistent(w')
      && |w'.strongs| == |w.strongs| && IsNull(w'.strongs[i])
      && (forall j :: 0 <= j < |w.strongs| && j != i ==> w'.strongs[j] == w.strongs[j])
      && w'.weaks == w.weaks
  {
    var p := w.strongs[i];
    if p.block.None? {
      assert w.strongs[i := p] == w.strongs;
      return;
    }
    var b := p.block.value;
    var c := w.heap.blocks[b];
    RefsPositive(w.strongs, b);
    assert c.shared >= 1;
    var (h', q) := Shared.Release(w.heap, p).value;
    var s' := w.strongs[i := q];
    var w' := World(h', s', w.weaks);
    assert ReleaseStrong(w, i).value == w';
    RefsUpdate(w.strongs, i, q, b);
    forall b' | b' in h'.blocks
      ensures h'.blocks[b'].shared == Refs(s', b') && h'.blocks[b'].weak == Refs(w.weaks, b')
    {
      RefsUpdate(w.strongs, i, q, b');
      if b' != b {
        AgreeAway(w.heap.blocks, h'.blocks, b, b');
      }
    }
    if b !in h'.blocks {
      RefsPositive(s', b);
      RefsPositive(w.weaks, b);
    }
    forall j | 0 <= j < |s'|
      ensures Live(h', s'[j])
    {
      if j != i && s'[j].block.Some? && s'[j].block.value != b {
        AgreeAway(w.heap.blocks, h'.blocks, b, s'[j].block.value);
      }
    }
    forall k | 0 <= k < |w.weaks|
      ensures Live(h', w.weaks[k])
    {
      if w.weaks[k].block.Some? && w.weaks[k].block.value != b {
        AgreeAway(w.heap.blocks, h'.blocks, b, w.weaks[k].block.value);
      }
    }
    forall b'
      ensures DisposalsOf(h'.disposals, b') == ExpectedDisposals(h', b')
    {
      if c.shared == 1 {
        DisposalsAppend(w.heap.disposals, Disposal(b, p.target, p.strategy), b');
      }
      if b' != b {
        AgreeAway(w.heap.blocks, h'.blocks, b, b');
      }
    }
  }

  /** The weak release of slot `k` never throws; only slot `k` changes, and it ends null. */
  lemma ReleaseWeakPreserves(w: World, k: int)
    requires Consistent(w) && 0 <= k < |w.weaks|
    ensures ReleaseWeak(w, k).Success?
    ensures var w' := ReleaseWeak(w, k).value;
      && Consistent(w')
      && |w'.weaks| == |w.weaks| && IsNull(w'.weaks[k])
      && (forall l :: 0 <= l < |w.weaks| && l != k ==> w'.weaks[l] == w.weaks[l])
      && w'.strongs == w.strongs
      && w'.heap.disposals == w.heap.disposals
  {
    var p := w.weaks[k];
    if p.block.None? {
      assert w.weaks[k := p] == w.weaks;
      return;
    }
    var b := p.block.value;
    var c := w.heap.blocks[b];
    RefsPositive(w.weaks, b);
    assert c.weak >= 1;
    var (h', q) := Weak.Release(w.heap, p).value;
    var k' := w.weaks[k := q];
    var w' := World(h', w.strongs, k');
    assert ReleaseWeak(w, k).value == w';
    RefsUpdate(w.weaks, k, q, b);
    forall b' | b' in h'.blocks
      ensures h'.blocks[b'].shared == Refs(w.strongs, b') && h'.blocks[b'].weak == Refs(k', b')
    {
      RefsUpdate(w.weaks, k, q, b');
      if b' != b {
        AgreeAway(w.heap.blocks, h'.blocks, b, b');
      }
    }
    if b !in h'.blocks {
      RefsPositive(w.strongs, b);
      RefsPositive(k', b);
    }
    forall j | 0 <= j < |w.strongs|
      ensures Live(h', w.strongs[j])
    {
      if w.strongs[j].block.Some? && w.strongs[j].block.value != b {
        AgreeAway(w.heap.blocks, h'.blocks, b, w.strongs[j].block.value);
      }
    }
    forall l | 0 <= l < |k'|
      ensures Live(h', k'[l])
    {
      if l != k && k'[l].block.Some? && k'[l].block.value != b {
        AgreeAway(w.heap.blocks, h'.blocks, b, k'[l].block.value);
      }
    }
    forall b'
      ensures DisposalsOf(h'.disposals, b') == ExpectedDisposals(h', b')
    {
      if b' != b {
        AgreeAway(w.heap.blocks, h'.blocks, b, b');
      }
    }
  }

  /** Moving out of slot `i` into a new object relocates the pair and changes no count. */
  lemma MoveStrongPreserves(w: World, i: int)
    requires Consistent(w) && 0 <= i < |w.strongs|
    ensures var w' := MoveStrong(w, i);
      && Consistent(w')
      && w'.heap == w.heap
      && w'.strongs[|w.strongs|] == w.strongs[i]
      && Shared.UseCount(w'.heap, w'.strongs[i]) == 0
  {
    var p := w.strongs[i];
    var q := Null(p.strategy);
    var s' := w.strongs[i := q] + [p];
    forall b
      ensures Refs(s', b) == Refs(w.strongs, b)
    {
      RefsUpdate(w.strongs, i, q, b);
      RefsAppend(w.strongs[i := q], p, b);
    }
    Rearranged(w, s', w.weaks);
  }

  /** `swap` of two strong slots exchanges their pairs and changes no count. */
  lemma SwapStrongPreserves(w: World, i: int, j: int)
    requires Consistent(w) && 0 <= i < |w.strongs| && 0 <= j < |w.strongs|
    ensures var w' := SwapStrong(w, i, j);
      && Consistent(w')
      && w'.heap == w.heap
      && w'.strongs[i] == w.strongs[j] && w'.strongs[j] == w.strongs[i]
  {
    var s' := w.strongs[i := w.strongs[j]][j := w.strongs[i]];
    forall b
      ensures Refs(s', b) == Refs(w.strongs, b)
    {
      RefsSwap(w.strongs, i, j, b);
    }
    Rearranged(w, s', w.weaks);
  }

  lemma SwapWeakPreserves(w: World, k: int, l: int)
    requires Consistent(w) && 0 <= k < |w.weaks| && 0 <= l < |w.weaks|
    ensures var w' := SwapWeak(w, k, l);
      && Consistent(w')
      && w'.heap == w.heap
      && w'.weaks[k] == w.weaks[l] && w'.weaks[l] == w.weaks[k]
  {
    var k' := w.weaks[k := w.weaks[l]][l := w.weaks[k]];
    forall b
      ensures Refs(k', b) == Refs(w.weaks, b)
    {
      RefsSwap(w.weaks, k, l, b);
    }
    Rearranged(w, w.strongs, k');
  }

  /** Copy assignment between distinct strong objects: release the destination, then share the source's block. */
  lemma CopyAssignStrongPreserves(w: World, i: int, j: int)
    requires Consistent(w) && 0 <= i < |w.strongs| && 0 <= j < |w.strongs| && i != j
    requires w.strongs[j].block.Some? && w.strongs[i].strategy == w.strongs[j].strategy
    ensures CopyAssignStrong(w, i, j).Success?
    ensures var w' := CopyAssignStrong(w, i, j).value;
      && Consistent(w')
      && w'.strongs[i] == w.strongs[j] && w'.strongs[j] == w.strongs[j]
  {
    ReleaseStrongPreserves(w, i);
    var w1 := ReleaseStrong(w, i).value;
    var src := w.strongs[j];
    var b := src.block.value;
    assert w1.strongs[j] == src;
    RefsPositive(w1.strongs, b);
    var (h2, p) := Shared.Copy(w1.heap, src);
    FillSharing(w1, i, h2, p);
    assert w1.strongs[i := p] == w.strongs[i := src];
  }

  /** Move assignment: release the destination, then relocate the source's pair. */
  lemma MoveAssignStrongPreserves(w: World, i: int, j: int)
    requires Consistent(w) && 0 <= i < |w.strongs| && 0 <= j < |w.strongs|
    requires w.strongs[i].strategy == w.strongs[j].strategy
    ensures MoveAssignStrong(w, i, j).Success?
    ensures var w' := MoveAssignStrong(w, i, j).value;
      && Consistent(w')
      && IsNull(w'.strongs[j])
      && (i != j ==> w'.strongs == w.strongs[i := w.strongs[j]][j := Null(w.strongs[j].strategy)])
      && (forall m :: 0 <= m < |w.strongs| && m != i && m != j ==> w'.strongs[m] == w.strongs[m])
  {
    ReleaseStrongPreserves(w, i);
    if i == j {
      return;
    }
    var w1 := ReleaseStrong(w, i).value;
    var src := w.strongs[j];
    var q := Null(src.strategy);
    assert w1.strongs[j] == src;
    var s' := w1.strongs[i := src][j := q];
    forall b
      ensures Refs(s', b) == Refs(w1.strongs, b)
    {
      RefsUpdate(w1.strongs, i, src, b);
      RefsUpdate(w1.strongs[i := src], j, q, b);
    }
    Rearranged(w1, s', w1.weaks);
    assert s' == w.strongs[i := src][j := q];
  }

  /** `reset(ptr)`: release, then bind the slot to a fresh block. */
  lemma ResetStrongToPreserves(w: World, i: int, ptr: Address)
    requires Consistent(w) && 0 <= i < |w.strongs|
    ensures ResetStrongTo(w, i, ptr).Success?
    ensures var w' := ResetStrongTo(w, i, ptr).value;
      && Consistent(w')
      && w'.strongs[i].target == ptr && Shared.Unique(w'.heap, w'.strongs[i])
  {
    ReleaseStrongPreserves(w, i);
    var w1 := ReleaseStrong(w, i).value;
    var (h2, p) := Shared.Adopt(w1.heap, ptr, w.strongs[i].strategy);
    FillFresh(w1, i, h2, p);
    assert w1.strongs[i := p] == w.strongs[i := p];
  }

  lemma NewWeakPreserves(w: World, s: Strategy)
    requires Consistent(w)
    ensures Consistent(NewWeak(w, s))
    ensures Weak.Expired(NewWeak(w, s).heap, NewWeak(w, s).weaks[|w.weaks|])
  {
    ExtendWeak(w, s);
  }

  /** A weak handle from strong slot `i` observes the same pair; the shared count does not move. */
  lemma WeakFromStrongPreserves(w: World, i: int)
    requires Consistent(w) && 0 <= i < |w.strongs| && w.strongs[i].block.Some?
    ensures var w' := WeakFromStrong(w, i);
      && Consistent(w')
      && w'.weaks[|w.weaks|] == w.strongs[i]
      && Shared.UseCount(w'.heap, w'.weaks[|w.weaks|]) == Shared.UseCount(w.heap, w.strongs[i])
      && !Weak.Expired(w'.heap, w'.weaks[|w.weaks|])
  {
    var (h', p) := Weak.FromStrong(w.heap, w.strongs[i]);
    AppendWeak(w, h', p);
    RefsPositive(w.strongs, p.block.value);
  }

  lemma CopyWeakPreserves(w: World, k: int)
    requires Consistent(w) && 0 <= k < |w.weaks| && w.weaks[k].block.Some?
    ensures Consistent(CopyWeak(w, k))
    ensures CopyWeak(w, k).weaks[|w.weaks|] == w.weaks[k]
  {
    var (h', p) := Weak.Copy(w.heap, w.weaks[k]);
    AppendWeak(w, h', p);
  }

  /**
   * Weak copy assignment with the release: a temporary copy of the source,
   * then the release of the destination, then the copy moved into it.
   */
  lemma CopyAssignWeakPreserves(w: World, k: int, l: int)
    requires Consistent(w) && 0 <= k < |w.weaks| && 0 <= l < |w.weaks|
    requires w.weaks[l].block.Some? && w.weaks[k].strategy == w.weaks[l].strategy
    ensures CopyAssignWeak(w, k, l).Success?
    ensures var w' := CopyAssignWeak(w, k, l).value;
      && Consistent(w')
      && w'.weaks[k] == w.weaks[l]
      && w'.heap.disposals == w.heap.disposals
  {
    var src := w.weaks[l];
    var n := |w.weaks|;
    CopyWeakPreserves(w, l);
    var wA := CopyWeak(w, l);
    ReleaseWeakPreserves(wA, k);
    var wB := ReleaseWeak(wA, k).value;
    var k' := w.weaks[k := src];
    forall b
      ensures Refs(k', b) == Refs(wB.weaks, b)
    {
      RefsUpdate(w.weaks, k, src, b);
      RefsUpdate(wA.weaks, k, wB.weaks[k], b);
      RefsAppend(w.weaks, src, b);
    }
    forall m | 0 <= m < |k'|
      ensures Live(wB.heap, k'[m])
    {
      if m == k {
        assert wB.weaks[n] == src;
      } else {
        assert wB.weaks[m] == k'[m];
      }
    }
    Rearranged(wB, wB.strongs, k');
  }

  /** `lock()`: a fresh default handle when expired, else one more owner of the same pair. */
  lemma LockWeakPreserves(w: World, k: int)
    requires Consistent(w) && 0 <= k < |w.weaks|
    ensures var w' := LockWeak(w, k);
      && Consistent(w')
      && (!Weak.Expired(w.heap, w.weaks[k]) ==> w'.strongs[|w.strongs|] == w.weaks[k])
      && (Weak.Expired(w.heap, w.weaks[k]) ==> w'.strongs[|w.strongs|].target == NULL)
  {
    var wk := w.weaks[k];
    var (h', p) := Weak.Lock(w.heap, wk);
    if Weak.Expired(w.heap, wk) {
      AppendFresh(w, h', p);
    } else {
      AppendSharing(w, h', p);
    }
  }

  /** Guarded promotion: an empty strong handle when expired, else one more owner of the same pair. */
  lemma PromoteWeakPreserves(w: World, k: int)
    requires Consistent(w) && 0 <= k < |w.weaks|
    ensures var w' := PromoteWeak(w, k);
      && Consistent(w')
      && (!Weak.Expired(w.heap, w.weaks[k]) ==> w'.strongs[|w.strongs|] == w.weaks[k])
      && (Weak.Expired(w.heap, w.weaks[k]) ==> IsNull(w'.strongs[|w.strongs|]))
  {
    var wk := w.weaks[k];
    var (h', p) := Weak.Promote(w.heap, wk);
    if Weak.Expired(w.heap, wk) {
      ExtendStrong(w, wk.strategy);
    } else {
      AppendSharing(w, h', p);
    }
  }

  /**
   * The theorem: from a consistent world, every enabled operation completes
   * without a `logic_error` and yields a consistent world. `make_shared`, weak
   * copy assignment, weak release and promotion are taken in their corrected
   * forms; the as-written forms break consistency (see `Findings`).
   */
  lemma StepPreserves(w: World, op: Op)
    requires Consistent(w) && Enabled(w, op)
    ensures Step(w, op).Success? && Consistent(Step(w, op).value)
  {
    match op
    case NewStrongOp(ptr, s) => NewStrongPreserves(w, ptr, s);
    case MakeStrongOp(obj, s) => MakeStrongPreserves(w, obj, s);
    case CopyStrongOp(i) => CopyStrongPreserves(w, i);
    case MoveStrongOp(i) => MoveStrongPreserves(w, i);
    case CopyAssignStrongOp(i, j) => CopyAssignStrongPreserves(w, i, j);
    case MoveAssignStrongOp(i, j) => MoveAssignStrongPreserves(w, i, j);
    case ReleaseStrongOp(i) => ReleaseStrongPreserves(w, i);
    case ResetStrongToOp(i, ptr) => ResetStrongToPreserves(w, i, ptr);
    case SwapStrongOp(i, j) => SwapStrongPreserves(w, i, j);
    case NewWeakOp(s) => NewWeakPreserves(w, s);
    case WeakFromStrongOp(i) => WeakFromStrongPreserves(w, i);
    case CopyWeakOp(k) => CopyWeakPreserves(w, k);
    case CopyAssignWeakOp(k, l) => CopyAssignWeakPreserves(w, k, l);
    case ReleaseWeakOp(k) => ReleaseWeakPreserves(w, k);
    case SwapWeakOp(k, l) => SwapWeakPreserves(w, k, l);
    case LockWeakOp(k) => LockWeakPreserves(w, k);
    case PromoteWeakOp(k) => PromoteWeakPreserves(w, k);
  }

  /** Runs `ops` from `w`, stopping at the first operation that is not enabled. */
  function Run(w: World, ops: seq<Op>): (r: World)
    requires Consistent(w)
    ensures Consistent(r)
    decreases |ops|
  {
    if |ops| == 0 || !Enabled(w, ops[0]) then w
    else
      StepPreserves(w, ops[0]);
      Run(Step(w, ops[0]).value, ops[1..])
  }

  /** In a consistent world a strong handle reports no owner exactly when its block pointer is null. */
  lemma UseCountZeroIffNull(w: World, i: int)
    requires Consistent(w) && 0 <= i < |w.strongs|
    ensures Shared.UseCount(w.heap, w.strongs[i]) == 0 <==> IsNull(w.strongs[i])
  {
    if w.strongs[i].block.Some? {
      RefsPositive(w.strongs, w.strongs[i].block.value);
    }
  }

  /** A bound weak handle is expired exactly when no strong handle points at its block. */
  lemma ExpiredIffNoOwner(w: World, k: int)
    requires Consistent(w) && 0 <= k < |w.weaks| && w.weaks[k].block.Some?
    ensures Weak.Expired(w.heap, w.weaks[k]) <==>
              forall i :: 0 <= i < |w.strongs| ==> w.strongs[i].block != w.weaks[k].block
  {
    RefsPositive(w.strongs, w.weaks[k].block.value);
  }

  /**
   * No block's target is disposed twice, and none while the block has an
   * owner. Two blocks adopting the same raw address are a separate matter.
   */
  lemma DisposedAtMostOnce(w: World, b: BlockId)
    requires Consistent(w)
    ensures DisposalsOf(w.heap.disposals, b) <= 1
    ensures b in w.heap.blocks && w.heap.blocks[b].shared > 0 ==> DisposalsOf(w.heap.disposals, b) == 0
  {
  }

  /** A block is allocated exactly when some handle points at it: in a consistent world nothing leaks and nothing dangles. */
  lemma AllocatedIffReferenced(w: World, b: BlockId)
    requires Consistent(w)
    ensures b in w.heap.blocks <==>
              (exists i :: 0 <= i < |w.strongs| && w.strongs[i].block == Some(b))
              || (exists k :: 0 <= k < |w.weaks| && w.weaks[k].block == Some(b))
  {
    RefsPositive(w.strongs, b);
    RefsPositive(w.weaks, b);
    if b !in w.heap.blocks {
      AbsentUnreferenced(w, b);
    }
  }
}
