/**
 * The behaviours the test suite checks, stated for every input rather than for
 * one run. The scenarios around `make_shared` (`CopyReportsSameCount`,
 * `CopiesDisposeOnce`, `DefaultThenAssigned`) are stated on the heap, with the
 * factory as written. The others are stated for every consistent world, so
 * the handles in them come from the single-block factory; the block the
 * factory as written leaves behind is one no handle points at, and its counts
 * are not among those these lemmas read.
 */
module Scenarios {
  import opened Wrappers
  import opened RefCounter
  import opened Memory
  import opened Ownership
  import opened Invariants
  import Shared
  import Weak
  import Factory

  /**
   * `make_shared`, then a copy of its result: both report two owners and
   * compare equal. The block the default handle left behind is still there.
   */
  lemma CopyReportsSameCount(h: Heap, obj: Address)
    requires Valid(h) && obj != NULL
    ensures var (h1, p) := Factory.MakeShared(h, obj);
      var (h2, q) := Shared.Copy(h1, p);
      && Shared.UseCount(h2, p) == 2 && Shared.UseCount(h2, q) == 2
      && Shared.Eq(p, q) && Shared.Get(q) == obj
      && h.next in h2.blocks && Some(h.next) != q.block
  {
  }

  /**
   * Of two copies sharing a block that counts just them, moving a third handle
   * into one of them leaves the other the unique owner.
   */
  lemma AssignLeavesOtherUnique(w: World, i: int, j: int, m: int)
    requires Consistent(w)
    requires 0 <= i < |w.strongs| && 0 <= j < |w.strongs| && 0 <= m < |w.strongs|
    requires i != j && j != m && i != m
    requires w.strongs[i].block.Some? && w.strongs[j].block == w.strongs[i].block
    requires Shared.UseCount(w.heap, w.strongs[i]) == 2
    requires w.strongs[j].strategy == w.strongs[m].strategy
    ensures MoveAssignStrong(w, j, m).Success?
    ensures var w' := MoveAssignStrong(w, j, m).value;
      && Shared.Unique(w'.heap, w'.strongs[i])
      && w'.strongs[j] == w.strongs[m]
  {
    var b := w.strongs[i].block.value;
    var q := Null(w.strongs[i].strategy);
    RefsUpdate(w.strongs, i, q, b);
    RefsTwo(w.strongs[i := q], j, m, b);
    assert w.strongs[m].block != Some(b);
    MoveAssignStrongPreserves(w, j, m);
    var w' := MoveAssignStrong(w, j, m).value;
    var s1 := w.strongs[j := w.strongs[m]];
    RefsUpdate(w.strongs, j, w.strongs[m], b);
    RefsUpdate(s1, m, Null(w.strongs[m].strategy), b);
    assert w'.strongs[i] == w.strongs[i];
  }

  /** A weak handle built from the unique owner reports the same single owner. */
  lemma WeakReportsSharedCount(w: World, i: int)
    requires Consistent(w) && 0 <= i < |w.strongs| && w.strongs[i].block.Some?
    requires Shared.Unique(w.heap, w.strongs[i])
    ensures var w' := WeakFromStrong(w, i);
      Shared.UseCount(w'.heap, w'.weaks[|w.weaks|]) == 1 == Shared.UseCount(w'.heap, w'.strongs[i])
  {
  }

  /**
   * Once the only owner of a block a weak handle observes is released, the
   * weak handle is expired, and `lock()` yields a handle to no target.
   */
  lemma LastOwnerGoneExpires(w: World, i: int)
    requires Consistent(w) && 0 <= i < |w.strongs| && w.strongs[i].block.Some?
    requires Shared.Unique(w.heap, w.strongs[i])
    ensures var w1 := WeakFromStrong(w, i);
      && !Weak.Expired(w1.heap, w1.weaks[|w.weaks|])
      && ReleaseStrong(w1, i).Success?
      && var w2 := ReleaseStrong(w1, i).value;
         && Weak.Expired(w2.heap, w2.weaks[|w.weaks|])
         && !Shared.ToBool(LockWeak(w2, |w.weaks|).strongs[|w.strongs|])
  {
    WeakFromStrongPreserves(w, i);
    var w1 := WeakFromStrong(w, i);
    ReleaseStrongPreserves(w1, i);
    var w2 := ReleaseStrong(w1, i).value;
    RefsUpdate(w1.strongs, i, w2.strongs[i], w.strongs[i].block.value);
    LockWeakPreserves(w2, |w.weaks|);
  }

  /** `lock()` on a live weak handle gives an owner that is not unique. */
  lemma LockIsNotUnique(w: World, k: int)
    requires Consistent(w) && 0 <= k < |w.weaks| && !Weak.Expired(w.heap, w.weaks[k])
    ensures var w' := LockWeak(w, k);
      !Shared.Unique(w'.heap, w'.strongs[|w.strongs|]) && Shared.Eq(w'.strongs[|w.strongs|], w.weaks[k])
  {
  }

  /**
   * `make_shared`, a copy, and both released in the order they leave scope:
   * the target is disposed once, with `delete`, and the result's block is
   * deleted, while the default handle's block stays allocated at (1, 0).
   */
  lemma CopiesDisposeOnce(h: Heap, obj: Address)
    requires Valid(h) && obj != NULL
    ensures var (h1, p) := Factory.MakeShared(h, obj);
      var (h2, q) := Shared.Copy(h1, p);
      && p.block.Some?
      && Shared.Release(h2, q).Success?
      && Live(Shared.Release(h2, q).value.0, p)
      && Shared.Release(Shared.Release(h2, q).value.0, p).Success?
      && var h4 := Shared.Release(Shared.Release(h2, q).value.0, p).value.0;
         && h4.disposals == h.disposals + [Disposal(p.block.value, obj, PtrStrategy)]
         && p.block.value !in h4.blocks
         && h.next in h4.blocks && h4.blocks[h.next] == Counter(1, 0)
  {
    var (h1, p) := Factory.MakeShared(h, obj);
    var b := p.block.value;
    assert h1.blocks[b] == Counter(1, 0) && h.next != b;
    var (h2, q) := Shared.Copy(h1, p);
    assert h2.blocks[b] == Counter(2, 0);
    var h3 := Shared.Release(h2, q).value.0;
    assert h3.blocks[b] == Counter(1, 0);
    assert h3.disposals == h.disposals;
    assert h.next in h3.blocks - {b};
  }

  /**
   * A default handle converts to false; after `make_shared`'s result is moved
   * into it, it converts to true and owns the new target alone.
   */
  lemma DefaultThenAssigned(h: Heap, obj: Address)
    requires Valid(h) && obj != NULL
    ensures var (h1, p) := Shared.Default(h, PtrStrategy);
      var (h2, q) := Factory.MakeShared(h1, obj);
      && !Shared.ToBool(p)
      && Shared.MoveAssign(h2, p, q).Success?
      && var (h3, p3, q3) := Shared.MoveAssign(h2, p, q).value;
         && Shared.ToBool(p3) && Shared.Get(p3) == obj
         && Live(h3, p3) && Shared.Unique(h3, p3)
         && !Shared.ToBool(q3)
  {
    var (h1, p) := Shared.Default(h, PtrStrategy);
    var (h2, q) := Factory.MakeShared(h1, obj);
    assert p.block.value in h2.blocks;
    assert q.block.value != p.block.value;
  }
}
