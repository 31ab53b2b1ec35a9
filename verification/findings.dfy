/**
 * Four places where `shared_ptr.h` as written breaks the invariant of
 * `Ownership.Consistent`, each shown on the as-written function, next to the
 * corrected function that keeps it.
 */
module Findings {
  import opened Wrappers
  import opened RefCounter
  import opened Memory
  import opened Ownership
  import opened Invariants
  import Shared
  import Weak
  import Factory

  /**
   * The constructor from a weak handle, on an expired handle, revives the
   * block with one owner; releasing that owner disposes the target again.
   */
  lemma PromoteExpiredDisposesTwice(w: World, k: int)
    requires Consistent(w) && 0 <= k < |w.weaks| && w.weaks[k].block.Some?
    requires Weak.Expired(w.heap, w.weaks[k])
    ensures var (h1, p) := Shared.FromWeak(w.heap, w.weaks[k]);
      && Shared.UseCount(h1, p) == 1
      && Shared.Release(h1, p).Success?
      && DisposalsOf(Shared.Release(h1, p).value.0.disposals, w.weaks[k].block.value) == 2
  {
    var b := w.weaks[k].block.value;
    assert ExpectedDisposals(w.heap, b) == 1;
    var (h1, p) := Shared.FromWeak(w.heap, w.weaks[k]);
    DisposalsAppend(h1.disposals, Disposal(b, p.target, p.strategy), b);
  }

  /** The world of the test that lets a weak handle outlive its only strong handle. */
  function Outlived(ptr: Address, s: Strategy): World {
    var w1 := NewStrong(Init(), ptr, s);
    var w2 := WeakFromStrong(w1, 0);
    ReleaseStrong(w2, 0).value
  }

  /** That world is reachable, consistent, and holds a bound, expired weak handle. */
  lemma OutlivedIsExpired(ptr: Address, s: Strategy)
    ensures var w := Outlived(ptr, s);
      && Consistent(w) && |w.weaks| == 1 && w.weaks[0].block.Some?
      && Weak.Expired(w.heap, w.weaks[0])
  {
    InitConsistent();
    NewStrongPreserves(Init(), ptr, s);
    var w1 := NewStrong(Init(), ptr, s);
    WeakFromStrongPreserves(w1, 0);
    var w2 := WeakFromStrong(w1, 0);
    ReleaseStrongPreserves(w2, 0);
    var w3 := ReleaseStrong(w2, 0).value;
    ExpiredIffNoOwner(w3, 0);
  }

  /**
   * Weak copy assignment as written, between handles on different blocks,
   * leaves the destination's old block with one weak count more than the weak
   * handles pointing at it, so that block is never deleted.
   */
  lemma WeakAssignAsWrittenLeaks(w: World, k: int, l: int)
    requires Consistent(w) && 0 <= k < |w.weaks| && 0 <= l < |w.weaks|
    requires w.weaks[k].block.Some? && w.weaks[l].block.Some? && w.weaks[k].block != w.weaks[l].block
    requires w.weaks[k].strategy == w.weaks[l].strategy
    ensures var (h', p) := Weak.CopyAssignAsWritten(w.heap, w.weaks[k], w.weaks[l]);
      var w' := World(h', w.strongs, w.weaks[k := p]);
      var d := w.weaks[k].block.value;
      && d in h'.blocks
      && h'.blocks[d].weak == Refs(w'.weaks, d) + 1
      && !Consistent(w')
  {
    var d := w.weaks[k].block.value;
    var (h', p) := Weak.CopyAssignAsWritten(w.heap, w.weaks[k], w.weaks[l]);
    RefsUpdate(w.weaks, k, p, d);
  }

  /**
   * `make_shared` and `make_shared_array` as written leave the default
   * handle's block allocated with a shared count of one and no handle at all.
   */
  lemma MakeSharedAsWrittenLeaks(w: World, obj: Address, s: Strategy)
    requires Consistent(w) && obj != NULL
    ensures var (h', p) := Factory.MakeAsWritten(w.heap, obj, s);
      var w' := World(h', w.strongs + [p], w.weaks);
      var orphan := w.heap.next;
      && orphan in h'.blocks && h'.blocks[orphan].shared == 1
      && Refs(w'.strongs, orphan) == 0 && Refs(w'.weaks, orphan) == 0
      && !Consistent(w')
  {
    var orphan := w.heap.next;
    var (h', p) := Factory.MakeAsWritten(w.heap, obj, s);
    AbsentUnreferenced(w, orphan);
    RefsAppend(w.strongs, p, orphan);
  }

  /**
   * A default weak handle is outside the as-written release's domain, yet
   * every program that constructs one destroys it; the guarded release lets a
   * consistent world do so.
   */
  lemma DefaultWeakDestroyed(w: World, s: Strategy)
    requires Consistent(w)
    ensures var w1 := NewWeak(w, s);
      && w1.weaks[|w.weaks|].block.None?
      && ReleaseWeak(w1, |w.weaks|).Success?
      && ReleaseWeak(w1, |w.weaks|).value.heap == w.heap
  {
    NewWeakPreserves(w, s);
    ReleaseWeakPreserves(NewWeak(w, s), |w.weaks|);
  }
}
