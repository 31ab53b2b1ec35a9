/**
 * All handles of one block share one target and one strategy, and every
 * disposal of a block is of that target with that strategy. `Consistent`
 * counts disposals per block; this invariant says whose target they dispose.
 * Every slot operation keeps it, because a handle only ever gets a pair that
 * another handle already had or a block that did not exist before.
 */
module Coherence {
  import opened Wrappers
  import opened RefCounter
  import opened Memory
  import opened Ownership
  import opened Invariants
  import Shared
  import Weak
  import Factory

  /** The handles of `hs` that point at a block. */
  ghost function Bound(hs: seq<Handle>): set<Handle> {
    set i | 0 <= i < |hs| && hs[i].block.Some? :: hs[i]
  }

  /** `{x}` when `x` points at a block, else nothing. */
  ghost function Lone(x: Handle): set<Handle> {
    if x.block.Some? then {x} else {}
  }

  /** Every strong and weak handle of the world that points at a block. */
  ghost function Bindings(w: World): set<Handle> {
    Bound(w.strongs) + Bound(w.weaks)
  }

  /** Two handles on one block hold the same target with the same strategy. */
  predicate SameBinding(p: Handle, q: Handle) {
    p.block == q.block ==> p.target == q.target && p.strategy == q.strategy
  }

  /** A disposal of `p`'s block deleted `p`'s target with `p`'s strategy. */
  predicate DisposalAgrees(p: Handle, d: Disposal) {
    p.block == Some(d.block) ==> d.target == p.target && d.strategy == p.strategy
  }

  /** The `dispose` call a release of `p` makes. */
  function DisposalOf(p: Handle): (d: Disposal)
    requires p.block.Some?
    ensures DisposalAgrees(p, d) && d.block == p.block.value
  {
    Disposal(p.block.value, p.target, p.strategy)
  }

  ghost predicate Coherent(w: World) {
    && (forall p, q :: p in Bindings(w) && q in Bindings(w) ==> SameBinding(p, q))
    && (forall p, d :: p in Bindings(w) && d in w.heap.disposals ==> DisposalAgrees(p, d))
  }

  lemma InitCoherent()
    ensures Coherent(Init())
  {
  }

  lemma BoundAppend(hs: seq<Handle>, x: Handle)
    ensures Bound(hs + [x]) == Bound(hs) + Lone(x)
  {
    var hs' := hs + [x];
    forall q | q in Bound(hs')
      ensures q in Bound(hs) + Lone(x)
    {
      var i :| 0 <= i < |hs'| && hs'[i].block.Some? && q == hs'[i];
      if i < |hs| {
        assert hs[i] == q;
      }
    }
    forall q | q in Bound(hs)
      ensures q in Bound(hs')
    {
      var i :| 0 <= i < |hs| && hs[i].block.Some? && q == hs[i];
      assert hs'[i] == q;
    }
    if x.block.Some? {
      assert hs'[|hs|] == x;
    }
  }

  lemma BoundUpdate(hs: seq<Handle>, i: int, x: Handle)
    requires 0 <= i < |hs|
    ensures Bound(hs[i := x]) <= Bound(hs) + Lone(x)
  {
    var hs' := hs[i := x];
    forall q | q in Bound(hs')
      ensures q in Bound(hs) + Lone(x)
    {
      var j :| 0 <= j < |hs'| && hs'[j].block.Some? && q == hs'[j];
      if j != i {
        assert hs[j] == q;
      }
    }
  }

  /** A slot's handle, when bound, is one of the bound handles. */
  lemma BoundHas(hs: seq<Handle>, i: int)
    requires 0 <= i < |hs|
    ensures Lone(hs[i]) <= Bound(hs)
  {
    if hs[i].block.Some? {
      assert hs[i] in Bound(hs);
    }
  }

  lemma BoundSwap(hs: seq<Handle>, i: int, j: int)
    requires 0 <= i < |hs| && 0 <= j < |hs|
    ensures Bound(hs[i := hs[j]][j := hs[i]]) <= Bound(hs)
  {
    BoundUpdate(hs, i, hs[j]);
    BoundUpdate(hs[i := hs[j]], j, hs[i]);
    BoundHas(hs, i);
    BoundHas(hs, j);
  }

  /** A log that disposes block `b` no times holds no disposal of `b`. */
  lemma {:induction false} NoneDisposed(log: seq<Disposal>, b: BlockId)
    requires DisposalsOf(log, b) == 0
    ensures forall d :: d in log ==> d.block != b
    decreases |log|
  {
    if |log| > 0 {
      var n := |log| - 1;
      NoneDisposed(log[..n], b);
      forall d | d in log
        ensures d.block != b
      {
        var j :| 0 <= j < |log| && log[j] == d;
        if j < n {
          assert log[..n][j] == d;
        }
      }
    }
  }

  /** Nothing in a consistent world names the block the allocator hands out next. */
  lemma FreshUnbound(w: World)
    requires Consistent(w)
    ensures forall q :: q in Bindings(w) ==> q.block != Some(w.heap.next)
    ensures forall d :: d in w.heap.disposals ==> d.block != w.heap.next
  {
    forall q | q in Bindings(w)
      ensures q.block != Some(w.heap.next)
    {
      if q in Bound(w.strongs) {
        var i :| 0 <= i < |w.strongs| && w.strongs[i].block.Some? && q == w.strongs[i];
        assert Live(w.heap, w.strongs[i]);
      } else {
        var k :| 0 <= k < |w.weaks| && w.weaks[k].block.Some? && q == w.weaks[k];
        assert Live(w.heap, w.weaks[k]);
      }
    }
    assert DisposalsOf(w.heap.disposals, w.heap.next) == ExpectedDisposals(w.heap, w.heap.next) == 0;
    NoneDisposed(w.heap.disposals, w.heap.next);
  }

  /**
   * A step keeps coherence when every bound handle afterwards was bound before
   * or holds the block allocated next, and the log grows at most by the disposal of a
   * handle bound before.
   */
  lemma CoherentStep(w: World, w': World, born: set<Handle>, p: Handle)
    requires Consistent(w) && Coherent(w)
    requires Bindings(w') <= Bindings(w) + born
    requires forall q :: q in born ==> q.block == Some(w.heap.next)
    requires forall q, r :: q in born && r in born ==> q == r
    requires || w'.heap.disposals == w.heap.disposals
             || (p in Bindings(w) && p.block.Some? && w'.heap.disposals == w.heap.disposals + [DisposalOf(p)])
    ensures Coherent(w')
  {
    FreshUnbound(w);
    forall q, d | q in Bindings(w') && d in w'.heap.disposals
      ensures DisposalAgrees(q, d)
    {
      if d !in w.heap.disposals {
        assert d == DisposalOf(p);
      }
    }
  }

  /** `CoherentStep` for a step that disposes nothing. */
  lemma NoDisposal(w: World, w': World, born: set<Handle>)
    requires Consistent(w) && Coherent(w)
    requires Bindings(w') <= Bindings(w) + born
    requires forall q :: q in born ==> q.block == Some(w.heap.next)
    requires forall q, r :: q in born && r in born ==> q == r
    requires w'.heap.disposals == w.heap.disposals
    ensures Coherent(w')
  {
    CoherentStep(w, w', born, Null(PtrStrategy));
  }

  lemma NewStrongCoherent(w: World, ptr: Address, s: Strategy)
    requires Consistent(w) && Coherent(w)
    ensures Coherent(NewStrong(w, ptr, s))
  {
    var (h', p) := Shared.Adopt(w.heap, ptr, s);
    BoundAppend(w.strongs, p);
    NoDisposal(w, NewStrong(w, ptr, s), {p});
  }

  lemma MakeStrongCoherent(w: World, obj: Address, s: Strategy)
    requires Consistent(w) && Coherent(w) && obj != NULL
    ensures Coherent(MakeStrong(w, obj, s))
  {
    var (h', p) := Factory.MakeSharedFixed(w.heap, obj, s);
    BoundAppend(w.strongs, p);
    NoDisposal(w, MakeStrong(w, obj, s), {p});
  }

  lemma CopyStrongCoherent(w: World, i: int)
    requires Consistent(w) && Coherent(w) && 0 <= i < |w.strongs| && w.strongs[i].block.Some?
    ensures Coherent(CopyStrong(w, i))
  {
    BoundAppend(w.strongs, w.strongs[i]);
    BoundHas(w.strongs, i);
    NoDisposal(w, CopyStrong(w, i), {});
  }

  lemma MoveStrongCoherent(w: World, i: int)
    requires Consistent(w) && Coherent(w) && 0 <= i < |w.strongs|
    ensures Coherent(MoveStrong(w, i))
  {
    var q := Null(w.strongs[i].strategy);
    BoundUpdate(w.strongs, i, q);
    BoundAppend(w.strongs[i := q], w.strongs[i]);
    BoundHas(w.strongs, i);
    NoDisposal(w, MoveStrong(w, i), {});
  }

  lemma ReleaseStrongCoherent(w: World, i: int)
    requires Consistent(w) && Coherent(w) && 0 <= i < |w.strongs|
    ensures ReleaseStrong(w, i).Success? && Coherent(ReleaseStrong(w, i).value)
  {
    ReleaseStrongPreserves(w, i);
    var p := w.strongs[i];
    var (h', p') := Shared.Release(w.heap, p).value;
    BoundUpdate(w.strongs, i, p');
    BoundHas(w.strongs, i);
    if p.block.Some? {
      assert p in Bindings(w);
    }
    CoherentStep(w, ReleaseStrong(w, i).value, {}, p);
  }

  lemma CopyAssignStrongCoherent(w: World, i: int, j: int)
    requires Consistent(w) && Coherent(w)
    requires 0 <= i < |w.strongs| && 0 <= j < |w.strongs| && i != j
    requires w.strongs[j].block.Some? && w.strongs[i].strategy == w.strongs[j].strategy
    ensures CopyAssignStrong(w, i, j).Success? && Coherent(CopyAssignStrong(w, i, j).value)
  {
    CopyAssignStrongPreserves(w, i, j);
    var dst := w.strongs[i];
    var src := w.strongs[j];
    BoundUpdate(w.strongs, i, src);
    BoundHas(w.strongs, j);
    if dst.block.Some? {
      BoundHas(w.strongs, i);
      assert dst in Bindings(w);
    }
    CoherentStep(w, CopyAssignStrong(w, i, j).value, {}, dst);
  }

  lemma MoveAssignStrongCoherent(w: World, i: int, j: int)
    requires Consistent(w) && Coherent(w)
    requires 0 <= i < |w.strongs| && 0 <= j < |w.strongs|
    requires w.strongs[i].strategy == w.strongs[j].strategy
    ensures MoveAssignStrong(w, i, j).Success? && Coherent(MoveAssignStrong(w, i, j).value)
  {
    MoveAssignStrongPreserves(w, i, j);
    if i == j {
      ReleaseStrongCoherent(w, i);
    } else {
      var dst := w.strongs[i];
      var src := w.strongs[j];
      var q := Null(src.strategy);
      BoundUpdate(w.strongs, i, src);
      BoundUpdate(w.strongs[i := src], j, q);
      BoundHas(w.strongs, j);
      if dst.block.Some? {
        BoundHas(w.strongs, i);
        assert dst in Bindings(w);
      }
      CoherentStep(w, MoveAssignStrong(w, i, j).value, {}, dst);
    }
  }

  lemma ResetStrongToCoherent(w: World, i: int, ptr: Address)
    requires Consistent(w) && Coherent(w) && 0 <= i < |w.strongs|
    ensures ResetStrongTo(w, i, ptr).Success? && Coherent(ResetStrongTo(w, i, ptr).value)
  {
    ResetStrongToPreserves(w, i, ptr);
    var p := w.strongs[i];
    var h1 := Shared.Release(w.heap, p).value.0;
    var (h', q) := Shared.Adopt(h1, ptr, p.strategy);
    assert h1.next == w.heap.next;
    BoundUpdate(w.strongs, i, q);
    if p.block.Some? {
      BoundHas(w.strongs, i);
      assert p in Bindings(w);
    }
    CoherentStep(w, ResetStrongTo(w, i, ptr).value, {q}, p);
  }

  lemma SwapStrongCoherent(w: World, i: int, j: int)
    requires Consistent(w) && Coherent(w) && 0 <= i < |w.strongs| && 0 <= j < |w.strongs|
    ensures Coherent(SwapStrong(w, i, j))
  {
    BoundSwap(w.strongs, i, j);
    NoDisposal(w, SwapStrong(w, i, j), {});
  }

  lemma NewWeakCoherent(w: World, s: Strategy)
    requires Consistent(w) && Coherent(w)
    ensures Coherent(NewWeak(w, s))
  {
    BoundAppend(w.weaks, Null(s));
    NoDisposal(w, NewWeak(w, s), {});
  }

  lemma WeakFromStrongCoherent(w: World, i: int)
    requires Consistent(w) && Coherent(w) && 0 <= i < |w.strongs| && w.strongs[i].block.Some?
    ensures Coherent(WeakFromStrong(w, i))
  {
    BoundAppend(w.weaks, w.strongs[i]);
    BoundHas(w.strongs, i);
    NoDisposal(w, WeakFromStrong(w, i), {});
  }

  lemma CopyWeakCoherent(w: World, k: int)
    requires Consistent(w) && Coherent(w) && 0 <= k < |w.weaks| && w.weaks[k].block.Some?
    ensures Coherent(CopyWeak(w, k))
  {
    BoundAppend(w.weaks, w.weaks[k]);
    BoundHas(w.weaks, k);
    NoDisposal(w, CopyWeak(w, k), {});
  }

  lemma CopyAssignWeakCoherent(w: World, k: int, l: int)
    requires Consistent(w) && Coherent(w) && 0 <= k < |w.weaks| && 0 <= l < |w.weaks|
    requires w.weaks[l].block.Some? && w.weaks[k].strategy == w.weaks[l].strategy
    ensures CopyAssignWeak(w, k, l).Success? && Coherent(CopyAssignWeak(w, k, l).value)
  {
    CopyAssignWeakPreserves(w, k, l);
    BoundUpdate(w.weaks, k, w.weaks[l]);
    BoundHas(w.weaks, l);
    NoDisposal(w, CopyAssignWeak(w, k, l).value, {});
  }

  lemma ReleaseWeakCoherent(w: World, k: int)
    requires Consistent(w) && Coherent(w) && 0 <= k < |w.weaks|
    ensures ReleaseWeak(w, k).Success? && Coherent(ReleaseWeak(w, k).value)
  {
    ReleaseWeakPreserves(w, k);
    var (h', p') := Weak.Release(w.heap, w.weaks[k]).value;
    BoundUpdate(w.weaks, k, p');
    BoundHas(w.weaks, k);
    NoDisposal(w, ReleaseWeak(w, k).value, {});
  }

  lemma SwapWeakCoherent(w: World, k: int, l: int)
    requires Consistent(w) && Coherent(w) && 0 <= k < |w.weaks| && 0 <= l < |w.weaks|
    ensures Coherent(SwapWeak(w, k, l))
  {
    BoundSwap(w.weaks, k, l);
    NoDisposal(w, SwapWeak(w, k, l), {});
  }

  lemma LockWeakCoherent(w: World, k: int)
    requires Consistent(w) && Coherent(w) && 0 <= k < |w.weaks|
    ensures Coherent(LockWeak(w, k))
  {
    var (h', p) := Weak.Lock(w.heap, w.weaks[k]);
    BoundAppend(w.strongs, p);
    BoundHas(w.weaks, k);
    if Weak.Expired(w.heap, w.weaks[k]) {
      NoDisposal(w, LockWeak(w, k), {p});
    } else {
      NoDisposal(w, LockWeak(w, k), {});
    }
  }

  lemma PromoteWeakCoherent(w: World, k: int)
    requires Consistent(w) && Coherent(w) && 0 <= k < |w.weaks|
    ensures Coherent(PromoteWeak(w, k))
  {
    var (h', p) := Weak.Promote(w.heap, w.weaks[k]);
    BoundAppend(w.strongs, p);
    BoundHas(w.weaks, k);
    NoDisposal(w, PromoteWeak(w, k), {});
  }

  /** Every enabled operation keeps a consistent, coherent world coherent. */
  lemma StepCoherent(w: World, op: Op)
    requires Consistent(w) && Coherent(w) && Enabled(w, op)
    ensures Step(w, op).Success? && Coherent(Step(w, op).value)
  {
    match op
    case NewStrongOp(ptr, s) => NewStrongCoherent(w, ptr, s);
    case MakeStrongOp(obj, s) => MakeStrongCoherent(w, obj, s);
    case CopyStrongOp(i) => CopyStrongCoherent(w, i);
    case MoveStrongOp(i) => MoveStrongCoherent(w, i);
    case CopyAssignStrongOp(i, j) => CopyAssignStrongCoherent(w, i, j);
    case MoveAssignStrongOp(i, j) => MoveAssignStrongCoherent(w, i, j);
    case ReleaseStrongOp(i) => ReleaseStrongCoherent(w, i);
    case ResetStrongToOp(i, ptr) => ResetStrongToCoherent(w, i, ptr);
    case SwapStrongOp(i, j) => SwapStrongCoherent(w, i, j);
    case NewWeakOp(s) => NewWeakCoherent(w, s);
    case WeakFromStrongOp(i) => WeakFromStrongCoherent(w, i);
    case CopyWeakOp(k) => CopyWeakCoherent(w, k);
    case CopyAssignWeakOp(k, l) => CopyAssignWeakCoherent(w, k, l);
    case ReleaseWeakOp(k) => ReleaseWeakCoherent(w, k);
    case SwapWeakOp(k, l) => SwapWeakCoherent(w, k, l);
    case LockWeakOp(k) => LockWeakCoherent(w, k);
    case PromoteWeakOp(k) => PromoteWeakCoherent(w, k);
  }

  /** Any run from a consistent, coherent world ends consistent and coherent. */
  lemma {:induction false} RunCoherent(w: World, ops: seq<Op>)
    requires Consistent(w) && Coherent(w)
    ensures Coherent(Run(w, ops))
    decreases |ops|
  {
    if |ops| > 0 && Enabled(w, ops[0]) {
      StepPreserves(w, ops[0]);
      StepCoherent(w, ops[0]);
      RunCoherent(Step(w, ops[0]).value, ops[1..]);
    }
  }

  /**
   * A bound handle whose block has no owner left: the log holds exactly one
   * disposal of that block, and it deleted this handle's target with this
   * handle's strategy.
   */
  lemma OwnTargetDisposedOnce(w: World, k: int)
    requires Consistent(w) && Coherent(w) && 0 <= k < |w.weaks| && w.weaks[k].block.Some?
    requires Weak.Expired(w.heap, w.weaks[k])
    ensures DisposalsOf(w.heap.disposals, w.weaks[k].block.value) == 1
    ensures forall d :: d in w.heap.disposals && d.block == w.weaks[k].block.value ==> d == DisposalOf(w.weaks[k])
  {
    var p := w.weaks[k];
    assert Live(w.heap, p);
    assert p in Bindings(w);
  }
}
