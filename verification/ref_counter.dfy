/** The count block `ref_counter`: a shared count and a weak count. */
module RefCounter {
  import opened Wrappers

  /** The two counters of one block. C++ `long`s that never go below zero. */
  datatype Counter = Counter(shared: nat, weak: nat)

  /** The `std::logic_error`s thrown by the decrements. */
  datatype LogicError = SharedAlreadyZero | WeakAlreadyZero

  /** A freshly allocated block counts the one strong handle that allocated it. */
  function Fresh(): (c: Counter)
    ensures c.shared == 1 && c.weak == 0
    ensures HasRefs(c)
  {
    Counter(1, 0)
  }

  function IncShared(c: Counter): (r: Counter)
    ensures r.shared == c.shared + 1 && r.weak == c.weak
    ensures HasRefs(r)
  {
    c.(shared := c.shared + 1)
  }

  /** Throws when the shared count is already zero; otherwise lowers it by exactly one. */
  function DecShared(c: Counter): (r: Result<Counter, LogicError>)
    ensures r.Failure? <==> c.shared == 0
    ensures r.Failure? ==> r.error == SharedAlreadyZero
    ensures r.Success? ==> r.value.shared + 1 == c.shared && r.value.weak == c.weak
  {
    if c.shared == 0 then Failure(SharedAlreadyZero) else Success(c.(shared := c.shared - 1))
  }

  function IncWeak(c: Counter): (r: Counter)
    ensures r.weak == c.weak + 1 && r.shared == c.shared
    ensures HasRefs(r)
  {
    c.(weak := c.weak + 1)
  }

  /** Throws when the weak count is already zero; otherwise lowers it by exactly one. */
  function DecWeak(c: Counter): (r: Result<Counter, LogicError>)
    ensures r.Failure? <==> c.weak == 0
    ensures r.Failure? ==> r.error == WeakAlreadyZero
    ensures r.Success? ==> r.value.weak + 1 == c.weak && r.value.shared == c.shared
  {
    if c.weak == 0 then Failure(WeakAlreadyZero) else Success(c.(weak := c.weak - 1))
  }

  /** Some handle, strong or weak, still refers to the block. */
  predicate HasRefs(c: Counter) {
    c.shared + c.weak > 0
  }

  /** Decrementing undoes incrementing, and the other way round, for both counts. */
  lemma IncDecInverse(c: Counter)
    ensures DecShared(IncShared(c)) == Success(c)
    ensures DecWeak(IncWeak(c)) == Success(c)
    ensures DecShared(c).Success? ==> IncShared(DecShared(c).value) == c
    ensures DecWeak(c).Success? ==> IncWeak(DecWeak(c).value) == c
  {
  }

  /** A block loses its last reference only by decrementing a count that was its only one. */
  lemma LastReference(c: Counter)
    ensures DecShared(c).Success? && !HasRefs(DecShared(c).value) <==> c == Counter(1, 0)
    ensures DecWeak(c).Success? && !HasRefs(DecWeak(c).value) <==> c == Counter(0, 1)
  {
  }
}
