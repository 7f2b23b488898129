/**
 * BooleanPromise: a lazily computed, memoised boolean. The tracer wraps its shadow test in one
 * so that the test runs at most once per traced ray although two light models consult it.
 */
module BooleanPromise {
  import opened Wrappers

  /**
   * The computation a promise wraps. It lies outside the model and need not answer the same
   * way twice, so it is an object whose n-th invocation answers `answers(n)` and which counts
   * its invocations.
   */
  class Supplier {
    const answers: nat -> bool
    var invocations: nat

    constructor (answers: nat -> bool)
      ensures this.answers == answers && invocations == 0
    {
      this.answers := answers;
      invocations := 0;
    }

    method Get() returns (b: bool)
      modifies this
      ensures b == answers(old(invocations)) && invocations == old(invocations) + 1
    {
      b := answers(invocations);
      invocations := invocations + 1;
    }
  }

  class BooleanPromise {
    const valueSupplier: Supplier
    /** Empty until the first `Get`. */
    var value: Option<bool>

    constructor (valueSupplier: Supplier)
      ensures this.valueSupplier == valueSupplier && value == None
    {
      this.valueSupplier := valueSupplier;
      value := None;
    }

    /**
     * The first call invokes the supplier once and caches its answer; every later call returns
     * the cached answer without invoking the supplier. Once set, `value` never changes.
     */
    method Get() returns (b: bool)
      modifies this, valueSupplier
      ensures value == Some(b)
      ensures old(value).Some? ==> b == old(value).value
      ensures old(value).Some? ==> valueSupplier.invocations == old(valueSupplier.invocations)
      ensures old(value).None? ==> b == valueSupplier.answers(old(valueSupplier.invocations))
      ensures old(value).None? ==> valueSupplier.invocations == old(valueSupplier.invocations) + 1
    {
      if value.None? {
        var v := valueSupplier.Get();
        value := Some(v);
      }
      b := value.value;
    }
  }

  /** A fresh promise asked twice: the supplier runs exactly once and both answers are its first answer. */
  method GetTwice(p: BooleanPromise) returns (first: bool, second: bool)
    requires p.value == None
    modifies p, p.valueSupplier
    ensures first == second == p.valueSupplier.answers(old(p.valueSupplier.invocations))
    ensures p.valueSupplier.invocations == old(p.valueSupplier.invocations) + 1
    ensures p.value == Some(first)
  {
    first := p.Get();
    second := p.Get();
  }
}
