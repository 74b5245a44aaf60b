/** The drainability satisfaction rate, as an exact rational. */
module Rate {

  /** The drainable share of all closes, 0 before the first. */
  function Dsr(drainable: nat, total: nat): real {
    if total > 0 then drainable as real / total as real else 0.0
  }

  /** The rate times the number of closes is the number of drainable closes; without closes
      it is 0. */
  predicate IsShare(rate: real, drainable: nat, total: nat) {
    if total > 0 then rate * total as real == drainable as real else rate == 0.0
  }

  lemma DsrIsShare(drainable: nat, total: nat)
    ensures IsShare(Dsr(drainable, total), drainable, total)
  {}

  /** The rate lies between 0 and 1. It is 1 exactly when there are closes and all of them
      are drainable, and 0 exactly when none is. */
  lemma DsrBounds(drainable: nat, total: nat)
    requires drainable <= total
    ensures 0.0 <= Dsr(drainable, total) <= 1.0
    ensures Dsr(drainable, total) == 1.0 <==> 0 < drainable == total
    ensures Dsr(drainable, total) == 0.0 <==> drainable == 0
  {
    if total > 0 {
      var q := Dsr(drainable, total);
      assert q * total as real == drainable as real;
    }
  }

  /** The rate is the share of the drainable closes, 1 exactly when there are closes and none
      is pinned, and 0 exactly when none is drainable. */
  predicate RateTells(rate: real, drainable: nat, pinned: nat) {
    && IsShare(rate, drainable, drainable + pinned)
    && (rate == 1.0 <==> drainable > 0 == pinned)
    && (rate == 0.0 <==> drainable == 0)
  }

  lemma DsrTells(drainable: nat, pinned: nat)
    ensures RateTells(Dsr(drainable, drainable + pinned), drainable, pinned)
  {
    DsrIsShare(drainable, drainable + pinned);
    DsrBounds(drainable, drainable + pinned);
  }
}
