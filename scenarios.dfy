/**
 * Worked settlements and ratios on single pairs.
 */
module Scenarios {
  import opened Ledger
  import opened Matcher
  import opened Settlement
  import opened Ratios

  /**
   * A producer of 1400 serving a consumer of 600 keeps 800; the grid gains
   * 800 and one line is logged.
   */
  lemma SurplusSettlement(p: Asset, c: Asset)
    requires p.currValue == 1400 && c.currValue == 600
    ensures Settle(Pair(p, c))
      == Outcome(p.(currValue := 800), c.(currValue := 0), 800, [Flow(p.name, c.name, 600)])
  {
  }

  /**
   * A producer of 350 against a consumer of 450: the producer is drained, the
   * missing 100 is drawn from the grid, and two lines are logged.
   */
  lemma ExhaustedProducerDrawsFromGrid(p: Asset, c: Asset)
    requires p.currValue == 350 && c.currValue == 450
    ensures Settle(Pair(p, c))
      == Outcome(p.(currValue := 0), c.(currValue := 0), -100, [Flow(p.name, c.name, 350), Exhausted(p.name, 100)])
  {
  }

  /** A producer and a consumer both at 600 get an undefined ratio rather than a number. */
  lemma EqualValuesGiveUndefinedRatio(p: Asset, c: Asset)
    requires p.currValue == 600 && c.currValue == 600
    ensures CgRatio(p, c) == Undefined
  {
  }
}
