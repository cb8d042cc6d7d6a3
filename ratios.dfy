/**
 * The consumption-generation ratio view: the same pairing as a trade, with
 * no cap, and for each pair the ratio of the consumer's demand to the
 * producer's surplus over it.
 */
module Ratios {
  import opened Ledger
  import opened Matcher
  import opened Settlement

  /**
   * `consumer / (producer - consumer)` as an exact fraction; `Undefined` where
   * the denominator is 0 (JavaScript yields Infinity or NaN there).
   */
  datatype Ratio = Ratio(num: int, den: int) | Undefined

  /** One report line: producer id, consumer id, ratio. */
  datatype CgEntry = CgEntry(producer: string, consumer: string, ratio: Ratio)

  function CgRatio(p: Asset, c: Asset): (r: Ratio)
    ensures r.Undefined? <==> p.currValue == c.currValue
    ensures r.Ratio? ==> r.den != 0 && r.num == c.currValue && r.num + r.den == p.currValue
  {
    if p.currValue == c.currValue then Undefined else Ratio(c.currValue, p.currValue - c.currValue)
  }

  /** The report: one entry per matched pair, in pairing order. */
  function CgRatios(assets: seq<Asset>): (r: seq<CgEntry>)
    ensures |r| == Min(|Producers(assets)|, |Consumers(assets)|)
    ensures forall i :: 0 <= i < |r| ==>
      && r[i].producer == Matching(assets)[i].producer.id
      && r[i].consumer == Matching(assets)[i].consumer.id
      && r[i].ratio == CgRatio(Matching(assets)[i].producer, Matching(assets)[i].consumer)
  {
    var pairs := Matching(assets);
    seq(|pairs|, i requires 0 <= i < |pairs| =>
      CgEntry(pairs[i].producer.id, pairs[i].consumer.id, CgRatio(pairs[i].producer, pairs[i].consumer)))
  }

  /**
   * The report covers exactly the pairs a large enough trade would settle,
   * each ratio's numerator is that pair's demand, and its denominator is that
   * pair's net grid change: undefined exactly when settling the pair leaves
   * the grid unchanged, positive exactly when the producer has a surplus (one
   * log line).
   */
  lemma {:induction false} CgRatiosMatchTrade(assets: seq<Asset>, n: int)
    requires Min(|Producers(assets)|, |Consumers(assets)|) <= n
    ensures var r := CgRatios(assets);
      var pairs := TradePairs(assets, n);
      && |r| == |pairs|
      && forall i :: 0 <= i < |r| ==>
        && r[i].producer == pairs[i].producer.id
        && r[i].consumer == pairs[i].consumer.id
        && (r[i].ratio.Ratio? ==> r[i].ratio.num == pairs[i].consumer.currValue)
        && (r[i].ratio.Undefined? <==> Settle(pairs[i]).delta == 0)
        && (r[i].ratio.Ratio? ==> r[i].ratio.den == Settle(pairs[i]).delta)
        && (r[i].ratio.Ratio? && r[i].ratio.den > 0 <==> |Settle(pairs[i]).entries| == 1)
  {
    var r := CgRatios(assets);
    var pairs := TradePairs(assets, n);
    assert pairs == Matching(assets);
    forall i | 0 <= i < |r|
      ensures && r[i].producer == pairs[i].producer.id
              && r[i].consumer == pairs[i].consumer.id
              && (r[i].ratio.Ratio? ==> r[i].ratio.num == pairs[i].consumer.currValue)
              && (r[i].ratio.Undefined? <==> Settle(pairs[i]).delta == 0)
              && (r[i].ratio.Ratio? ==> r[i].ratio.den == Settle(pairs[i]).delta)
              && (r[i].ratio.Ratio? && r[i].ratio.den > 0 <==> |Settle(pairs[i]).entries| == 1)
    {
      RatioIsNetChange(pairs[i]);
    }
  }

  /** One pair's ratio is its demand over the net grid change of settling it. */
  lemma RatioIsNetChange(pair: Pair)
    ensures var r := CgRatio(pair.producer, pair.consumer);
      var o := Settle(pair);
      && (r.Ratio? ==> r.num == pair.consumer.currValue)
      && (r.Undefined? <==> o.delta == 0)
      && (r.Ratio? ==> r.den == o.delta)
      && (r.Ratio? && r.den > 0 <==> |o.entries| == 1)
  {
  }
}
