/**
 * Settlement of matched pairs: what one pair's trade does to the two assets,
 * to the net grid power change and to the transaction log, and what a whole
 * batch of pairs does to the ledger.
 */
module Settlement {
  import opened Ledger
  import opened Matcher

  /** One transaction-log line, without its timestamp and formatting. */
  datatype LogEntry =
    | Flow(producer: string, consumer: string, amount: int)  // energy flowing from producer to consumer
    | Exhausted(producer: string, deficit: int)              // producer exhausted, the deficit taken from the grid

  /** The result of settling one pair. */
  datatype Outcome = Outcome(producer: Asset, consumer: Asset, delta: int, entries: seq<LogEntry>)

  /**
   * Settle one pair. The producer delivers what it can, up to the consumer's
   * demand; the consumer's demand is then met in full (from the grid for any
   * shortfall); the net grid change is the producer's value minus the
   * consumer's in both branches.
   */
  function Settle(pair: Pair): (o: Outcome)
    ensures var p, c := pair.producer, pair.consumer;
      && o.producer == p.(currValue := p.currValue - Min(p.currValue, c.currValue))
      && o.consumer == c.(currValue := 0)
      && o.delta == p.currValue - c.currValue
      && 1 <= |o.entries| <= 2
      && o.entries[0] == Flow(p.name, c.name, Min(p.currValue, c.currValue))
      && (|o.entries| == 2 <==> p.currValue <= c.currValue)
      && (|o.entries| == 2 ==> o.entries[1] == Exhausted(p.name, c.currValue - p.currValue))
    ensures 0 <= pair.producer.currValue && 0 <= pair.consumer.currValue ==>
      0 <= o.producer.currValue && 0 <= o.consumer.currValue
  {
    var p, c := pair.producer, pair.consumer;
    if p.currValue <= c.currValue then
      var deficit := c.currValue - p.currValue;
      Outcome(p.(currValue := 0), c.(currValue := 0), -deficit,
              [Flow(p.name, c.name, p.currValue), Exhausted(p.name, deficit)])
    else
      Outcome(p.(currValue := p.currValue - c.currValue), c.(currValue := 0), p.currValue - c.currValue,
              [Flow(p.name, c.name, c.currValue)])
  }

  /** The ledger, net grid power change and new log entries after a batch. */
  datatype Batch = Batch(ledger: Store, net: int, entries: seq<LogEntry>)

  /**
   * Settle `pairs` in order, writing producer then consumer of each pair back
   * under its id.
   */
  function SettleAll(ledger: Store, pairs: seq<Pair>): (b: Batch)
    ensures ledger.Keys <= b.ledger.Keys
    decreases |pairs|
  {
    if pairs == [] then Batch(ledger, 0, [])
    else
      var b := SettleAll(ledger, pairs[..|pairs| - 1]);
      var o := Settle(pairs[|pairs| - 1]);
      Batch(b.ledger[o.producer.id := o.producer][o.consumer.id := o.consumer], b.net + o.delta, b.entries + o.entries)
  }

  /** Settling one more pair writes its two settled assets and appends its outcome. */
  lemma SettleAllStep(ledger: Store, pairs: seq<Pair>, i: int)
    requires 0 <= i < |pairs|
    ensures var b := SettleAll(ledger, pairs[..i]);
      var o := Settle(pairs[i]);
      SettleAll(ledger, pairs[..i + 1])
        == Batch(b.ledger[o.producer.id := o.producer][o.consumer.id := o.consumer], b.net + o.delta, b.entries + o.entries)
  {
    assert pairs[..i + 1][..i] == pairs[..i];
  }

  /** A log that already holds the first `i` settlements, extended by the next one's lines. */
  lemma SettleAllExtendsLog(ledger: Store, pairs: seq<Pair>, i: int, log: seq<LogEntry>)
    requires 0 <= i < |pairs|
    ensures (log + SettleAll(ledger, pairs[..i]).entries) + Settle(pairs[i]).entries
      == log + SettleAll(ledger, pairs[..i + 1]).entries
  {
    SettleAllStep(ledger, pairs, i);
    var done := SettleAll(ledger, pairs[..i]).entries;
    assert (log + done) + Settle(pairs[i]).entries == log + (done + Settle(pairs[i]).entries);
  }

  /** Total current value of the matched producers. */
  function Supply(pairs: seq<Pair>): int
    decreases |pairs|
  {
    if pairs == [] then 0 else Supply(pairs[..|pairs| - 1]) + pairs[|pairs| - 1].producer.currValue
  }

  /** Total current value of the matched consumers. */
  function Demand(pairs: seq<Pair>): int
    decreases |pairs|
  {
    if pairs == [] then 0 else Demand(pairs[..|pairs| - 1]) + pairs[|pairs| - 1].consumer.currValue
  }

  /** Number of pairs whose producer cannot cover its consumer. */
  function Shortfalls(pairs: seq<Pair>): (r: nat)
    ensures r <= |pairs|
    decreases |pairs|
  {
    if pairs == [] then 0
    else
      var last := pairs[|pairs| - 1];
      Shortfalls(pairs[..|pairs| - 1]) + (if last.producer.currValue <= last.consumer.currValue then 1 else 0)
  }

  /**
   * After the first `i` pairs, the settlement loop holds the ledger, net
   * change and log of settling those pairs from `start` and `startLog`.
   */
  ghost predicate SettledUpTo(start: Store, startLog: seq<LogEntry>, pairs: seq<Pair>, i: int,
                              ledger: Store, net: int, log: seq<LogEntry>) {
    && 0 <= i <= |pairs|
    && var b := SettleAll(start, pairs[..i]);
    && ledger == b.ledger && net == b.net && log == startLog + b.entries
  }

  /** One loop iteration: settling pair `i` on top of the first `i` settles the first `i + 1`. */
  lemma SettledUpToStep(start: Store, startLog: seq<LogEntry>, pairs: seq<Pair>, i: int,
                        ledger: Store, net: int, log: seq<LogEntry>)
    requires i < |pairs| && SettledUpTo(start, startLog, pairs, i, ledger, net, log)
    ensures var o := Settle(pairs[i]);
      SettledUpTo(start, startLog, pairs, i + 1,
                  ledger[o.producer.id := o.producer][o.consumer.id := o.consumer], net + o.delta, log + o.entries)
  {
    SettleAllStep(start, pairs, i);
    SettleAllExtendsLog(start, pairs, i, startLog);
  }

  /** Once every pair is settled, the loop holds the whole batch. */
  lemma SettledUpToAll(start: Store, startLog: seq<LogEntry>, pairs: seq<Pair>, i: int,
                       ledger: Store, net: int, log: seq<LogEntry>)
    requires i == |pairs| && SettledUpTo(start, startLog, pairs, i, ledger, net, log)
    ensures var b := SettleAll(start, pairs);
      ledger == b.ledger && net == b.net && log == startLog + b.entries
  {
    assert pairs[..|pairs|] == pairs;
  }

  /** The net grid power change of a batch is matched supply minus matched demand. */
  lemma {:induction false} SettleAllNet(ledger: Store, pairs: seq<Pair>)
    ensures SettleAll(ledger, pairs).net == Supply(pairs) - Demand(pairs)
    decreases |pairs|
  {
    if pairs != [] {
      SettleAllNet(ledger, pairs[..|pairs| - 1]);
    }
  }

  /** A batch logs one line per pair plus one more per shortfall. */
  lemma {:induction false} SettleAllLogLength(ledger: Store, pairs: seq<Pair>)
    ensures |SettleAll(ledger, pairs).entries| == |pairs| + Shortfalls(pairs)
    decreases |pairs|
  {
    if pairs != [] {
      SettleAllLogLength(ledger, pairs[..|pairs| - 1]);
    }
  }

  /**
   * Settling a batch in two parts is settling it at once: the ledger carries
   * over, net changes add up and the log lines follow in pair order.
   */
  lemma {:induction false} SettleAllSplit(ledger: Store, pairs: seq<Pair>, more: seq<Pair>)
    ensures var first := SettleAll(ledger, pairs);
      var second := SettleAll(first.ledger, more);
      SettleAll(ledger, pairs + more) == Batch(second.ledger, first.net + second.net, first.entries + second.entries)
    decreases |more|
  {
    if more == [] {
      assert pairs + more == pairs;
    } else {
      var more' := more[..|more| - 1];
      var o := Settle(more[|more| - 1]);
      var first := SettleAll(ledger, pairs);
      var second' := SettleAll(first.ledger, more');
      SettleAllSplit(ledger, pairs, more');
      DropLastOfAppend(pairs, more);
      var mid := SettleAll(ledger, pairs + more');
      assert SettleAll(ledger, pairs + more) == Batch(mid.ledger[o.producer.id := o.producer][o.consumer.id := o.consumer],
                                                      mid.net + o.delta, mid.entries + o.entries);
      AppendAssoc(first.entries, second'.entries, o.entries);
    }
  }

  /**
   * Dropping the last pair of `pairs + more` drops the last pair of `more`. A
   * separate lemma to keep `SettleAllSplit`'s proof cheap.
   */
  lemma DropLastOfAppend(pairs: seq<Pair>, more: seq<Pair>)
    requires more != []
    ensures var all := pairs + more;
      all[..|all| - 1] == pairs + more[..|more| - 1] && all[|all| - 1] == more[|more| - 1]
  {
  }

  /** Log concatenation regrouped; a separate lemma to keep `SettleAllSplit`'s proof cheap. */
  lemma AppendAssoc(a: seq<LogEntry>, b: seq<LogEntry>, c: seq<LogEntry>)
    ensures (a + b) + c == a + (b + c)
  {
  }

  /** The ids a batch writes to. */
  ghost predicate Touches(pairs: seq<Pair>, k: string) {
    exists i :: 0 <= i < |pairs| && (pairs[i].producer.id == k || pairs[i].consumer.id == k)
  }

  /** Records no pair names are left as they were, and no key disappears. */
  lemma {:induction false} SettleAllFrame(ledger: Store, pairs: seq<Pair>, k: string)
    ensures k in ledger ==> k in SettleAll(ledger, pairs).ledger
    ensures !Touches(pairs, k) ==>
      (k in SettleAll(ledger, pairs).ledger <==> k in ledger) &&
      (k in ledger ==> SettleAll(ledger, pairs).ledger[k] == ledger[k])
    decreases |pairs|
  {
    if pairs != [] {
      var front := pairs[..|pairs| - 1];
      SettleAllFrame(ledger, front, k);
      if !Touches(pairs, k) {
        assert !Touches(front, k) by {
          forall i | 0 <= i < |front|
            ensures front[i].producer.id != k && front[i].consumer.id != k
          {
            assert front[i] == pairs[i];
          }
        }
      }
    }
  }

  /** A batch over records already in the ledger adds no key. */
  lemma {:induction false} SettleAllKeys(ledger: Store, pairs: seq<Pair>)
    requires forall i :: 0 <= i < |pairs| ==> pairs[i].producer.id in ledger && pairs[i].consumer.id in ledger
    ensures SettleAll(ledger, pairs).ledger.Keys == ledger.Keys
    decreases |pairs|
  {
    if pairs != [] {
      SettleAllKeys(ledger, pairs[..|pairs| - 1]);
    }
  }

  /** Non-negative values stay non-negative. */
  lemma {:induction false} SettleAllNonNegative(ledger: Store, pairs: seq<Pair>)
    requires forall k :: k in ledger ==> 0 <= ledger[k].currValue
    requires forall i :: 0 <= i < |pairs| ==> 0 <= pairs[i].producer.currValue && 0 <= pairs[i].consumer.currValue
    ensures forall k :: k in SettleAll(ledger, pairs).ledger ==> 0 <= SettleAll(ledger, pairs).ledger[k].currValue
    decreases |pairs|
  {
    if pairs != [] {
      var front := pairs[..|pairs| - 1];
      assert forall i :: 0 <= i < |front| ==> front[i] == pairs[i];
      SettleAllNonNegative(ledger, front);
      var b := SettleAll(ledger, front);
      var o := Settle(pairs[|pairs| - 1]);
      assert 0 <= o.producer.currValue && 0 <= o.consumer.currValue;
      var after := b.ledger[o.producer.id := o.producer][o.consumer.id := o.consumer];
      assert SettleAll(ledger, pairs).ledger == after;
      forall k | k in after
        ensures 0 <= after[k].currValue
      {
        if k == o.consumer.id {
          assert after[k] == o.consumer;
        } else if k == o.producer.id {
          assert after[k] == o.producer;
        } else {
          assert k in b.ledger && after[k] == b.ledger[k];
        }
      }
    }
  }

  /** Writing a settled record under its own id keeps the ledger well keyed. */
  lemma {:induction false} SettleAllWellKeyed(ledger: Store, pairs: seq<Pair>)
    requires WellKeyed(ledger)
    ensures WellKeyed(SettleAll(ledger, pairs).ledger)
    decreases |pairs|
  {
    if pairs != [] {
      SettleAllWellKeyed(ledger, pairs[..|pairs| - 1]);
    }
  }

  /**
   * When no asset is in two pairs, each settled asset ends up as its pair's
   * settlement left it: the consumer drained to 0, the producer reduced by
   * what it delivered, every other field as it was.
   */
  lemma {:induction false} SettleAllWrites(ledger: Store, pairs: seq<Pair>, i: int)
    requires DisjointPairs(pairs) && 0 <= i < |pairs|
    ensures var after := SettleAll(ledger, pairs).ledger;
      && pairs[i].producer.id in after && after[pairs[i].producer.id] == Settle(pairs[i]).producer
      && pairs[i].consumer.id in after && after[pairs[i].consumer.id] == Settle(pairs[i]).consumer
    decreases |pairs|
  {
    var n := |pairs|;
    if i < n - 1 {
      var front := pairs[..n - 1];
      assert DisjointPairs(front) by {
        assert forall j :: 0 <= j < |front| ==> front[j] == pairs[j];
      }
      SettleAllWrites(ledger, front, i);
      assert front[i] == pairs[i];
    }
  }

  /** What `tradeN(n)` does to a ledger: settle the first `n` matched pairs of its scan. */
  ghost function Trade(ledger: Store, n: int): (b: Batch)
    ensures var count := |TradePairs(ScanOrder(ledger), n)|;
      count <= |b.entries| <= 2 * count && (n <= 0 ==> b == Batch(ledger, 0, []))
  {
    var pairs := TradePairs(ScanOrder(ledger), n);
    SettleAllLogLength(ledger, pairs);
    SettleAll(ledger, pairs)
  }

  /**
   * A trade settles `min(#producers, #consumers, n)` pairs (none when `n` is
   * not positive), changes the grid by their supply minus their demand, and
   * logs one line per pair plus one per exhausted producer.
   */
  lemma TradeTotals(ledger: Store, n: int)
    ensures var scan := ScanOrder(ledger);
      var pairs := TradePairs(scan, n);
      && |pairs| == (if n <= 0 then 0 else Min(Min(|Producers(scan)|, |Consumers(scan)|), n))
      && Trade(ledger, n).net == Supply(pairs) - Demand(pairs)
      && |Trade(ledger, n).entries| == |pairs| + Shortfalls(pairs)
  {
    var pairs := TradePairs(ScanOrder(ledger), n);
    SettleAllNet(ledger, pairs);
    SettleAllLogLength(ledger, pairs);
  }

  /**
   * Nothing happens when `n` is not positive or one side is empty: same
   * ledger, no grid change, no log line.
   */
  lemma TradeNoOp(ledger: Store, n: int)
    requires n <= 0 || |Producers(ScanOrder(ledger))| == 0 || |Consumers(ScanOrder(ledger))| == 0
    ensures Trade(ledger, n) == Batch(ledger, 0, [])
  {
    assert TradePairs(ScanOrder(ledger), n) == [];
  }

  lemma PrefixDisjoint(pairs: seq<Pair>, k: nat)
    requires DisjointPairs(pairs) && k <= |pairs|
    ensures DisjointPairs(pairs[..k])
  {
    assert forall i :: 0 <= i < k ==> pairs[..k][i] == pairs[i];
  }

  /** Pairs drawn from records of the ledger name records of the ledger. */
  lemma PairsFromLedger(ledger: Store, scan: seq<Asset>, pairs: seq<Pair>)
    requires forall a :: a in scan ==> a.id in ledger && ledger[a.id] == a
    requires forall i :: 0 <= i < |pairs| ==> pairs[i].producer in scan && pairs[i].consumer in scan
    ensures forall i :: 0 <= i < |pairs| ==>
      && pairs[i].producer.id in ledger && ledger[pairs[i].producer.id] == pairs[i].producer
      && pairs[i].consumer.id in ledger && ledger[pairs[i].consumer.id] == pairs[i].consumer
  {
  }

  /** The first `k` pairs of a matching still come from the scanned assets. */
  lemma MatchingPrefixFromScan(scan: seq<Asset>, k: nat)
    requires k <= |Matching(scan)|
    ensures var pairs := Matching(scan)[..k];
      forall i :: 0 <= i < |pairs| ==> pairs[i].producer in scan && pairs[i].consumer in scan
  {
    var all := Matching(scan);
    assert forall i :: 0 <= i < k ==> all[..k][i] == all[i];
  }

  /** The pairs a trade draws from records of the ledger name records of the ledger. */
  lemma TradePairsFrom(ledger: Store, scan: seq<Asset>, n: int)
    requires forall a :: a in scan ==> a.id in ledger && ledger[a.id] == a
    ensures var pairs := TradePairs(scan, n);
      forall i :: 0 <= i < |pairs| ==>
        && pairs[i].producer.id in ledger && ledger[pairs[i].producer.id] == pairs[i].producer
        && pairs[i].consumer.id in ledger && ledger[pairs[i].consumer.id] == pairs[i].consumer
  {
    var pairs := TradePairs(scan, n);
    MatchingPrefixFromScan(scan, |pairs|);
    PairsFromLedger(ledger, scan, pairs);
  }

  /** Every traded asset is the record the ledger holds under its id. */
  lemma TradePairsFromLedger(ledger: Store, n: int)
    requires WellKeyed(ledger)
    ensures var pairs := TradePairs(ScanOrder(ledger), n);
      forall i :: 0 <= i < |pairs| ==>
        && pairs[i].producer.id in ledger && ledger[pairs[i].producer.id] == pairs[i].producer
        && pairs[i].consumer.id in ledger && ledger[pairs[i].consumer.id] == pairs[i].consumer
  {
    TradePairsFrom(ledger, ScanOrder(ledger), n);
  }

  /** In a well-keyed ledger, no asset is settled twice by one trade. */
  lemma TradePairsDisjoint(ledger: Store, n: int)
    requires WellKeyed(ledger)
    ensures DisjointPairs(TradePairs(ScanOrder(ledger), n))
  {
    var scan := ScanOrder(ledger);
    assert UniqueIds(scan);
    MatchingDisjoint(scan);
    PrefixDisjoint(Matching(scan), |TradePairs(scan, n)|);
  }

  /**
   * `pairs` is what walking `producers` and `consumers` in step for `count`
   * steps yields, and every asset it touches is in `ledger`.
   */
  ghost predicate PairsWalk(ledger: Store, producers: seq<Asset>, consumers: seq<Asset>, count: int, pairs: seq<Pair>) {
    && count <= |producers| && count <= |consumers|
    && |pairs| == (if count <= 0 then 0 else count)
    && (forall j :: 0 <= j < |pairs| ==> pairs[j] == Pair(producers[j], consumers[j]))
    && (forall j :: 0 <= j < |pairs| ==> producers[j].id in ledger && consumers[j].id in ledger)
  }

  /** A trade's pairs walk the two sorted sides of the ledger's scan, capped at `n`. */
  lemma TradeWalk(ledger: Store, n: int)
    requires WellKeyed(ledger)
    ensures var scan := ScanOrder(ledger);
      var ps, cs := SortedProducers(scan), SortedConsumers(scan);
      PairsWalk(ledger, ps, cs, Min(Min(|ps|, |cs|), n), TradePairs(scan, n))
  {
    TradePairsSides(ScanOrder(ledger), n);
    TradePairsFromLedger(ledger, n);
  }

  /**
   * `after` is `ledger` with every pair settled: same keys, still well keyed,
   * each pair's producer and consumer stored as its settlement left them, and
   * every record no pair names as it was.
   */
  ghost predicate SettledAsPaired(ledger: Store, pairs: seq<Pair>, after: Store) {
    && after.Keys == ledger.Keys
    && WellKeyed(after)
    && (forall i :: 0 <= i < |pairs| ==>
          && pairs[i].producer.id in after && after[pairs[i].producer.id] == Settle(pairs[i]).producer
          && pairs[i].consumer.id in after && after[pairs[i].consumer.id] == Settle(pairs[i]).consumer)
    && (forall k :: k in ledger && !Touches(pairs, k) ==> after[k] == ledger[k])
  }

  lemma SettledLedger(ledger: Store, pairs: seq<Pair>)
    requires WellKeyed(ledger) && DisjointPairs(pairs)
    requires forall i :: 0 <= i < |pairs| ==> pairs[i].producer.id in ledger && pairs[i].consumer.id in ledger
    ensures SettledAsPaired(ledger, pairs, SettleAll(ledger, pairs).ledger)
  {
    SettleAllKeys(ledger, pairs);
    SettleAllWellKeyed(ledger, pairs);
    forall i | 0 <= i < |pairs|
      ensures && SettleAll(ledger, pairs).ledger[pairs[i].producer.id] == Settle(pairs[i]).producer
              && SettleAll(ledger, pairs).ledger[pairs[i].consumer.id] == Settle(pairs[i]).consumer
    {
      SettleAllWrites(ledger, pairs, i);
    }
    forall k | k in ledger && !Touches(pairs, k)
      ensures SettleAll(ledger, pairs).ledger[k] == ledger[k]
    {
      SettleAllFrame(ledger, pairs, k);
    }
  }

  /**
   * After a trade on a well-keyed ledger, the i-th pair's consumer is stored
   * drained to 0 and its producer reduced by what it delivered; every other
   * record is as it was; the ledger keeps its keys and stays well keyed.
   */
  lemma TradeWrites(ledger: Store, n: int)
    requires WellKeyed(ledger)
    ensures SettledAsPaired(ledger, TradePairs(ScanOrder(ledger), n), Trade(ledger, n).ledger)
  {
    var pairs := TradePairs(ScanOrder(ledger), n);
    TradePairsFromLedger(ledger, n);
    TradePairsDisjoint(ledger, n);
    SettledLedger(ledger, pairs);
  }

  /** A trade on a ledger with no negative value leaves no negative value. */
  lemma TradeNonNegative(ledger: Store, n: int)
    requires WellKeyed(ledger)
    requires forall k :: k in ledger ==> 0 <= ledger[k].currValue
    ensures forall k :: k in Trade(ledger, n).ledger ==> 0 <= Trade(ledger, n).ledger[k].currValue
  {
    var pairs := TradePairs(ScanOrder(ledger), n);
    TradePairsFromLedger(ledger, n);
    SettleAllNonNegative(ledger, pairs);
  }
}
