/**
 * The asset-transfer contract: the ledger it reads and writes, and the two
 * process-wide values its trades update (grid power and the transaction log).
 */
module Contract {
  import opened KeyOrder
  import opened Ledger
  import opened Matcher
  import opened Settlement
  import opened Ratios

  /** Grid power at process start: the numeric part of "10KW". */
  const INITIAL_GRID_POWER: int := 10

  /** The eight records the ledger is seeded with. */
  function Seed(): (s: seq<Asset>)
    ensures UniqueIds(s)
  {
    [ Asset("a1", "producer1", PRODUCER, 1300, 1300),
      Asset("a2", "producer2", PRODUCER, 1400, 1400),
      Asset("a3", "producer3", PRODUCER, 1500, 1500),
      Asset("a4", "consumer1", CONSUMER, 600, 600),
      Asset("a5", "consumer2", CONSUMER, 700, 700),
      Asset("a6", "consumer3", CONSUMER, 800, 800),
      Asset("a7", "producer4", PRODUCER, 350, 350),
      Asset("a8", "consumer4", CONSUMER, 450, 450) ]
  }

  /** `m` with each record of `s` stored under its id, in order. */
  function PutAll(m: Store, s: seq<Asset>): (r: Store)
    ensures m.Keys <= r.Keys
    ensures s != [] ==> s[|s| - 1].id in r && r[s[|s| - 1].id] == s[|s| - 1]
    decreases |s|
  {
    if s == [] then m else PutAll(m, s[..|s| - 1])[s[|s| - 1].id := s[|s| - 1]]
  }

  /** The ids of the records in `s`. */
  function Ids(s: seq<Asset>): (r: set<string>)
    ensures forall i :: 0 <= i < |s| ==> s[i].id in r
    ensures forall k :: k in r ==> exists i :: 0 <= i < |s| && s[i].id == k
    decreases |s|
  {
    if s == [] then {}
    else
      var front := s[..|s| - 1];
      assert forall i :: 0 <= i < |front| ==> front[i] == s[i];
      Ids(front) + {s[|s| - 1].id}
  }

  /** Storing records adds exactly their ids to the keys. */
  lemma {:induction false} PutAllKeys(m: Store, s: seq<Asset>)
    ensures PutAll(m, s).Keys == m.Keys + Ids(s)
    decreases |s|
  {
    if s != [] {
      PutAllKeys(m, s[..|s| - 1]);
    }
  }

  /** Records whose id is not among those stored are left as they were. */
  lemma {:induction false} PutAllFrame(m: Store, s: seq<Asset>, k: string)
    requires k in m && k !in Ids(s)
    ensures k in PutAll(m, s) && PutAll(m, s)[k] == m[k]
    decreases |s|
  {
    if s != [] {
      PutAllFrame(m, s[..|s| - 1], k);
    }
  }

  /** With distinct ids, every record of `s` ends up stored under its id. */
  lemma {:induction false} PutAllStored(m: Store, s: seq<Asset>, i: int)
    requires UniqueIds(s) && 0 <= i < |s|
    ensures s[i].id in PutAll(m, s) && PutAll(m, s)[s[i].id] == s[i]
    decreases |s|
  {
    var front := s[..|s| - 1];
    if i < |s| - 1 {
      assert front[i] == s[i];
      assert UniqueIds(front);
      PutAllStored(m, front, i);
      assert s[i].id != s[|s| - 1].id;
    }
  }

  /** Storing records under their own ids keeps a store well keyed. */
  lemma {:induction false} PutAllWellKeyed(m: Store, s: seq<Asset>)
    requires WellKeyed(m)
    ensures WellKeyed(PutAll(m, s))
    decreases |s|
  {
    if s != [] {
      PutAllWellKeyed(m, s[..|s| - 1]);
    }
  }

  /**
   * Seeding a store: each of the eight seed records is then stored under its
   * id, the keys grow by exactly their ids, and every other record is kept.
   */
  lemma SeededStore(m: Store)
    ensures PutAll(m, Seed()).Keys == m.Keys + Ids(Seed())
    ensures forall i :: 0 <= i < |Seed()| ==> PutAll(m, Seed())[Seed()[i].id] == Seed()[i]
    ensures forall k :: k in m && k !in Ids(Seed()) ==> PutAll(m, Seed())[k] == m[k]
  {
    var s := Seed();
    PutAllKeys(m, s);
    forall i | 0 <= i < |s|
      ensures PutAll(m, s)[s[i].id] == s[i]
    {
      PutAllStored(m, s, i);
    }
    forall k | k in m && k !in Ids(s)
      ensures PutAll(m, s)[k] == m[k]
    {
      PutAllFrame(m, s, k);
    }
  }

  class AssetTransfer {
    /** World state: asset records by id. */
    var ledger: Store
    /** Process-wide grid power, in KW. */
    var gridPower: int
    /** Process-wide transaction log, oldest first. */
    var log: seq<LogEntry>

    ghost predicate Valid()
      reads this
    {
      WellKeyed(ledger)
    }

    constructor ()
      ensures Valid()
      ensures ledger == map[] && gridPower == INITIAL_GRID_POWER && log == []
    {
      ledger := map[];
      gridPower := INITIAL_GRID_POWER;
      log := [];
    }

    /** Store the seed records, overwriting any record under the same ids. */
    method InitLedger()
      requires Valid()
      modifies this
      ensures Valid() && gridPower == old(gridPower) && log == old(log)
      ensures ledger == PutAll(old(ledger), Seed())
    {
      var assets := Seed();
      for i := 0 to |assets|
        invariant ledger == PutAll(old(ledger), assets[..i])
        invariant gridPower == old(gridPower) && log == old(log)
      {
        assert assets[..i + 1][..i] == assets[..i];
        ledger := ledger[assets[i].id := assets[i]];
      }
      assert assets[..|assets|] == assets;
      PutAllWellKeyed(old(ledger), assets);
    }

    method AssetExists(id: string) returns (b: bool)
      ensures b <==> id in ledger
    {
      b := Ledger.AssetExists(ledger, id);
    }

    method CreateAsset(id: string, name: string, assetType: string, orgValue: int, currValue: int)
      returns (r: Result<Asset>)
      requires Valid()
      modifies this
      ensures Valid() && gridPower == old(gridPower) && log == old(log)
      ensures r.Ok? <==> id !in old(ledger)
      ensures r.Ok? ==> r.value == Asset(id, name, assetType, orgValue, currValue)
      ensures r.Ok? ==> ledger == old(ledger)[id := r.value]
      ensures r.Err? ==> r.error == AlreadyExists(id) && ledger == old(ledger)
    {
      var asset := Asset(id, name, assetType, orgValue, currValue);
      var stored := Create(ledger, asset);
      if stored.Err? {
        return Err(stored.error);
      }
      ledger := stored.value;
      r := Ok(asset);
    }

    method ReadAsset(id: string) returns (r: Result<Asset>)
      ensures r.Ok? <==> id in ledger
      ensures r.Ok? ==> r.value == ledger[id]
      ensures r.Err? ==> r.error == NotFound(id)
    {
      r := Read(ledger, id);
    }

    method UpdateAsset(id: string, name: string, assetType: string, orgValue: int, currValue: int)
      returns (r: Result<()>)
      requires Valid()
      modifies this
      ensures Valid() && gridPower == old(gridPower) && log == old(log)
      ensures r.Ok? <==> id in old(ledger)
      ensures r.Ok? ==> ledger == old(ledger)[id := Asset(id, name, assetType, orgValue, currValue)]
      ensures r.Err? ==> r.error == NotFound(id) && ledger == old(ledger)
    {
      var stored := Update(ledger, Asset(id, name, assetType, orgValue, currValue));
      if stored.Err? {
        return Err(stored.error);
      }
      ledger := stored.value;
      r := Ok(());
    }

    method DeleteAsset(id: string) returns (r: Result<()>)
      requires Valid()
      modifies this
      ensures Valid() && gridPower == old(gridPower) && log == old(log)
      ensures r.Ok? <==> id in old(ledger)
      ensures r.Ok? ==> ledger == old(ledger) - {id}
      ensures r.Err? ==> r.error == NotFound(id) && ledger == old(ledger)
    {
      var removed := Delete(ledger, id);
      if removed.Err? {
        return Err(removed.error);
      }
      ledger := removed.value;
      r := Ok(());
    }

    /** Every record, in ascending key order, as the range scan yields them. */
    method GetAllAssets() returns (all: seq<Asset>)
      ensures all == ScanOrder(ledger)
    {
      var records := ledger;
      ScanBounds(records);
      all := [];
      var rest := records.Keys;
      while rest != {}
        invariant rest <= records.Keys
        invariant all + Scan(records, rest) == ScanOrder(records)
        decreases |rest|
      {
        LeastExists(rest);
        var k :| IsLeast(k, rest);
        ScanAdvance(records, all, rest, k, ScanOrder(records));
        all := all + [records[k]];
        rest := rest - {k};
      }
      ScanBounds(records);
      assert all + [] == all;
    }

    /** The CG-ratio report; it changes nothing. */
    method CalcAndViewCG() returns (report: seq<CgEntry>)
      ensures report == CgRatios(ScanOrder(ledger))
    {
      var assets := GetAllAssets();
      report := CgRatios(assets);
    }

    /**
     * Settle one matched pair: log the flow (and the producer's exhaustion
     * when it cannot cover the consumer), write both settled records back and
     * return the pair's contribution to the net grid change.
     */
    method SettlePair(producer: Asset, consumer: Asset) returns (delta: int)
      requires Valid() && producer.id in ledger && consumer.id in ledger
      modifies this
      ensures Valid() && gridPower == old(gridPower)
      ensures delta == Settle(Pair(producer, consumer)).delta
      ensures ledger == old(ledger)[producer.id := Settle(Pair(producer, consumer)).producer]
                                   [consumer.id := Settle(Pair(producer, consumer)).consumer]
      ensures log == old(log) + Settle(Pair(producer, consumer)).entries
    {
      var p, c := producer, consumer;
      if p.currValue <= c.currValue {
        var deficit := c.currValue - p.currValue;
        log := log + [Flow(p.name, c.name, p.currValue)];
        log := log + [Exhausted(p.name, deficit)];
        delta := -deficit;
        c := c.(currValue := 0);
        p := p.(currValue := 0);
      } else {
        log := log + [Flow(p.name, c.name, c.currValue)];
        delta := p.currValue - c.currValue;
        p := p.(currValue := p.currValue - c.currValue);
        c := c.(currValue := 0);
      }
      var written := UpdateAsset(p.id, p.name, p.assetType, p.orgValue, p.currValue);
      assert written.Ok?;
      written := UpdateAsset(c.id, c.name, c.assetType, c.orgValue, c.currValue);
      assert written.Ok?;
    }

    /**
     * The settlement loop: settle `producers[i]` with `consumers[i]` for each
     * `i` below `count`, accumulating the net grid change, then fold that
     * change into the grid power. `pairs` names the pairs this walks.
     */
    method SettleMatched(producers: seq<Asset>, consumers: seq<Asset>, count: int, ghost pairs: seq<Pair>)
      returns (netPowerChange: int)
      requires Valid() && PairsWalk(ledger, producers, consumers, count, pairs)
      modifies this
      ensures Valid() && gridPower == old(gridPower) + netPowerChange
      ensures ledger == SettleAll(old(ledger), pairs).ledger
      ensures netPowerChange == SettleAll(old(ledger), pairs).net
      ensures log == old(log) + SettleAll(old(ledger), pairs).entries
    {
      netPowerChange := 0;
      var i := 0;
      assert pairs[..0] == [];
      while i < count
        invariant 0 <= i <= |pairs|
        invariant Valid() && ledger.Keys == old(ledger).Keys && gridPower == old(gridPower)
        invariant SettledUpTo(old(ledger), old(log), pairs, i, ledger, netPowerChange, log)
      {
        ghost var before, logBefore := ledger, log;
        var delta := SettlePair(producers[i], consumers[i]);
        SettledUpToStep(old(ledger), old(log), pairs, i, before, netPowerChange, logBefore);
        netPowerChange := netPowerChange + delta;
        i := i + 1;
      }
      SettledUpToAll(old(ledger), old(log), pairs, i, ledger, netPowerChange, log);
      gridPower := gridPower + netPowerChange;
    }

    /**
     * Settle the first `n` matched pairs, write the settled assets back, log
     * each settlement and fold the net change into the grid power.
     */
    method TradeN(n: int) returns (netPowerChange: int)
      requires Valid()
      modifies this
      ensures Valid()
      ensures ledger == Trade(old(ledger), n).ledger
      ensures netPowerChange == Trade(old(ledger), n).net
      ensures gridPower == old(gridPower) + netPowerChange
      ensures log == old(log) + Trade(old(ledger), n).entries
    {
      ghost var trade := Trade(ledger, n);
      var assets := GetAllAssets();
      var producers := SortedProducers(assets);
      var consumers := SortedConsumers(assets);
      var minLength := Min(Min(|producers|, |consumers|), n);
      ghost var pairs := TradePairs(assets, n);
      assert trade == SettleAll(ledger, pairs);
      TradeWalk(ledger, n);
      netPowerChange := SettleMatched(producers, consumers, minLength, pairs);
    }
  }
}
