# Energy-trading asset ledger, modelled in Dafny

This project models the core of `assetTransfer.js`, a Hyperledger Fabric chaincode contract.
The contract keeps energy **producers** and **consumers** as asset records in the ledger's world
state, which maps each asset id to its record. It trades energy between them and keeps two
process-wide values: the grid power (initially `10KW`) and a transaction log.

The model is split into these modules:

- `KeyOrder` (`key_order.dfy`): the order in which a range scan over all keys visits them.
  Keys are compared character by character, and a proper prefix comes first. The module proves
  this is a total order and builds the sorted key sequence of a key set.
- `Ledger` (`ledger.dfy`): the `Asset` record and the store (`map<string, Asset>`).
  - `AssetExists`, `Create`, `Read`, `Update` and `Delete` each have an error result
    (`AlreadyExists`, `NotFound`).
  - `ScanOrder` is what the full range scan yields: every record once, in ascending key order.
- `Matcher` (`matcher.dfy`): the pairing shared by `tradeN` and `calcAndViewCG`.
  - The scan is filtered by type.
  - Each side is sorted with a stable sort. Producers go by descending current value and
    consumers by ascending current value, as `Array.prototype.sort` does with the source's
    comparators.
  - The i-th producer is zipped with the i-th consumer.
- `Settlement` (`settlement.dfy`): settling one pair.
  - If the producer covers the consumer, it delivers the consumer's demand and keeps the
    surplus.
  - Otherwise it is drained and the deficit is drawn from the grid.
  - `SettleAll` folds the settlements over a batch of pairs. `Trade` is what `tradeN(n)` does
    to a ledger.
- `Ratios` (`ratios.dfy`): the consumption–generation ratio report.
  - It covers the same pairs as a trade, with no cap.
  - Each ratio is kept as an exact fraction. It is `Undefined` where the denominator is zero.
- `Contract` (`asset_transfer.dfy`): class `AssetTransfer`, with these fields:
  - the `ledger`;
  - `gridPower`, the numeric part of `currentGridPower`;
  - `log`, the transaction log.

  Its methods update those fields in place:
  - `InitLedger` and the CRUD methods;
  - `GetAllAssets`, a loop over the scan;
  - `CalcAndViewCG`, which changes nothing;
  - `TradeN`, whose settlement loop `SettleMatched` calls `SettlePair` once per matched pair.
    `SettlePair` follows the source's two branches, writes both records back with
    `UpdateAsset`, and appends to the log.

  Each method is proved against the functions above. `TradeN` leaves exactly the ledger, net
  change and log that `Trade` describes, and it adds the net change to the grid power.
- `Scenarios` (`scenarios.dfy`): worked settlements and ratios on single pairs.

## Model

| member | source | states |
|---|---|---|
| KeyOrder.KeyLeReflexive | assetTransfer.js:108 | Every key sorts at or before itself in the range-scan order. |
| KeyOrder.KeyLeAntisymmetric | assetTransfer.js:108 | Two keys that each sort at or before the other are equal, so the scan order has no ties between distinct keys. |
| KeyOrder.KeyLeTransitive | assetTransfer.js:108 | The scan order is transitive. |
| KeyOrder.KeyLeTotal | assetTransfer.js:108 | Any two keys are comparable in the scan order. |
| KeyOrder.LeastExists | assetTransfer.js:108-110 | Every non-empty key set has a key the scan visits first. |
| KeyOrder.LeastUnique | assetTransfer.js:108-110 | That first key is unique. |
| KeyOrder.SortedKeys | assetTransfer.js:108-121 | The keys in visiting order: each key of the set exactly once, strictly ascending. |
| KeyOrder.SortedKeysFirst | assetTransfer.js:109-120 | The scan visits the least key first, then the remaining keys in order. |
| Ledger.AssetExists | assetTransfer.js:90-93 | An asset exists exactly when reading its id succeeds. |
| Ledger.Create | assetTransfer.js:37-52 | Fails with AlreadyExists iff the id is taken. Otherwise the new record is stored under its id, the keys grow by exactly that id, and every existing record is kept. |
| Ledger.Read | assetTransfer.js:55-61 | Succeeds iff the id is stored, returning the stored record. Otherwise fails with NotFound. |
| Ledger.Update | assetTransfer.js:64-78 | Fails with NotFound iff the id is absent. Otherwise only that id's record is replaced and the keys are unchanged. |
| Ledger.Delete | assetTransfer.js:81-87 | Fails with NotFound iff the id is absent. Otherwise exactly that key is removed and the other records are kept. |
| Ledger.CreateKeepsWellKeyed | assetTransfer.js:37-52 | Creating keeps every record stored under its own id. |
| Ledger.UpdateKeepsWellKeyed | assetTransfer.js:64-78 | Updating keeps every record stored under its own id. |
| Ledger.DeleteKeepsWellKeyed | assetTransfer.js:81-87 | Deleting keeps every record stored under its own id. |
| Ledger.DeleteUndoesCreate | assetTransfer.js:81-87 | Deleting a freshly created record gives back the original store. |
| Ledger.ReadAfterWrite | assetTransfer.js:50 | After a successful create or update, reading the id returns the record written. |
| Ledger.ScanOrder | assetTransfer.js:106-123 | The full scan has one entry per stored record and contains every record. In a well-keyed store each entry is the record stored under its id, and no two entries share an id. |
| Ledger.ScanOrderAscending | assetTransfer.js:108-110 | The full scan yields records in ascending key order. |
| Ledger.ScanOrderFacts | assetTransfer.js:108-121 | Reading the store along the visiting order of its keys gives every record exactly once, and in a well-keyed store the ids ascend. |
| Ledger.ScanAdvance | assetTransfer.js:109-120 | Moving the record of the least unvisited key onto the results keeps results + remaining scan equal to the full scan. |
| Matcher.Sort | assetTransfer.js:149-150 | The result is a permutation of the input, sorted by the key, and stable: assets with equal current value keep their relative order. |
| Matcher.OfType | assetTransfer.js:146-147 | The result keeps exactly the assets of the given type, and is a sub-multiset of the input. Its order is pinned by OfTypeAppend and OfTypeSingle. |
| Matcher.OfTypeAppend | assetTransfer.js:146-147 | Filtering keeps input order: filtering `s + t` gives the kept assets of `s` followed by those of `t`. |
| Matcher.OfTypeSingle | assetTransfer.js:181-182 | One asset is kept iff it has the type, and filtering nothing gives nothing. Together with OfTypeAppend this fixes the filter's result for every input. |
| Matcher.SortedProducers | assetTransfer.js:184 | The producers re-ordered: a permutation of the filtered producers, in non-increasing current value, stable among equal values. |
| Matcher.SortedConsumers | assetTransfer.js:185 | The consumers re-ordered: a permutation of the filtered consumers, in non-decreasing current value, stable among equal values. |
| Matcher.TradeCount | assetTransfer.js:187 | The count is at most the number of matchable pairs and at most n, equals one of them when n > 0, and is 0 when n ≤ 0. That is `Math.min(#p, #c, n)` clamped at 0 for the loop. |
| Matcher.Zip | assetTransfer.js:152-157 | As many pairs as the shorter side has assets; the i-th pair holds the i-th producer and the i-th consumer. |
| Matcher.Matching | assetTransfer.js:146-157 | min(#producers, #consumers) pairs. Every pair is a producer with a consumer, both from the scan. Producer values never increase and consumer values never decrease along the pairs. |
| Matcher.MatchingSides | assetTransfer.js:152-157 | The matched producers and matched consumers are prefixes of the two sorted sides. |
| Matcher.MatchingZips | assetTransfer.js:155-157 | The i-th pair holds the i-th sorted producer and the i-th sorted consumer. |
| Matcher.TradePairs | assetTransfer.js:187 | A trade of n settles min(#producers, #consumers, n) pairs, or none when n is not positive; they are the first pairs of the uncapped matching. |
| Matcher.TradePairsSides | assetTransfer.js:187-192 | The j-th pair of a capped trade is the j-th sorted producer with the j-th sorted consumer. |
| Matcher.MatchingTakesRichestProducers | assetTransfer.js:149 | No unmatched producer has a higher current value than any matched producer. |
| Matcher.MatchingTakesNeediestConsumers | assetTransfer.js:150 | No unmatched consumer has a lower current value than any matched consumer. |
| Matcher.MatchingBreaksTiesInScanOrder | assetTransfer.js:149-150 | Among producers (or consumers) with the same current value, the matched ones are the first of them in scan order. |
| Matcher.SortedSidesUnique | assetTransfer.js:181-185 | With unique ids in the scan, each sorted side holds only its own type, is drawn from the scan, and has unique ids. |
| Matcher.DistinctAssetsDistinctIds | assetTransfer.js:181-182 | Two different assets taken from a scan with unique ids have different ids. |
| Matcher.MatchingDisjoint | assetTransfer.js:190-209 | With unique ids, no asset appears in two pairs, and no pair's producer is any pair's consumer. |
| Settlement.Settle | assetTransfer.js:194-206 | The consumer is drained to 0 and the producer loses min(producer, consumer), with other fields unchanged. The grid changes by producer − consumer in both branches. A Flow line is logged for the delivered amount, plus an Exhausted line with the deficit iff producer ≤ consumer. Non-negative values stay non-negative. |
| Settlement.SettleAll | assetTransfer.js:190-209 | The settlement loop as a fold. It loses no key. Its properties are in SettleAllNet, SettleAllLogLength, SettleAllSplit, SettleAllFrame, SettleAllKeys, SettleAllNonNegative, SettleAllWellKeyed and SettleAllWrites. |
| Settlement.SettleAllStep | assetTransfer.js:190-209 | Settling one more pair writes both settled records, adds its delta and appends its log lines. |
| Settlement.SettledUpToStep | assetTransfer.js:190-210 | The loop invariant of `tradeN` is kept by one iteration: settling pair i on top of the first i pairs gives the ledger, net change and log of the first i + 1. |
| Settlement.SettledUpToAll | assetTransfer.js:190-212 | When the loop has walked every pair, the ledger, net change and log are those of the whole batch. |
| Settlement.SettleAllExtendsLog | assetTransfer.js:196-202 | The log grows by exactly the next pair's lines. |
| Settlement.SettleAllNet | assetTransfer.js:188-206 | A batch's net grid change is the matched supply minus the matched demand. |
| Settlement.SettleAllLogLength | assetTransfer.js:196-202 | A batch logs one line per pair plus one per exhausted producer. |
| Settlement.SettleAllSplit | assetTransfer.js:190-210 | Settling a batch in two parts equals settling it at once: the ledger carries over, net changes add and log lines follow in pair order. |
| Settlement.SettleAllFrame | assetTransfer.js:208-209 | No key disappears, and a record no pair names is left as it was. |
| Settlement.SettleAllKeys | assetTransfer.js:208-209 | A batch over records already in the ledger adds no key. |
| Settlement.SettleAllNonNegative | assetTransfer.js:194-209 | A batch on non-negative values leaves every stored value non-negative. |
| Settlement.SettleAllWellKeyed | assetTransfer.js:208-209 | Writing settled records under their ids keeps the ledger well keyed. |
| Settlement.SettleAllWrites | assetTransfer.js:199-209 | When no asset is in two pairs, each pair's producer and consumer are stored exactly as their own settlement left them. |
| Settlement.Trade | assetTransfer.js:177-210 | What `tradeN(n)` does to the ledger. It logs between one and two lines per settled pair, and it is a no-op for n ≤ 0. Its properties are in TradeTotals, TradeNoOp, TradeWrites and TradeNonNegative. |
| Settlement.TradeTotals | assetTransfer.js:187-203 | A trade settles min(#producers, #consumers, n) pairs, or none for n ≤ 0. Its net change is their supply minus their demand, and its log has one line per pair plus one per exhausted producer. |
| Settlement.TradeNoOp | assetTransfer.js:187-190 | When n ≤ 0 or one side is empty, the ledger is unchanged, the net change is 0 and nothing is logged. |
| Settlement.TradePairsFrom | assetTransfer.js:178-192 | Pairs drawn from records of a ledger name records the ledger holds under their ids. |
| Settlement.TradePairsFromLedger | assetTransfer.js:178-192 | Every asset a trade settles is the record the ledger holds under its id. |
| Settlement.TradePairsDisjoint | assetTransfer.js:181-209 | In a well-keyed ledger, no asset is settled twice by one trade. |
| Settlement.TradeWalk | assetTransfer.js:187-192 | A trade's pairs walk the two sorted sides in step for min(#producers, #consumers, n) steps, and every asset they touch is in the ledger. |
| Settlement.SettledLedger | assetTransfer.js:208-209 | For disjoint pairs from a well-keyed ledger: keys are unchanged, the ledger stays well keyed, each pair's assets are stored as settled, and untouched records are unchanged. |
| Settlement.TradeWrites | assetTransfer.js:194-209 | After a trade, each matched consumer is stored at 0 and each matched producer reduced by what it delivered. Every other record, the keys and well-keyedness are unchanged. |
| Settlement.TradeNonNegative | assetTransfer.js:194-209 | A trade on a ledger with no negative value leaves no negative value. |
| Ratios.CgRatio | assetTransfer.js:159 | The ratio is undefined iff producer = consumer. Otherwise it is consumer / (producer − consumer), with numerator = consumer and numerator + denominator = producer. |
| Ratios.CgRatios | assetTransfer.js:152-166 | One entry per matched pair, in pairing order, naming that pair's producer and consumer ids. Each entry's ratio is CgRatio of that pair, so it is consumer / (producer − consumer), or Undefined when they are equal. |
| Ratios.CgRatiosMatchTrade | assetTransfer.js:146-166 | The report covers exactly the pairs a large enough trade settles. Each ratio is undefined iff settling its pair leaves the grid unchanged. Otherwise its numerator is the consumer's demand and its denominator is that pair's grid change, positive iff exactly one line is logged. |
| Ratios.RatioIsNetChange | assetTransfer.js:159 | One pair's ratio is its consumer's demand over its settlement's grid change. |
| Contract.Seed | assetTransfer.js:17-27 | The eight seed records have distinct ids. |
| Contract.Ids | assetTransfer.js:30-32 | The set holds exactly the ids of the records. |
| Contract.PutAll | assetTransfer.js:30-33 | The seeding loop as a fold. No key is lost, and the last record stored sits under its id. Its properties are in PutAllKeys, PutAllFrame, PutAllStored and PutAllWellKeyed. |
| Contract.PutAllKeys | assetTransfer.js:30-33 | Storing records adds exactly their ids to the keys. |
| Contract.PutAllFrame | assetTransfer.js:30-33 | A record whose id is not stored over is kept. |
| Contract.PutAllStored | assetTransfer.js:30-33 | With distinct ids, every stored record ends up under its own id. |
| Contract.PutAllWellKeyed | assetTransfer.js:30-33 | Storing records under their ids keeps the store well keyed. |
| Contract.SeededStore | assetTransfer.js:16-34 | After seeding, each of the eight records is stored under its id, the keys grow by exactly their ids, and every other record is kept. |
| Contract.AssetTransfer.constructor | assetTransfer.js:9-10 | Empty ledger, grid power 10, empty log. |
| Contract.AssetTransfer.InitLedger | assetTransfer.js:16-34 | The ledger becomes the old ledger with the seed records stored in order. Grid power and log are unchanged and the ledger stays well keyed. |
| Contract.AssetTransfer.AssetExists | assetTransfer.js:90-93 | True iff the id is stored. |
| Contract.AssetTransfer.CreateAsset | assetTransfer.js:37-52 | Succeeds iff the id was absent, returning the new record and storing it under its id. Otherwise fails with AlreadyExists and leaves the ledger unchanged. |
| Contract.AssetTransfer.ReadAsset | assetTransfer.js:55-61 | Returns the stored record iff the id is stored, and NotFound otherwise. |
| Contract.AssetTransfer.UpdateAsset | assetTransfer.js:64-78 | Succeeds iff the id was stored, replacing only that record. Otherwise fails with NotFound and leaves the ledger unchanged. |
| Contract.AssetTransfer.DeleteAsset | assetTransfer.js:81-87 | Succeeds iff the id was stored, removing only that key. Otherwise fails with NotFound and leaves the ledger unchanged. |
| Contract.AssetTransfer.GetAllAssets | assetTransfer.js:106-123 | Returns the full range scan: every record once, in ascending key order. Nothing changes. |
| Contract.AssetTransfer.CalcAndViewCG | assetTransfer.js:142-174 | Returns the CG report on the current scan and modifies nothing. |
| Contract.AssetTransfer.SettlePair | assetTransfer.js:191-209 | Writes back exactly the two settled records, appends exactly that pair's log lines, returns its grid change, and leaves grid power unchanged. |
| Contract.AssetTransfer.SettleMatched | assetTransfer.js:188-212 | After the loop, ledger, net change and log are those of settling the walked pairs in order, and grid power grows by the net change. |
| Contract.AssetTransfer.TradeN | assetTransfer.js:177-214 | Ledger, net change and appended log lines are exactly `Trade(old ledger, n)`. Grid power becomes old + net, the log only grows, and the ledger stays well keyed. |
| Scenarios.SurplusSettlement | assetTransfer.js:201-206 | A producer of 1400 serving a consumer of 600 keeps 800, and the grid gains 800 with one log line. |
| Scenarios.ExhaustedProducerDrawsFromGrid | assetTransfer.js:194-200 | A producer of 350 against a consumer of 450 is drained, the grid loses 100, and two lines are logged. |
| Scenarios.EqualValuesGiveUndefinedRatio | assetTransfer.js:159 | Equal producer and consumer values give an undefined ratio. |

## Left out

- The Fabric stub (`getState`, `putState`, `deleteState`, `getStateByRange` and its iterator) is
  modelled as a map plus a scan function. `Buffer` handling and the key-ordering details of the
  underlying database beyond character-by-character comparison are not modelled.
- JSON encoding, `json-stringify-deterministic` and `sortKeysRecursive` are not modelled. Records
  are stored and returned as values.
- The `docType: 'asset'` field that `InitLedger` adds to seeded records is not modelled.
  `UpdateAsset` does not write it either.
- Contract.AssetTransfer.ReadAsset: returns the record rather than its JSON text.
- Contract.AssetTransfer.CreateAsset: returns the record rather than `JSON.stringify(asset)`.
- Contract.AssetTransfer.GetAllAssets: the `JSON.parse` fallback, which keeps a raw string when
  a stored value is not JSON, is not modelled. Every stored value is a record.
- `ViewAllAssets`, `ViewTxnLog` and `GetCurrentGridPower` only format text, so they are not
  modelled. The log entries keep the logged names and amounts but not the ISO timestamps or the
  message text.
- `TransferAsset` is not modelled. It rewrites an `Owner` field that is not part of the asset
  record.
- Contract.AssetTransfer.TradeN: grid power is an integer of kilowatts. Rendering it as
  `"<n>KW"` and reading it back with `parseInt` are not modelled.
- Contract.AssetTransfer.TradeN: `n` is an integer. Fabric passes it as a string, and
  `Math.min` with a non-integral `n` would run `ceil(n)` steps; neither is modelled.
- Asset values are integers. Values that `CreateAsset`/`UpdateAsset` receive as strings are not
  modelled. With them, `<=` in `tradeN` would compare text rather than numbers.
- Ratios.CgRatio: JavaScript floating-point division is modelled as an exact fraction. Division
  by zero, which gives `Infinity` or `NaN` in the source, is a distinguished `Undefined` result.
  The text of the report is not modelled.
- Concurrency, transaction abort and rollback are not modelled. Neither is the fact that grid
  power and the log are per-process values that differ between peers: the class holds one copy
  of each.
