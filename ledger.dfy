/**
 * Asset records and the key-value store that holds them: the world state the
 * contract reads and writes by asset id, and the range scan over all keys.
 */
module Ledger {
  import opened KeyOrder

  const PRODUCER: string := "producer"
  const CONSUMER: string := "consumer"

  /**
   * One asset record. `assetType` is the source's `type` field: "producer",
   * "consumer", or any other string a caller stored.
   */
  datatype Asset = Asset(id: string, name: string, assetType: string, orgValue: int, currValue: int)

  datatype StoreError = AlreadyExists(id: string) | NotFound(id: string)

  datatype Result<T> = Ok(value: T) | Err(error: StoreError)

  type Store = map<string, Asset>

  /** Every record is stored under its own id. */
  ghost predicate WellKeyed(m: Store) {
    forall k :: k in m ==> m[k].id == k
  }

  function AssetExists(m: Store, id: string): (b: bool)
    ensures b <==> Read(m, id).Ok?
  {
    id in m
  }

  /** Store a new record; refused when its id is already taken. */
  function Create(m: Store, a: Asset): (r: Result<Store>)
    ensures r.Err? <==> a.id in m
    ensures r.Err? ==> r.error == AlreadyExists(a.id)
    ensures r.Ok? ==> r.value.Keys == m.Keys + {a.id} && r.value[a.id] == a
    ensures r.Ok? ==> forall k :: k in m ==> r.value[k] == m[k]
  {
    if AssetExists(m, a.id) then Err(AlreadyExists(a.id)) else Ok(m[a.id := a])
  }

  function Read(m: Store, id: string): (r: Result<Asset>)
    ensures r.Ok? <==> id in m
    ensures r.Ok? ==> r.value == m[id]
    ensures r.Err? ==> r.error == NotFound(id)
  {
    if id in m then Ok(m[id]) else Err(NotFound(id))
  }

  /** Overwrite an existing record; refused when its id is absent. */
  function Update(m: Store, a: Asset): (r: Result<Store>)
    ensures r.Err? <==> a.id !in m
    ensures r.Err? ==> r.error == NotFound(a.id)
    ensures r.Ok? ==> r.value.Keys == m.Keys && r.value[a.id] == a
    ensures r.Ok? ==> forall k :: k in m && k != a.id ==> r.value[k] == m[k]
  {
    if !AssetExists(m, a.id) then Err(NotFound(a.id)) else Ok(m[a.id := a])
  }

  /** Remove an existing record; refused when its id is absent. */
  function Delete(m: Store, id: string): (r: Result<Store>)
    ensures r.Err? <==> id !in m
    ensures r.Err? ==> r.error == NotFound(id)
    ensures r.Ok? ==> r.value.Keys == m.Keys - {id}
    ensures r.Ok? ==> forall k :: k in r.value ==> r.value[k] == m[k]
  {
    if !AssetExists(m, id) then Err(NotFound(id)) else Ok(m - {id})
  }

  lemma CreateKeepsWellKeyed(m: Store, a: Asset)
    requires WellKeyed(m) && Create(m, a).Ok?
    ensures WellKeyed(Create(m, a).value)
  {
  }

  lemma UpdateKeepsWellKeyed(m: Store, a: Asset)
    requires WellKeyed(m) && Update(m, a).Ok?
    ensures WellKeyed(Update(m, a).value)
  {
  }

  lemma DeleteKeepsWellKeyed(m: Store, id: string)
    requires WellKeyed(m) && Delete(m, id).Ok?
    ensures WellKeyed(Delete(m, id).value)
  {
  }

  /** Deleting a freshly created record gives back the store as it was. */
  lemma DeleteUndoesCreate(m: Store, a: Asset)
    requires a.id !in m
    ensures Create(m, a).Ok?
    ensures Delete(Create(m, a).value, a.id) == Ok(m)
  {
    assert m[a.id := a] - {a.id} == m;
  }

  /** Reading a record returns what the last successful write stored. */
  lemma ReadAfterWrite(m: Store, a: Asset)
    ensures Create(m, a).Ok? ==> Read(Create(m, a).value, a.id) == Ok(a)
    ensures Update(m, a).Ok? ==> Read(Update(m, a).value, a.id) == Ok(a)
  {
  }

  /** The records stored under `keys`, in that order. */
  function ValuesAt(m: Store, keys: seq<string>): (r: seq<Asset>)
    requires forall k :: k in keys ==> k in m
    ensures |r| == |keys|
    ensures forall i :: 0 <= i < |keys| ==> r[i] == m[keys[i]]
  {
    seq(|keys|, i requires 0 <= i < |keys| => m[keys[i]])
  }

  /**
   * What a range scan over all keys yields: every record once, in ascending
   * key order.
   */
  ghost function ScanOrder(m: Store): (r: seq<Asset>)
    ensures |r| == |m|
    ensures forall k :: k in m ==> m[k] in r
    ensures WellKeyed(m) ==> forall a :: a in r ==> a.id in m && m[a.id] == a
    ensures WellKeyed(m) ==> forall i, j :: 0 <= i < j < |r| ==> r[i].id != r[j].id
  {
    var keys := SortedKeys(m.Keys);
    var r := ValuesAt(m, keys);
    ScanOrderFacts(m, keys, r);
    r
  }

  /** The range scan yields records in ascending key order. */
  lemma ScanOrderAscending(m: Store)
    requires WellKeyed(m)
    ensures var r := ScanOrder(m); forall i, j :: 0 <= i < j < |r| ==> KeyLe(r[i].id, r[j].id)
  {
    var keys := SortedKeys(m.Keys);
    ScanOrderFacts(m, keys, ScanOrder(m));
  }

  lemma ScanOrderFacts(m: Store, keys: seq<string>, r: seq<Asset>)
    requires ScanSorted(m.Keys, keys)
    requires |r| == |keys| && forall i :: 0 <= i < |keys| ==> r[i] == m[keys[i]]
    ensures |r| == |m|
    ensures forall k :: k in m ==> m[k] in r
    ensures WellKeyed(m) ==> forall a :: a in r ==> a.id in m && m[a.id] == a
    ensures WellKeyed(m) ==> forall i, j :: 0 <= i < j < |r| ==> KeyLe(r[i].id, r[j].id) && r[i].id != r[j].id
  {
    assert |m| == |m.Keys|;
    forall k | k in m
      ensures m[k] in r
    {
      var i := IndexOf(keys, k);
      assert r[i] == m[k];
    }
    if WellKeyed(m) {
      ScanOrderKeyed(m, keys, r);
    }
  }

  /** In a well-keyed store, the scanned records are stored under their ids, which ascend. */
  lemma ScanOrderKeyed(m: Store, keys: seq<string>, r: seq<Asset>)
    requires WellKeyed(m) && ScanSorted(m.Keys, keys)
    requires |r| == |keys| && forall i :: 0 <= i < |keys| ==> r[i] == m[keys[i]]
    ensures forall a :: a in r ==> a.id in m && m[a.id] == a
    ensures forall i, j :: 0 <= i < j < |r| ==> KeyLe(r[i].id, r[j].id) && r[i].id != r[j].id
  {
    forall a | a in r
      ensures a.id in m && m[a.id] == a
    {
      var i :| 0 <= i < |r| && r[i] == a;
      assert keys[i] in m.Keys;
    }
    forall i, j | 0 <= i < j < |r|
      ensures KeyLe(r[i].id, r[j].id) && r[i].id != r[j].id
    {
      assert keys[i] in m.Keys && keys[j] in m.Keys;
      assert r[i].id == keys[i] && r[j].id == keys[j];
    }
  }

  function IndexOf(s: seq<string>, x: string): (i: nat)
    requires x in s
    ensures i < |s| && s[i] == x
  {
    if s[0] == x then 0 else 1 + IndexOf(s[1..], x)
  }

  /**
   * Splitting the scan at its first key. A separate lemma so that callers do
   * not pay for sequence extensionality in their own, larger proof context.
   */
  lemma ValuesAtCons(m: Store, k: string, keys: seq<string>)
    requires k in m && forall j :: j in keys ==> j in m
    ensures ValuesAt(m, [k] + keys) == [m[k]] + ValuesAt(m, keys)
  {
  }

  /** The records stored under `keys`, in ascending key order. */
  ghost function Scan(m: Store, keys: set<string>): seq<Asset>
    requires keys <= m.Keys
  {
    ValuesAt(m, SortedKeys(keys))
  }

  /** A scan over every key is the full range scan; a scan over no key is empty. */
  lemma ScanBounds(m: Store)
    ensures Scan(m, m.Keys) == ScanOrder(m)
    ensures Scan(m, {}) == []
  {
  }

  /** The scan of `keys` is the record of its least key followed by the scan of the rest. */
  lemma ScanStep(m: Store, keys: set<string>, k: string)
    requires keys <= m.Keys && IsLeast(k, keys)
    ensures Scan(m, keys) == [m[k]] + Scan(m, keys - {k})
  {
    SortedKeysFirst(keys, k);
    ValuesAtCons(m, k, SortedKeys(keys - {k}));
  }

  /** Moving the least unscanned key's record onto what has been scanned keeps the total scan. */
  lemma ScanAdvance(m: Store, done: seq<Asset>, keys: set<string>, k: string, total: seq<Asset>)
    requires keys <= m.Keys && IsLeast(k, keys)
    requires done + Scan(m, keys) == total
    ensures (done + [m[k]]) + Scan(m, keys - {k}) == total
  {
    ScanStep(m, keys, k);
    var later := Scan(m, keys - {k});
    assert done + ([m[k]] + later) == (done + [m[k]]) + later;
  }
}
