/**
 * The matcher shared by the trade and the CG-ratio view: split the scanned
 * assets by type, sort producers by current value descending and consumers
 * ascending (a stable sort, as JavaScript's Array.prototype.sort is), and pair
 * the i-th producer with the i-th consumer.
 */
module Matcher {
  import opened Ledger

  datatype Direction = Ascending | Descending

  datatype Pair = Pair(producer: Asset, consumer: Asset)

  function Min(a: int, b: int): int {
    if a <= b then a else b
  }

  /**
   * The sort key. The producers' comparator `b.currValue - a.currValue` orders
   * by descending value, that is by ascending negated value.
   */
  function Key(d: Direction, a: Asset): int {
    match d
    case Ascending => a.currValue
    case Descending => -a.currValue
  }

  ghost predicate Sorted(d: Direction, s: seq<Asset>) {
    forall i, j :: 0 <= i < j < |s| ==> Key(d, s[i]) <= Key(d, s[j])
  }

  /** The assets of `s` whose current value is `v`, in the order of `s`. */
  function WithValue(s: seq<Asset>, v: int): seq<Asset> {
    if s == [] then []
    else (if s[0].currValue == v then [s[0]] else []) + WithValue(s[1..], v)
  }

  /** The one-element contribution of `a` to `WithValue`. */
  function Only(a: Asset, v: int): seq<Asset> {
    if a.currValue == v then [a] else []
  }

  lemma WithValueCons(a: Asset, s: seq<Asset>, v: int)
    ensures WithValue([a] + s, v) == Only(a, v) + WithValue(s, v)
  {
    assert ([a] + s)[1..] == s;
  }

  lemma {:induction false} WithValueAppend(a: seq<Asset>, b: seq<Asset>, v: int)
    ensures WithValue(a + b, v) == WithValue(a, v) + WithValue(b, v)
    decreases |a|
  {
    if a == [] {
      assert a + b == b;
    } else {
      var h, a' := a[0], a[1..];
      assert a == [h] + a';
      assert a + b == [h] + (a' + b);
      WithValueCons(h, a' + b, v);
      WithValueCons(h, a', v);
      WithValueAppend(a', b, v);
      assert Only(h, v) + (WithValue(a', v) + WithValue(b, v))
          == (Only(h, v) + WithValue(a', v)) + WithValue(b, v);
    }
  }

  /** A permutation has the same length and the same members. */
  lemma PermutationFacts(s: seq<Asset>, r: seq<Asset>)
    requires multiset(r) == multiset(s)
    ensures |r| == |s|
    ensures forall a :: a in r <==> a in s
  {
    assert |r| == |multiset(r)|;
    forall a
      ensures a in r <==> a in s
    {
      assert a in r <==> a in multiset(r);
      assert a in s <==> a in multiset(s);
    }
  }

  /**
   * Stability: for every value, the assets carrying it come out in the order
   * they went in.
   */
  ghost predicate Stable(s: seq<Asset>, r: seq<Asset>) {
    forall v :: WithValue(r, v) == WithValue(s, v)
  }

  /** Every asset of `s` has a key of at least `b`. */
  ghost predicate KeysFrom(d: Direction, b: int, s: seq<Asset>) {
    forall y :: y in s ==> b <= Key(d, y)
  }

  /** Insert `x` before the first element that does not sort strictly before it. */
  function Insert(d: Direction, x: Asset, t: seq<Asset>): (r: seq<Asset>)
    ensures multiset(r) == multiset(t) + multiset{x}
  {
    if t == [] || Key(d, x) <= Key(d, t[0]) then [x] + t
    else
      assert t == [t[0]] + t[1..];
      [t[0]] + Insert(d, x, t[1..])
  }

  /** A lower bound on the keys of `t` and of `x` bounds the keys after inserting. */
  lemma InsertKeysFrom(d: Direction, b: int, x: Asset, t: seq<Asset>)
    requires KeysFrom(d, b, t) && b <= Key(d, x)
    ensures KeysFrom(d, b, Insert(d, x, t))
  {
    var r := Insert(d, x, t);
    forall y | y in r
      ensures b <= Key(d, y)
    {
      assert y in multiset(r);
      assert y == x || y in multiset(t);
    }
  }

  /** A sorted sequence stays sorted under a head whose key bounds all of it. */
  lemma SortedCons(d: Direction, h: Asset, r: seq<Asset>)
    requires Sorted(d, r) && KeysFrom(d, Key(d, h), r)
    ensures Sorted(d, [h] + r)
  {
    var s := [h] + r;
    forall i, j | 0 <= i < j < |s|
      ensures Key(d, s[i]) <= Key(d, s[j])
    {
      assert s[j] == r[j - 1];
      if i > 0 {
        assert s[i] == r[i - 1];
      }
    }
  }

  lemma {:induction false} InsertSorted(d: Direction, x: Asset, t: seq<Asset>)
    requires Sorted(d, t)
    ensures Sorted(d, Insert(d, x, t))
    decreases |t|
  {
    if t == [] {
      assert Insert(d, x, t) == [x];
    } else if Key(d, x) <= Key(d, t[0]) {
      assert KeysFrom(d, Key(d, x), t) by {
        forall y | y in t
          ensures Key(d, x) <= Key(d, y)
        {
          var k :| 0 <= k < |t| && t[k] == y;
          if k > 0 {
            assert Key(d, t[0]) <= Key(d, t[k]);
          }
        }
      }
      SortedCons(d, x, t);
    } else {
      var h, t' := t[0], t[1..];
      assert Sorted(d, t') by {
        forall i, j | 0 <= i < j < |t'|
          ensures Key(d, t'[i]) <= Key(d, t'[j])
        {
          assert t'[i] == t[i + 1] && t'[j] == t[j + 1];
        }
      }
      assert KeysFrom(d, Key(d, h), t') by {
        forall y | y in t'
          ensures Key(d, h) <= Key(d, y)
        {
          var k :| 0 <= k < |t'| && t'[k] == y;
          assert t'[k] == t[k + 1];
        }
      }
      InsertSorted(d, x, t');
      InsertKeysFrom(d, Key(d, h), x, t');
      SortedCons(d, h, Insert(d, x, t'));
    }
  }

  /** Moving `x` past an asset of a different value does not change what carries `v`. */
  lemma SwapPast(x: Asset, h: Asset, w: seq<Asset>, v: int)
    requires x.currValue != h.currValue
    ensures Only(h, v) + (Only(x, v) + w) == Only(x, v) + (Only(h, v) + w)
  {
    if x.currValue == v {
      assert Only(h, v) == [];
    } else {
      assert Only(x, v) == [];
    }
  }

  /** Unfolds `WithValue` at the head; a separate lemma to keep the callers' proofs cheap. */
  lemma WithValueHead(s: seq<Asset>, v: int)
    requires s != []
    ensures WithValue(s, v) == Only(s[0], v) + WithValue(s[1..], v)
  {
  }

  /** Unfolds `Insert` past a smaller head; a separate lemma to keep the callers' proofs cheap. */
  lemma InsertPastHead(d: Direction, x: Asset, t: seq<Asset>)
    requires t != [] && Key(d, t[0]) < Key(d, x)
    ensures Insert(d, x, t) == [t[0]] + Insert(d, x, t[1..])
  {
  }

  /** The inductive step of `InsertStable`, past a head `t[0]` that sorts strictly first. */
  lemma InsertStableStep(d: Direction, x: Asset, t: seq<Asset>, v: int)
    requires t != [] && Key(d, t[0]) < Key(d, x)
    requires WithValue(Insert(d, x, t[1..]), v) == Only(x, v) + WithValue(t[1..], v)
    ensures WithValue(Insert(d, x, t), v) == Only(x, v) + WithValue(t, v)
  {
    InsertPastHead(d, x, t);
    WithValueCons(t[0], Insert(d, x, t[1..]), v);
    WithValueHead(t, v);
    SwapPast(x, t[0], WithValue(t[1..], v), v);
  }

  /** Inserting `x` keeps it ahead of the elements of `t` that carry its value. */
  lemma {:induction false} InsertStable(d: Direction, x: Asset, t: seq<Asset>, v: int)
    ensures WithValue(Insert(d, x, t), v) == Only(x, v) + WithValue(t, v)
    decreases |t|
  {
    if t == [] || Key(d, x) <= Key(d, t[0]) {
      WithValueCons(x, t, v);
    } else {
      InsertStable(d, x, t[1..], v);
      InsertStableStep(d, x, t, v);
    }
  }

  /** One step of the sort: inserting the head into the sorted tail. */
  lemma SortStep(d: Direction, s: seq<Asset>, rest: seq<Asset>)
    requires s != []
    requires multiset(rest) == multiset(s[1..]) && Sorted(d, rest) && Stable(s[1..], rest)
    ensures multiset(Insert(d, s[0], rest)) == multiset(s)
    ensures Sorted(d, Insert(d, s[0], rest))
    ensures Stable(s, Insert(d, s[0], rest))
  {
    assert s == [s[0]] + s[1..];
    InsertSorted(d, s[0], rest);
    forall v
      ensures WithValue(Insert(d, s[0], rest), v) == WithValue(s, v)
    {
      InsertStable(d, s[0], rest, v);
      WithValueCons(s[0], s[1..], v);
    }
  }

  /** A stable sort by `Key(d, _)`: a model of Array.prototype.sort with this comparator. */
  function Sort(d: Direction, s: seq<Asset>): (r: seq<Asset>)
    ensures multiset(r) == multiset(s)
    ensures Sorted(d, r)
    ensures Stable(s, r)
  {
    if s == [] then []
    else
      var rest := Sort(d, s[1..]);
      SortStep(d, s, rest);
      Insert(d, s[0], rest)
  }

  /** The assets of `s` whose type is `kind`, in the order of `s`. */
  function OfType(s: seq<Asset>, kind: string): (r: seq<Asset>)
    ensures forall a :: a in r <==> a in s && a.assetType == kind
    ensures multiset(r) <= multiset(s)
  {
    if s == [] then []
    else
      assert s == [s[0]] + s[1..];
      (if s[0].assetType == kind then [s[0]] else []) + OfType(s[1..], kind)
  }

  /**
   * Filtering keeps input order: the kept assets of `s + t` are those of `s`
   * followed by those of `t`.
   */
  lemma {:induction false} OfTypeAppend(s: seq<Asset>, t: seq<Asset>, kind: string)
    ensures OfType(s + t, kind) == OfType(s, kind) + OfType(t, kind)
    decreases |s|
  {
    if s == [] {
      assert s + t == t;
    } else {
      assert (s + t)[1..] == s[1..] + t;
      OfTypeAppend(s[1..], t, kind);
    }
  }

  /** A single asset is kept exactly when it has the type; nothing is kept from nothing. */
  lemma OfTypeSingle(a: Asset, kind: string)
    ensures OfType([a], kind) == (if a.assetType == kind then [a] else [])
    ensures OfType([], kind) == []
  {
  }

  function Producers(assets: seq<Asset>): seq<Asset> {
    OfType(assets, PRODUCER)
  }

  function Consumers(assets: seq<Asset>): seq<Asset> {
    OfType(assets, CONSUMER)
  }

  function Zip(ps: seq<Asset>, cs: seq<Asset>): (r: seq<Pair>)
    ensures |r| == Min(|ps|, |cs|)
    ensures forall i :: 0 <= i < |r| ==> r[i].producer == ps[i] && r[i].consumer == cs[i]
  {
    seq(Min(|ps|, |cs|), i requires 0 <= i < Min(|ps|, |cs|) => Pair(ps[i], cs[i]))
  }

  /**
   * All pairs, with no cap: richest remaining producer with neediest remaining
   * consumer, as many pairs as the shorter side allows.
   */
  function Matching(assets: seq<Asset>): (r: seq<Pair>)
    ensures |r| == Min(|Producers(assets)|, |Consumers(assets)|)
    ensures forall i :: 0 <= i < |r| ==>
      && r[i].producer in assets && r[i].producer.assetType == PRODUCER
      && r[i].consumer in assets && r[i].consumer.assetType == CONSUMER
    ensures forall i, j :: 0 <= i < j < |r| ==>
      r[i].producer.currValue >= r[j].producer.currValue && r[i].consumer.currValue <= r[j].consumer.currValue
  {
    var ps := SortedProducers(assets);
    var cs := SortedConsumers(assets);
    PermutationFacts(Producers(assets), ps);
    PermutationFacts(Consumers(assets), cs);
    Zip(ps, cs)
  }

  /** The producers, richest first; equal values keep scan order. */
  function SortedProducers(assets: seq<Asset>): (r: seq<Asset>)
    ensures multiset(r) == multiset(Producers(assets)) && Stable(Producers(assets), r)
    ensures forall i, j :: 0 <= i < j < |r| ==> r[i].currValue >= r[j].currValue
  {
    Sort(Descending, Producers(assets))
  }

  /** The consumers, smallest demand first; equal values keep scan order. */
  function SortedConsumers(assets: seq<Asset>): (r: seq<Asset>)
    ensures multiset(r) == multiset(Consumers(assets)) && Stable(Consumers(assets), r)
    ensures forall i, j :: 0 <= i < j < |r| ==> r[i].currValue <= r[j].currValue
  {
    Sort(Ascending, Consumers(assets))
  }

  /** The matched producers and consumers are the heads of the two sorted sides. */
  lemma MatchingSides(assets: seq<Asset>)
    ensures var r := Matching(assets);
      && |r| <= |SortedProducers(assets)| && |r| <= |SortedConsumers(assets)|
      && MatchedProducers(r) == SortedProducers(assets)[..|r|]
      && MatchedConsumers(r) == SortedConsumers(assets)[..|r|]
  {
    ZipSides(SortedProducers(assets), SortedConsumers(assets));
  }

  /** Unzipping a zip gives back the shorter prefix of each side. */
  lemma ZipSides(ps: seq<Asset>, cs: seq<Asset>)
    ensures var r := Zip(ps, cs);
      && |r| <= |ps| && |r| <= |cs|
      && MatchedProducers(r) == ps[..|r|]
      && MatchedConsumers(r) == cs[..|r|]
  {
  }

  /** Number of pairs a trade of `n` settles: `Math.min(#producers, #consumers, n)`, none when `n` is not positive. */
  function TradeCount(matched: nat, n: int): (r: nat)
    ensures r <= matched && (n > 0 ==> r <= n)
    ensures n <= 0 ==> r == 0
    ensures n > 0 ==> r == matched || r == n
  {
    if n <= 0 then 0 else Min(matched, n)
  }

  /** The pairs a trade capped at `n` settles: the first ones of the uncapped matching. */
  function TradePairs(assets: seq<Asset>, n: int): (r: seq<Pair>)
    ensures |r| == if n <= 0 then 0 else Min(Min(|Producers(assets)|, |Consumers(assets)|), n)
    ensures r == Matching(assets)[..|r|]
  {
    var m := Matching(assets);
    m[..TradeCount(|m|, n)]
  }

  function MatchedProducers(pairs: seq<Pair>): (r: seq<Asset>)
    ensures |r| == |pairs| && forall i :: 0 <= i < |pairs| ==> r[i] == pairs[i].producer
  {
    seq(|pairs|, i requires 0 <= i < |pairs| => pairs[i].producer)
  }

  function MatchedConsumers(pairs: seq<Pair>): (r: seq<Asset>)
    ensures |r| == |pairs| && forall i :: 0 <= i < |pairs| ==> r[i] == pairs[i].consumer
  {
    seq(|pairs|, i requires 0 <= i < |pairs| => pairs[i].consumer)
  }

  /**
   * A capped trade walks the two sorted sides in step: its `j`-th pair is the
   * `j`-th producer with the `j`-th consumer, for as many pairs as the shorter
   * side and the cap allow.
   */
  lemma TradePairsSides(assets: seq<Asset>, n: int)
    ensures var pairs := TradePairs(assets, n);
      var ps, cs := SortedProducers(assets), SortedConsumers(assets);
      && |pairs| == (if n <= 0 then 0 else Min(Min(|ps|, |cs|), n))
      && forall j :: 0 <= j < |pairs| ==> pairs[j] == Pair(ps[j], cs[j])
  {
    var pairs := TradePairs(assets, n);
    var all := Matching(assets);
    var ps, cs := SortedProducers(assets), SortedConsumers(assets);
    assert |ps| == |multiset(ps)| == |multiset(Producers(assets))| == |Producers(assets)|;
    assert |cs| == |multiset(cs)| == |multiset(Consumers(assets))| == |Consumers(assets)|;
    MatchingSides(assets);
    forall j | 0 <= j < |pairs|
      ensures pairs[j] == Pair(ps[j], cs[j])
    {
      assert pairs[j] == all[j];
      assert all[j].producer == MatchedProducers(all)[j];
      assert all[j].consumer == MatchedConsumers(all)[j];
    }
  }

  /** In a sorted sequence, what lies beyond position `k` sorts no earlier than what lies before it. */
  lemma SortedSuffixBound(d: Direction, s: seq<Asset>, k: nat)
    requires Sorted(d, s) && k <= |s|
    ensures forall p, i :: p in multiset(s) - multiset(s[..k]) && 0 <= i < k ==> Key(d, s[i]) <= Key(d, p)
  {
    assert s == s[..k] + s[k..];
    assert multiset(s) == multiset(s[..k]) + multiset(s[k..]);
    forall p, i | p in multiset(s) - multiset(s[..k]) && 0 <= i < k
      ensures Key(d, s[i]) <= Key(d, p)
    {
      assert p in multiset(s[k..]);
      assert p in s[k..];
      var j' :| 0 <= j' < |s| - k && s[k..][j'] == p;
      assert s[k + j'] == p;
    }
  }

  /** The matching zips the two sorted sides. */
  lemma MatchingZips(assets: seq<Asset>)
    ensures var r, ps, cs := Matching(assets), SortedProducers(assets), SortedConsumers(assets);
      && |r| <= |ps| && |r| <= |cs|
      && forall i :: 0 <= i < |r| ==> r[i].producer == ps[i] && r[i].consumer == cs[i]
  {
    assert Matching(assets) == Zip(SortedProducers(assets), SortedConsumers(assets));
  }

  /**
   * Taking a prefix of a sorted arrangement of `side`: whatever of `side` is
   * left over sorts no earlier than anything taken.
   */
  lemma PrefixTakesFirst(d: Direction, side: seq<Asset>, sorted: seq<Asset>, taken: seq<Asset>)
    requires multiset(side) == multiset(sorted) && Sorted(d, sorted)
    requires |taken| <= |sorted| && taken == sorted[..|taken|]
    ensures forall p, i :: p in multiset(side) - multiset(taken) && 0 <= i < |taken| ==>
      Key(d, taken[i]) <= Key(d, p)
  {
    SortedSuffixBound(d, sorted, |taken|);
  }

  /** Every producer left unmatched has at most the current value of any matched producer. */
  lemma MatchingTakesRichestProducers(assets: seq<Asset>)
    ensures var r := Matching(assets);
      forall p, i :: p in multiset(Producers(assets)) - multiset(MatchedProducers(r)) && 0 <= i < |r| ==>
        p.currValue <= r[i].producer.currValue
  {
    var r := Matching(assets);
    var taken := MatchedProducers(r);
    MatchingSides(assets);
    PrefixTakesFirst(Descending, Producers(assets), SortedProducers(assets), taken);
    forall p, i | p in multiset(Producers(assets)) - multiset(taken) && 0 <= i < |r|
      ensures p.currValue <= r[i].producer.currValue
    {
      assert Key(Descending, taken[i]) <= Key(Descending, p);
    }
  }

  /** Every consumer left unmatched needs at least as much as any matched consumer. */
  lemma MatchingTakesNeediestConsumers(assets: seq<Asset>)
    ensures var r := Matching(assets);
      forall c, i :: c in multiset(Consumers(assets)) - multiset(MatchedConsumers(r)) && 0 <= i < |r| ==>
        r[i].consumer.currValue <= c.currValue
  {
    var r := Matching(assets);
    var taken := MatchedConsumers(r);
    MatchingSides(assets);
    PrefixTakesFirst(Ascending, Consumers(assets), SortedConsumers(assets), taken);
    forall c, i | c in multiset(Consumers(assets)) - multiset(taken) && 0 <= i < |r|
      ensures r[i].consumer.currValue <= c.currValue
    {
      assert Key(Ascending, taken[i]) <= Key(Ascending, c);
    }
  }

  lemma WithValuePrefix(s: seq<Asset>, k: nat, v: int)
    requires k <= |s|
    ensures WithValue(s[..k], v) <= WithValue(s, v)
  {
    assert s == s[..k] + s[k..];
    WithValueAppend(s[..k], s[k..], v);
  }

  /**
   * Ties go by scan order: among the producers (consumers) that share a
   * current value, the matched ones are the first of them in the order of
   * `assets`.
   */
  lemma MatchingBreaksTiesInScanOrder(assets: seq<Asset>, v: int)
    ensures var r := Matching(assets);
      && WithValue(MatchedProducers(r), v) <= WithValue(Producers(assets), v)
      && WithValue(MatchedConsumers(r), v) <= WithValue(Consumers(assets), v)
  {
    var r := Matching(assets);
    MatchingSides(assets);
    WithValuePrefix(SortedProducers(assets), |r|, v);
    WithValuePrefix(SortedConsumers(assets), |r|, v);
    assert WithValue(SortedProducers(assets), v) == WithValue(Producers(assets), v);
    assert WithValue(SortedConsumers(assets), v) == WithValue(Consumers(assets), v);
  }

  /** No two positions of `s` hold assets with the same id. */
  ghost predicate UniqueIds(s: seq<Asset>) {
    forall i, j :: 0 <= i < j < |s| ==> s[i].id != s[j].id
  }

  /** No asset id occurs twice among all producers and consumers of `pairs`. */
  ghost predicate DisjointPairs(pairs: seq<Pair>) {
    && (forall i :: 0 <= i < |pairs| ==> pairs[i].producer.id != pairs[i].consumer.id)
    && (forall i, j :: 0 <= i < j < |pairs| ==>
          && pairs[i].producer.id != pairs[j].producer.id
          && pairs[i].producer.id != pairs[j].consumer.id
          && pairs[i].consumer.id != pairs[j].producer.id
          && pairs[i].consumer.id != pairs[j].consumer.id)
  }

  lemma {:induction false} UniqueIdsNoDuplicates(s: seq<Asset>)
    requires UniqueIds(s)
    ensures forall x :: multiset(s)[x] <= 1
  {
    if s != [] {
      assert UniqueIds(s[1..]) by {
        forall i, j | 0 <= i < j < |s[1..]|
          ensures s[1..][i].id != s[1..][j].id
        {
          assert s[1..][i] == s[i + 1] && s[1..][j] == s[j + 1];
        }
      }
      UniqueIdsNoDuplicates(s[1..]);
      assert s == [s[0]] + s[1..];
      assert s[0] !in s[1..];
    }
  }

  lemma RepeatCounted(s: seq<Asset>, i: int, j: int)
    requires 0 <= i < j < |s| && s[i] == s[j]
    ensures multiset(s)[s[i]] >= 2
  {
    assert s == s[..j] + s[j..];
    assert s[i] in s[..j];
    assert s[j] in s[j..];
  }

  /** A sequence without repeated elements that is drawn from `assets` has unique ids. */
  lemma NoDuplicatesUniqueIds(assets: seq<Asset>, s: seq<Asset>)
    requires UniqueIds(assets)
    requires forall a :: a in s ==> a in assets
    requires forall x :: multiset(s)[x] <= 1
    ensures UniqueIds(s)
  {
    forall i, j | 0 <= i < j < |s|
      ensures s[i].id != s[j].id
    {
      if s[i] == s[j] {
        RepeatCounted(s, i, j);
      } else {
        assert s[i] in assets && s[j] in assets;
        var p :| 0 <= p < |assets| && assets[p] == s[i];
        var q :| 0 <= q < |assets| && assets[q] == s[j];
        assert p != q;
      }
    }
  }

  /** Each sorted side is drawn from `assets`, holds only its own type, and keeps ids unique. */
  lemma SortedSidesUnique(assets: seq<Asset>)
    requires UniqueIds(assets)
    ensures UniqueIds(SortedProducers(assets)) && UniqueIds(SortedConsumers(assets))
    ensures forall a :: a in SortedProducers(assets) ==> a in assets && a.assetType == PRODUCER
    ensures forall a :: a in SortedConsumers(assets) ==> a in assets && a.assetType == CONSUMER
  {
    var ps := SortedProducers(assets);
    var cs := SortedConsumers(assets);
    PermutationFacts(Producers(assets), ps);
    PermutationFacts(Consumers(assets), cs);
    UniqueIdsNoDuplicates(assets);
    assert multiset(ps) <= multiset(assets);
    assert multiset(cs) <= multiset(assets);
    NoDuplicatesUniqueIds(assets, ps);
    NoDuplicatesUniqueIds(assets, cs);
  }

  /** Two different assets drawn from `assets` with unique ids have different ids. */
  lemma DistinctAssetsDistinctIds(assets: seq<Asset>, a: Asset, b: Asset)
    requires UniqueIds(assets) && a in assets && b in assets && a != b
    ensures a.id != b.id
  {
    var p :| 0 <= p < |assets| && assets[p] == a;
    var q :| 0 <= q < |assets| && assets[q] == b;
    assert p != q;
  }

  /** When the scanned assets have unique ids, no asset takes part in two settlements. */
  lemma MatchingDisjoint(assets: seq<Asset>)
    requires UniqueIds(assets)
    ensures DisjointPairs(Matching(assets))
  {
    var r := Matching(assets);
    var ps := SortedProducers(assets);
    var cs := SortedConsumers(assets);
    SortedSidesUnique(assets);
    MatchingZips(assets);
    assert PRODUCER[0] != CONSUMER[0];
    forall i, j | 0 <= i < |r| && 0 <= j < |r|
      ensures r[i].producer.id != r[j].consumer.id
    {
      assert ps[i].assetType == PRODUCER && cs[j].assetType == CONSUMER;
      DistinctAssetsDistinctIds(assets, ps[i], cs[j]);
    }
    forall i, j | 0 <= i < j < |r|
      ensures r[i].producer.id != r[j].producer.id && r[i].consumer.id != r[j].consumer.id
    {
      assert UniqueIds(ps) && UniqueIds(cs);
    }
  }
}
