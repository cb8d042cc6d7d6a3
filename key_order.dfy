/**
 * The order in which the ledger's range scan over all keys returns records:
 * keys compared character by character, a proper prefix first.
 */
module KeyOrder {

  /** `a` sorts at or before `b` in the scan order. */
  predicate KeyLe(a: string, b: string)
    decreases |a|
  {
    |a| == 0 || (|b| > 0 && (a[0] < b[0] || (a[0] == b[0] && KeyLe(a[1..], b[1..]))))
  }

  lemma {:induction false} KeyLeReflexive(a: string)
    ensures KeyLe(a, a)
    decreases |a|
  {
    if |a| > 0 {
      KeyLeReflexive(a[1..]);
    }
  }

  lemma {:induction false} KeyLeAntisymmetric(a: string, b: string)
    requires KeyLe(a, b) && KeyLe(b, a)
    ensures a == b
    decreases |a|
  {
    if |a| > 0 && |b| > 0 {
      KeyLeAntisymmetric(a[1..], b[1..]);
      assert a == [a[0]] + a[1..] && b == [b[0]] + b[1..];
    }
  }

  lemma {:induction false} KeyLeTransitive(a: string, b: string, c: string)
    requires KeyLe(a, b) && KeyLe(b, c)
    ensures KeyLe(a, c)
    decreases |a|
  {
    if |a| > 0 && a[0] == b[0] && b[0] == c[0] {
      KeyLeTransitive(a[1..], b[1..], c[1..]);
    }
  }

  lemma {:induction false} KeyLeTotal(a: string, b: string)
    ensures KeyLe(a, b) || KeyLe(b, a)
    decreases |a|
  {
    if |a| > 0 && |b| > 0 && a[0] == b[0] {
      KeyLeTotal(a[1..], b[1..]);
    }
  }

  /** `k` is the key the scan yields first from `keys`. */
  predicate IsLeast(k: string, keys: set<string>) {
    k in keys && forall j :: j in keys ==> KeyLe(k, j)
  }

  /** Every non-empty finite key set has a first key in scan order. */
  lemma {:induction false} LeastExists(keys: set<string>)
    requires keys != {}
    ensures exists k :: IsLeast(k, keys)
    decreases |keys|
  {
    var x :| x in keys;
    KeyLeReflexive(x);
    if keys == {x} {
      assert IsLeast(x, keys);
    } else {
      LeastExists(keys - {x});
      var m :| IsLeast(m, keys - {x});
      KeyLeTotal(x, m);
      if KeyLe(x, m) {
        forall j | j in keys
          ensures KeyLe(x, j)
        {
          if j != x {
            KeyLeTransitive(x, m, j);
          }
        }
        assert IsLeast(x, keys);
      } else {
        assert IsLeast(m, keys);
      }
    }
  }

  lemma LeastUnique(k1: string, k2: string, keys: set<string>)
    requires IsLeast(k1, keys) && IsLeast(k2, keys)
    ensures k1 == k2
  {
    KeyLeAntisymmetric(k1, k2);
  }

  /** The scan order of a key set. */
  ghost predicate ScanSorted(keys: set<string>, r: seq<string>) {
    && |r| == |keys|
    && (forall k :: k in r <==> k in keys)
    && (forall i, j :: 0 <= i < j < |r| ==> KeyLe(r[i], r[j]) && r[i] != r[j])
  }

  /** The least key followed by the scan order of the others is the scan order of all. */
  lemma ScanSortedCons(keys: set<string>, k: string, rest: seq<string>)
    requires IsLeast(k, keys) && ScanSorted(keys - {k}, rest)
    ensures ScanSorted(keys, [k] + rest)
  {
    var r := [k] + rest;
    assert |keys - {k}| == |keys| - 1;
    forall x
      ensures x in r <==> x in keys
    {
      assert x in r <==> x == k || x in rest;
    }
    forall i, j | 0 <= i < j < |r|
      ensures KeyLe(r[i], r[j]) && r[i] != r[j]
    {
      assert r[j] == rest[j - 1] && r[j] in keys - {k};
      if i > 0 {
        assert r[i] == rest[i - 1];
      }
    }
  }

  /** The keys of `keys` in the order the range scan visits them. */
  ghost function SortedKeys(keys: set<string>): (r: seq<string>)
    ensures ScanSorted(keys, r)
    decreases |keys|
  {
    if keys == {} then []
    else
      LeastExists(keys);
      var k :| IsLeast(k, keys);
      var rest := SortedKeys(keys - {k});
      ScanSortedCons(keys, k, rest);
      [k] + rest
  }

  /** The scan visits the least key first, then the others in order. */
  lemma SortedKeysFirst(keys: set<string>, k: string)
    requires IsLeast(k, keys)
    ensures SortedKeys(keys) == [k] + SortedKeys(keys - {k})
  {
    var k' :| IsLeast(k', keys) && SortedKeys(keys) == [k'] + SortedKeys(keys - {k'});
    LeastUnique(k, k', keys);
  }
}
