/** Python dictionaries: an association list in insertion order. Assigning to an
    existing key replaces its value in place; assigning a new key appends it;
    `del` removes the entry. Every dictionary the model builds keeps its keys unique. */
module Dicts {
  import opened Wrappers

  type Dict<K, V> = seq<(K, V)>

  /** The keys in iteration order. */
  function Keys<K, V>(d: Dict<K, V>): seq<K>
  {
    if |d| == 0 then [] else [d[0].0] + Keys(d[1..])
  }

  lemma {:induction false} KeysAt<K, V>(d: Dict<K, V>)
    ensures |Keys(d)| == |d|
    ensures forall i :: 0 <= i < |d| ==> Keys(d)[i] == d[i].0
  {
    if |d| > 0 {
      KeysAt(d[1..]);
    }
  }

  lemma {:induction false} KeysAppend<K, V>(a: Dict<K, V>, b: Dict<K, V>)
    ensures Keys(a + b) == Keys(a) + Keys(b)
  {
    if |a| > 0 {
      assert (a + b)[1..] == a[1..] + b;
      KeysAppend(a[1..], b);
    } else {
      assert a + b == b;
    }
  }

  /** No key occurs twice. */
  predicate UniqueKeys<K(==), V>(d: Dict<K, V>)
  {
    |d| == 0 || (d[0].0 !in Keys(d[1..]) && UniqueKeys(d[1..]))
  }

  /** `d.get(k)`: the value stored under `k`, or `None`. */
  function Get<K(==), V>(d: Dict<K, V>, k: K): Option<V>
  {
    if |d| == 0 then None
    else if d[0].0 == k then Some(d[0].1)
    else Get(d[1..], k)
  }

  /** Whether keys repeat depends on the keys alone. */
  lemma {:induction false} UniqueByKeys<K, V, W>(a: Dict<K, V>, b: Dict<K, W>)
    requires Keys(a) == Keys(b)
    ensures UniqueKeys(a) <==> UniqueKeys(b)
  {
    if |a| > 0 {
      KeysAt(a);
      KeysAt(b);
      assert |a| == |b|;
      assert Keys(a[1..]) == Keys(a)[1..];
      assert Keys(b[1..]) == Keys(b)[1..];
      UniqueByKeys(a[1..], b[1..]);
    }
  }

  /** A key is found exactly when it is present, and what is found is stored under it. */
  lemma {:induction false} GetPresent<K, V>(d: Dict<K, V>, k: K)
    ensures Get(d, k).Some? <==> k in Keys(d)
    ensures Get(d, k).Some? ==> (k, Get(d, k).value) in d
  {
    if |d| > 0 && d[0].0 != k {
      GetPresent(d[1..], k);
    }
  }

  /** `d[k] = v`. */
  function Put<K(==,!new), V>(d: Dict<K, V>, k: K, v: V): (r: Dict<K, V>)
    ensures Get(r, k) == Some(v)
    ensures forall k' :: k' != k ==> Get(r, k') == Get(d, k')
    ensures k in Keys(d) ==> Keys(r) == Keys(d)
    ensures k !in Keys(d) ==> r == d + [(k, v)]
    ensures forall e :: e in r ==> e == (k, v) || e in d
  {
    if |d| == 0 then [(k, v)]
    else if d[0].0 == k then [(k, v)] + d[1..]
    else [d[0]] + Put(d[1..], k, v)
  }

  lemma {:induction false} PutKeepsUnique<K(!new), V>(d: Dict<K, V>, k: K, v: V)
    requires UniqueKeys(d)
    ensures UniqueKeys(Put(d, k, v))
  {
    if |d| > 0 && d[0].0 != k {
      PutKeepsUnique(d[1..], k, v);
      var rest := Put(d[1..], k, v);
      assert Put(d, k, v) == [d[0]] + rest;
      assert ([d[0]] + rest)[1..] == rest;
      if k !in Keys(d[1..]) {
        KeysAppend(d[1..], [(k, v)]);
      }
    } else if |d| > 0 {
      assert Put(d, k, v)[1..] == d[1..];
    }
  }

  /** `del d[k]` guarded by `k in d`: removing an absent key changes nothing. */
  function Remove<K(==,!new), V>(d: Dict<K, V>, k: K): (r: Dict<K, V>)
    ensures Get(r, k) == None
    ensures forall k' :: k' != k ==> Get(r, k') == Get(d, k')
    ensures forall k' :: k' in Keys(r) <==> k' in Keys(d) && k' != k
    ensures k !in Keys(d) ==> r == d
    ensures forall e :: e in r ==> e in d
    ensures UniqueKeys(d) ==> UniqueKeys(r)
  {
    if |d| == 0 then []
    else if d[0].0 == k then Remove(d[1..], k)
    else
      var rest := Remove(d[1..], k);
      assert Keys([d[0]] + rest) == [d[0].0] + Keys(rest);
      [d[0]] + rest
  }

  /** The value under `k` is the one at the first position carrying `k`. */
  lemma {:induction false} GetFirst<K, V>(d: Dict<K, V>, i: nat, k: K)
    requires i < |d| && d[i].0 == k
    requires forall j :: 0 <= j < i ==> d[j].0 != k
    ensures Get(d, k) == Some(d[i].1)
  {
    if i > 0 {
      GetFirst(d[1..], i - 1, k);
    }
  }

  /** Appending an entry only adds its key, and only when it was absent. */
  lemma {:induction false} GetSnoc<K, V>(d: Dict<K, V>, k: K, v: V, x: K)
    ensures Get(d + [(k, v)], x) ==
      if Get(d, x).Some? then Get(d, x) else if x == k then Some(v) else None
  {
    if |d| == 0 {
      assert d + [(k, v)] == [(k, v)];
    } else {
      assert (d + [(k, v)])[1..] == d[1..] + [(k, v)];
      if d[0].0 != x {
        GetSnoc(d[1..], k, v, x);
      }
    }
  }

  /** Under unique keys, no entry's key occurs before it. */
  lemma {:induction false} UniqueBefore<K, V>(d: Dict<K, V>, i: nat)
    requires UniqueKeys(d)
    requires i < |d|
    ensures d[i].0 !in Keys(d[..i])
  {
    if i > 0 {
      UniqueBefore(d[1..], i - 1);
      assert d[..i] == [d[0]] + d[1..][..i - 1];
      assert Keys(d[..i]) == [d[0].0] + Keys(d[1..][..i - 1]);
      KeysAt(d[1..]);
      assert Keys(d[1..])[i - 1] == d[i].0;
    }
  }

  /** A prefix of a unique-keyed dictionary is unique-keyed. */
  lemma {:induction false} UniquePrefix<K, V>(d: Dict<K, V>, i: nat)
    requires UniqueKeys(d)
    requires i <= |d|
    ensures UniqueKeys(d[..i])
  {
    if i > 0 {
      UniquePrefix(d[1..], i - 1);
      assert d[..i][1..] == d[1..][..i - 1];
      KeysAppend(d[1..][..i - 1], d[1..][i - 1..]);
      assert d[1..][..i - 1] + d[1..][i - 1..] == d[1..];
    }
  }
}
