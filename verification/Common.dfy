/** Shared vocabulary: optional values, fallible results, and sums over finite maps. */
module Common {

  datatype Option<+T> = None | Some(value: T)

  datatype Result<+T, +E> = Ok(value: T) | Err(error: E)

  function Min(a: int, b: int): int { if a <= b then a else b }
  function Max(a: int, b: int): int { if a <= b then b else a }

  /** A count kept in a map, absent ones being zero. */
  function CountAt<K>(m: map<K, nat>, k: K): nat { if k in m then m[k] else 0 }

  /** Sum of w over the values of m. With a 0/1 weight it counts. */
  ghost function Total<K, V>(m: map<K, V>, w: V -> nat): nat {
    if m == map[] then 0 else var k := AnyKey(m); w(m[k]) + Total(m - {k}, w)
  }

  ghost function AnyKey<K, V>(m: map<K, V>): (k: K)
    requires m != map[]
    ensures k in m
  {
    var k :| k in m; k
  }

  lemma {:induction false} TotalSplit<K, V>(m: map<K, V>, w: V -> nat, k: K)
    requires k in m
    ensures Total(m, w) == w(m[k]) + Total(m - {k}, w)
    decreases |m|
  {
    var j := AnyKey(m);
    if j != k {
      TotalSplit(m - {j}, w, k);
      TotalSplit(m - {k}, w, j);
      assert m - {j} - {k} == m - {k} - {j};
    }
  }

  lemma TotalPut<K, V>(m: map<K, V>, w: V -> nat, k: K, v: V)
    ensures Total(m[k := v], w) == Total(m - {k}, w) + w(v)
    ensures k in m ==> Total(m[k := v], w) == Total(m, w) - w(m[k]) + w(v)
    ensures k !in m ==> Total(m[k := v], w) == Total(m, w) + w(v)
  {
    TotalSplit(m[k := v], w, k);
    assert m[k := v] - {k} == m - {k};
    if k in m {
      TotalSplit(m, w, k);
    } else {
      assert m - {k} == m;
    }
  }

  lemma {:induction false} TotalZero<K, V>(m: map<K, V>, w: V -> nat)
    ensures Total(m, w) == 0 <==> forall k :: k in m ==> w(m[k]) == 0
    decreases |m|
  {
    if m != map[] {
      var j := AnyKey(m);
      TotalZero(m - {j}, w);
      forall k | k in m && k != j ensures w(m[k]) == w((m - {j})[k]) {}
    }
  }

  lemma {:induction false} TotalMonotone<K, V>(m: map<K, V>, v: V -> nat, w: V -> nat)
    requires forall k :: k in m ==> v(m[k]) <= w(m[k])
    ensures Total(m, v) <= Total(m, w)
    decreases |m|
  {
    if m != map[] {
      var j := AnyKey(m);
      TotalMonotone(m - {j}, v, w);
    }
  }

  /** How a change at one key changes a sum. */
  lemma TotalMoved<K, V>(m: map<K, V>, m': map<K, V>, k: K, w: V -> nat)
    requires m' - {k} == m - {k}
    ensures Total(m', w) + (if k in m then w(m[k]) else 0) == Total(m, w) + (if k in m' then w(m'[k]) else 0)
  {
    if k in m {
      TotalSplit(m, w, k);
    } else {
      assert m - {k} == m;
    }
    if k in m' {
      TotalSplit(m', w, k);
    } else {
      assert m' - {k} == m';
    }
  }

  /** With a 0/1 weight a sum is the number of keys of weight one. */
  lemma {:induction false} TotalCounts<K, V>(m: map<K, V>, w: V -> nat, ones: set<K>)
    requires forall k :: k in m ==> w(m[k]) == if k in ones then 1 else 0
    requires ones <= m.Keys
    ensures Total(m, w) == |ones|
    decreases |m|
  {
    if m == map[] {
      assert ones == {};
    } else {
      var j := AnyKey(m);
      TotalCounts(m - {j}, w, ones - {j});
    }
  }
}
