/** The optional value, and the view of a Go map as a function from keys to optional values. */
module Options {

  datatype Option<+T> = None | Some(value: T)

  function ToSeq<T>(o: Option<T>): seq<T> {
    if o.Some? then [o.value] else []
  }

  /** The comma-ok lookup `v, ok := m[k]`. */
  function Get<K, V>(m: map<K, V>, k: K): Option<V> {
    if k in m then Some(m[k]) else None
  }

  /** Stores the value, or deletes the key when there is none. */
  function Put<K, V>(m: map<K, V>, k: K, v: Option<V>): map<K, V> {
    if v.Some? then m[k := v.value] else m - {k}
  }

  lemma GetAfterPut<K, V>(m: map<K, V>, k: K, v: Option<V>, j: K)
    ensures Get(Put(m, k, v), j) == if j == k then v else Get(m, j)
  {
  }

  lemma SizeAfterPut<K, V>(m: map<K, V>, k: K, v: Option<V>)
    ensures |Put(m, k, v)| == |m| - (if k in m then 1 else 0) + (if v.Some? then 1 else 0)
  {
    var keys := m.Keys - {k};
    assert |keys| == |m.Keys| - if k in m then 1 else 0;
    if v.Some? {
      assert Put(m, k, v).Keys == keys + {k};
    } else {
      assert Put(m, k, v).Keys == keys;
    }
  }

  /** Two maps that answer every lookup alike are the same map. */
  lemma SameLookups<K(!new), V>(m: map<K, V>, n: map<K, V>)
    requires forall k :: Get(m, k) == Get(n, k)
    ensures m == n
  {
    forall k ensures k in m <==> k in n {
      assert Get(m, k) == Get(n, k);
    }
    forall k | k in m ensures m[k] == n[k] {
      assert Get(m, k) == Get(n, k);
    }
  }

  /** Two different maps differ on some lookup. */
  lemma DifferentLookup<K(!new), V>(m: map<K, V>, n: map<K, V>) returns (k: K)
    requires m != n
    ensures k in m.Keys + n.Keys && Get(m, k) != Get(n, k)
  {
    if forall j :: Get(m, j) == Get(n, j) {
      SameLookups(m, n);
    }
    k :| Get(m, k) != Get(n, k);
  }
}
