/** Small helpers shared by the models: an option type, white space, and sums over finite maps. */
module Common {
  datatype Option<+T> = None | Some(value: T)

  type byte = b: int | 0 <= b < 256

  /** Unicode White_Space. */
  predicate IsSpace(c: char) {
    var n := c as int;
    9 <= n <= 13 || n == 0x20 || n == 0x85 || n == 0xA0 || n == 0x1680 || 0x2000 <= n <= 0x200A
    || n == 0x2028 || n == 0x2029 || n == 0x202F || n == 0x205F || n == 0x3000
  }

  /** Sum of `size` over the values of a finite map. */
  ghost function Total<V>(m: map<string, V>, size: V -> nat): nat
    decreases |m|
  {
    if m == map[] then 0
    else
      var k :| k in m;
      assert |m - {k}| < |m| by { RemoveShrinks(m, k); }
      size(m[k]) + Total(m - {k}, size)
  }

  lemma RemoveShrinks<K, V>(m: map<K, V>, k: K)
    requires k in m
    ensures |m - {k}| == |m| - 1
  {
    assert (m - {k}).Keys == m.Keys - {k};
    assert |(m - {k}).Keys| == |m - {k}| && |m.Keys| == |m|;
  }

  /** Any key may be taken out first. */
  lemma {:induction false} TotalRemove<V>(m: map<string, V>, k: string, size: V -> nat)
    requires k in m
    ensures Total(m, size) == size(m[k]) + Total(m - {k}, size)
    decreases |m|
  {
    var k0 :| k0 in m && Total(m, size) == size(m[k0]) + Total(m - {k0}, size);
    if k != k0 {
      RemoveShrinks(m, k0);
      RemoveShrinks(m, k);
      TotalRemove(m - {k0}, k, size);
      TotalRemove(m - {k}, k0, size);
      assert m - {k0} - {k} == m - {k} - {k0};
    }
  }

  lemma TotalUpdate<V>(m: map<string, V>, k: string, v: V, size: V -> nat)
    ensures Total(m[k := v], size) == Total(m - {k}, size) + size(v)
    ensures Total(m[k := v], size) == (if k in m then Total(m, size) - size(m[k]) else Total(m, size)) + size(v)
  {
    TotalRemove(m[k := v], k, size);
    assert m[k := v] - {k} == m - {k};
    if k in m {
      TotalRemove(m, k, size);
    } else {
      assert m - {k} == m;
    }
  }

  /** A part never weighs more than the whole. */
  lemma {:induction false} TotalSubmap<V>(a: map<string, V>, b: map<string, V>, size: V -> nat)
    requires a.Keys <= b.Keys && forall k :: k in a ==> a[k] == b[k]
    ensures Total(a, size) <= Total(b, size)
    decreases |a|
  {
    if a != map[] {
      var k :| k in a;
      RemoveShrinks(a, k);
      TotalSubmap(a - {k}, b - {k}, size);
      TotalRemove(a, k, size);
      TotalRemove(b, k, size);
    }
  }
}
