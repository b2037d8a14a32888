/** Maps that keep their keys in order, the oldest first. */
module OrderedMaps {
  import opened Recency

  datatype OrderedMap<V> = OrderedMap(order: seq<string>, values: map<string, V>)

  /** Each key once in the order, and no other keys. */
  ghost predicate WellFormed<V>(d: OrderedMap<V>) { Distinct(d.order) && forall k :: k in d.order <==> k in d.values }

  function Empty<V>(): OrderedMap<V> { OrderedMap([], map[]) }

  function Restricted<V>(d: OrderedMap<V>, order: seq<string>): OrderedMap<V> {
    OrderedMap(order, map k | k in d.values && k in order :: d.values[k])
  }

  /** Without its oldest key. */
  function Popped<V>(d: OrderedMap<V>): OrderedMap<V>
    requires d.order != []
  {
    OrderedMap(d.order[1..], d.values - {d.order[0]})
  }

  /** Popping the oldest key does not change what will be left of the last `n`. */
  lemma PopOldest<V>(d: OrderedMap<V>, n: nat)
    requires WellFormed(d) && n < |d.order|
    ensures WellFormed(Popped(d)) && Restricted(Popped(d), LastN(d.order[1..], n)) == Restricted(d, LastN(d.order, n))
  {
    var k, rest := d.order[0], d.order[1..];
    HeadApart(d.order);
    LastNTail(d.order, n);
    LastNKeeps(rest, n);
    RestrictedApart(d, k, rest, LastN(rest, n));
  }

  lemma RestrictedApart<V>(d: OrderedMap<V>, k: string, rest: seq<string>, order: seq<string>)
    requires k !in order
    ensures Restricted(OrderedMap(rest, d.values - {k}), order) == Restricted(d, order)
  {
    assert Restricted(OrderedMap(rest, d.values - {k}), order).values == Restricted(d, order).values;
  }

  lemma RestrictedWellFormed<V>(d: OrderedMap<V>, order: seq<string>)
    requires Distinct(order) && forall k | k in order :: k in d.values
    ensures WellFormed(Restricted(d, order))
  {
  }

  lemma WholeRestricted<V>(d: OrderedMap<V>)
    requires WellFormed(d)
    ensures Restricted(d, d.order) == d
  {
    assert Restricted(d, d.order).values == d.values;
  }

  lemma TouchedWellFormed<V>(d: OrderedMap<V>, k: string)
    requires WellFormed(d) && k in d.values
    ensures WellFormed(d.(order := Touched(d.order, k)))
  {
    TouchedKeeps(d.order, k);
  }

  lemma AppendedWellFormed<V>(d: OrderedMap<V>, k: string, v: V)
    requires WellFormed(d) && k !in d.values
    ensures WellFormed(OrderedMap(d.order + [k], d.values[k := v]))
  {
  }

  // ---------- members one after another ----------

  /** `d[key] = value`: a known key keeps its place. */
  function Assigned<V>(d: OrderedMap<V>, k: string, v: V): OrderedMap<V> {
    OrderedMap(if k in d.values then d.order else d.order + [k], d.values[k := v])
  }

  /** Assigning members in turn: of a key that comes twice the first place and the last value are kept. */
  function FromMembers<V>(items: seq<(string, V)>): OrderedMap<V> {
    if items == [] then Empty()
    else Assigned(FromMembers(items[..|items| - 1]), items[|items| - 1].0, items[|items| - 1].1)
  }

  function MembersFirst<V>(d: OrderedMap<V>, n: nat): seq<(string, V)>
    requires n <= |d.order| && forall k | k in d.order :: k in d.values
  {
    seq(n, i requires 0 <= i < n => (d.order[i], d.values[d.order[i]]))
  }

  lemma AssignedKeeps<V>(d: OrderedMap<V>, k: string, v: V)
    requires WellFormed(d)
    ensures WellFormed(Assigned(d, k, v))
  {
  }

  lemma {:induction false} FromMembersKeeps<V>(items: seq<(string, V)>)
    ensures WellFormed(FromMembers(items))
  {
    if items != [] {
      FromMembersKeeps(items[..|items| - 1]);
      AssignedKeeps(FromMembers(items[..|items| - 1]), items[|items| - 1].0, items[|items| - 1].1);
    }
  }

  lemma FromMembersSnoc<V>(items: seq<(string, V)>, k: string, v: V)
    ensures FromMembers(items + [(k, v)]) == Assigned(FromMembers(items), k, v)
  {
    assert (items + [(k, v)])[..|items|] == items;
  }

  /** Writing all members and assigning them again gives the map back, in its order. */
  lemma FromItsMembers<V>(d: OrderedMap<V>)
    requires WellFormed(d)
    ensures FromMembers(MembersFirst(d, |d.order|)) == d
  {
    FromFirstMembers(d, |d.order|);
    assert d.order[..|d.order|] == d.order;
    WholeRestricted(d);
  }

  lemma {:induction false} FromFirstMembers<V>(d: OrderedMap<V>, n: nat)
    requires WellFormed(d) && n <= |d.order|
    ensures FromMembers(MembersFirst(d, n)) == Restricted(d, d.order[..n])
  {
    if n > 0 {
      FromFirstMembers(d, n - 1);
      RestrictedGrows(d, n);
      MembersGrow(d, n);
    } else {
      assert Restricted(d, d.order[..0]).values == map[];
    }
  }

  lemma MembersGrow<V>(d: OrderedMap<V>, n: nat)
    requires WellFormed(d) && 0 < n <= |d.order|
    ensures FromMembers(MembersFirst(d, n)) == Assigned(FromMembers(MembersFirst(d, n - 1)), d.order[n - 1], d.values[d.order[n - 1]])
  {
    assert MembersFirst(d, n) == MembersFirst(d, n - 1) + [(d.order[n - 1], d.values[d.order[n - 1]])];
    FromMembersSnoc(MembersFirst(d, n - 1), d.order[n - 1], d.values[d.order[n - 1]]);
  }

  lemma RestrictedGrows<V>(d: OrderedMap<V>, n: nat)
    requires WellFormed(d) && 0 < n <= |d.order|
    ensures Restricted(d, d.order[..n]) == Assigned(Restricted(d, d.order[..n - 1]), d.order[n - 1], d.values[d.order[n - 1]])
  {
    var k, init := d.order[n - 1], d.order[..n - 1];
    assert d.order[..n] == init + [k];
    assert k !in init;
    assert Restricted(d, init + [k]).values == Restricted(d, init).values[k := d.values[k]];
  }
}
