/** The exact-match store that evicts in insertion order: a map and a queue that must agree, and what any history leaves in them. */
module ExactCache {
  import opened Common
  import opened Json
  import opened Recency
  import opened OrderedMaps

  type Store = OrderedMap<Json>

  function Stored(s: Store, k: string, v: Json, capacity: nat): Store {
    if capacity == 0 then s
    else if k in s.values then s.(values := s.values[k := v])
    else
      var room := Restricted(s, LastN(s.order, capacity - 1));
      OrderedMap(room.order + [k], room.values[k := v])
  }

  class Cache {
    const capacity: nat
    var values: map<string, Json>
    var order: seq<string>
    var hits: nat
    var misses: nat

    function Contents(): Store
      reads this
    {
      OrderedMap(order, values)
    }

    ghost predicate Valid()
      reads this
    {
      WellFormed(Contents()) && |order| <= capacity
    }

    constructor (capacity: nat)
      ensures Valid() && this.capacity == capacity && Contents() == Empty() && hits == 0 && misses == 0
    {
      this.capacity, values, order, hits, misses := capacity, map[], [], 0, 0;
    }

    method Lookup(k: string) returns (r: Option<Json>)
      requires Valid()
      modifies this`hits, this`misses
      ensures Valid() && r == if k in values then Some(values[k]) else None
      ensures hits == old(hits) + (if r.Some? then 1 else 0) && misses == old(misses) + (if r.Some? then 0 else 1)
    {
      if k in values {
        hits := hits + 1;
        return Some(values[k]);
      }
      misses := misses + 1;
      return None;
    }

    method Put(k: string, v: Json)
      requires Valid()
      modifies this`values, this`order
      ensures Valid() && Contents() == Stored(old(Contents()), k, v, capacity)
    {
      if capacity == 0 { return; }
      if k !in values {
        MakeRoom();
        RestrictedWellFormed(old(Contents()), order);
        order := order + [k];
      }
      values := values[k := v];
    }

    method MakeRoom()
      requires Valid() && capacity > 0
      modifies this`values, this`order
      ensures Contents() == Restricted(old(Contents()), LastN(old(order), capacity - 1))
      ensures WellFormed(Contents()) && |order| < capacity
      ensures forall x | x in order :: x in old(order)
    {
      while |order| >= capacity
        invariant WellFormed(Contents()) && forall x | x in order :: x in old(order)
        invariant Restricted(Contents(), LastN(order, capacity - 1)) == Restricted(old(Contents()), LastN(old(order), capacity - 1))
        decreases |order|
      {
        PopOldest(Contents(), capacity - 1);
        values := values - {order[0]};
        order := order[1..];
      }
      WholeRestricted(Contents());
    }
  }

  // ---------- histories ----------

  function Run(puts: seq<(string, Json)>, capacity: nat): Store {
    if puts == [] then Empty()
    else
      var (k, v) := puts[|puts| - 1];
      Stored(Run(puts[..|puts| - 1], capacity), k, v, capacity)
  }

  function Latest(puts: seq<(string, Json)>, k: string): Option<Json> {
    if puts == [] then None
    else if puts[|puts| - 1].0 == k then Some(puts[|puts| - 1].1)
    else Latest(puts[..|puts| - 1], k)
  }

  /** The keys in the order in which they entered: a key enters when it is put while absent. */
  function Entered(puts: seq<(string, Json)>, capacity: nat): seq<string> {
    if puts == [] then []
    else
      var before, k := Entered(puts[..|puts| - 1], capacity), puts[|puts| - 1].0;
      if k in Run(puts[..|puts| - 1], capacity).values then before else before + [k]
  }

  ghost function LatestOf(puts: seq<(string, Json)>): string -> Option<Json> { k => Latest(puts, k) }

  ghost predicate Holds(s: Store, entered: seq<string>, latest: string -> Option<Json>, capacity: nat) {
    && WellFormed(s) && |s.order| <= capacity && s.order == LastN(entered, capacity)
    && forall k | k in s.values :: latest(k) == Some(s.values[k])
  }

  /**
   * After any puts the store holds exactly the keys of the last `capacity` entries, first in first
   * out, each with the latest value put: whatever a lookup finds is current.
   */
  lemma {:induction false} RunIsFifo(puts: seq<(string, Json)>, capacity: nat)
    ensures Holds(Run(puts, capacity), Entered(puts, capacity), LatestOf(puts), capacity)
  {
    if puts != [] {
      var init, k := puts[..|puts| - 1], puts[|puts| - 1].0;
      RunIsFifo(init, capacity);
      StoredHolds(Run(init, capacity), Entered(init, capacity), k, puts[|puts| - 1].1, LatestOf(init), LatestOf(puts), capacity);
    }
  }

  lemma StoredHolds(s: Store, entered: seq<string>, k: string, v: Json,
                    before: string -> Option<Json>, after: string -> Option<Json>, capacity: nat)
    requires Holds(s, entered, before, capacity) && forall x :: after(x) == if x == k then Some(v) else before(x)
    ensures Holds(Stored(s, k, v, capacity), if k in s.values then entered else entered + [k], after, capacity)
  {
    if capacity > 0 && k !in s.values {
      EnteredHolds(s, entered, k, v, before, after, capacity);
    }
  }

  lemma EnteredHolds(s: Store, entered: seq<string>, k: string, v: Json,
                     before: string -> Option<Json>, after: string -> Option<Json>, capacity: nat)
    requires capacity > 0 && k !in s.values
    requires Holds(s, entered, before, capacity) && forall x :: after(x) == if x == k then Some(v) else before(x)
    ensures Holds(Stored(s, k, v, capacity), entered + [k], after, capacity)
  {
    var room := LastN(s.order, capacity - 1);
    LastNKeeps(s.order, capacity - 1);
    RestrictedWellFormed(s, room);
    AppendedWellFormed(Restricted(s, room), k, v);
    LastNSnoc(entered, k, capacity);
  }
}
