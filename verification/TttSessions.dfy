/**
 * The bounded store of live sessions: a map of handles and a map of stamps that refine one recency
 * list, evicting the least recently touched to make room.
 */
module TttSessions {
  import opened Common
  import opened Recency

  /** The stamps grow along the list, which has each stamped id once; the clock is ahead of them. */
  ghost predicate Stamped(order: seq<string>, touched: map<string, nat>, clock: nat) {
    && Distinct(order)
    && (forall id :: id in order <==> id in touched)
    && (forall i, j | 0 <= i < j < |order| :: touched[order[i]] < touched[order[j]])
    && (forall id | id in touched :: touched[id] < clock)
  }

  /** The oldest id other than `keep`. */
  function OldestBut(order: seq<string>, keep: string): (r: Option<nat>)
    ensures r.Some? ==> r.value < |order| && order[r.value] != keep && forall j | 0 <= j < r.value :: order[j] == keep
    ensures r.None? ==> forall j | 0 <= j < |order| :: order[j] == keep
  {
    if order == [] then None
    else if order[0] != keep then Some(0)
    else
      match OldestBut(order[1..], keep)
      case None => None
      case Some(i) => Some(i + 1)
  }

  /** Drop the oldest ids other than `keep` until there is room for one more, or nothing to drop. */
  ghost function MadeRoom(order: seq<string>, keep: string, cap: nat): (r: seq<string>)
    requires Distinct(order)
    decreases |order|
  {
    var oldest := OldestBut(order, keep);
    if |order| < cap || oldest.None? then order
    else
      WithoutDistinct(order, order[oldest.value]);
      MadeRoom(Without(order, order[oldest.value]), keep, cap)
  }

  class Store<S> {
    var sessions: map<string, S>
    var touched: map<string, nat>
    var clock: nat
    const maxSessions: nat
    /** The live ids, least recently touched first. */
    ghost var order: seq<string>

    ghost predicate Valid()
      reads this
    {
      && maxSessions >= 1 && |order| <= maxSessions
      && Stamped(order, touched, clock)
      && forall id :: id in order <==> id in sessions
    }

    constructor (maxSessions: nat)
      ensures Valid() && order == [] && sessions == map[]
      ensures this.maxSessions == if maxSessions < 1 then 1 else maxSessions
    {
      sessions, touched, clock, order := map[], map[], 1, [];
      this.maxSessions := if maxSessions < 1 then 1 else maxSessions;
    }

    /** A fresh stamp: the id becomes the most recent one. */
    method Touch(id: string)
      requires Stamped(order, touched, clock)
      modifies this`touched, this`clock, this`order
      ensures Stamped(order, touched, clock) && order == Touched(old(order), id)
    {
      StampedTouch(order, touched, clock, id);
      order := Touched(order, id);
      touched := touched[id := clock];
      clock := clock + 1;
    }

    /** The smallest stamp other than `keep`'s; failing that, any other session without a stamp. */
    method Victim(keep: string) returns (v: Option<string>)
      requires Stamped(order, touched, clock)
      ensures OldestBut(order, keep).Some? ==> v == Some(order[OldestBut(order, keep).value])
      ensures OldestBut(order, keep).None? && v.Some? ==> v.value in sessions && v.value != keep && v.value !in touched
      ensures v.None? ==> forall id | id in sessions :: id == keep || id in touched
    {
      v := None;
      var rest := touched.Keys - {keep};
      while rest != {}
        invariant rest <= touched.Keys - {keep}
        invariant v.Some? ==> v.value in touched && v.value != keep
        invariant forall id | id in touched && id != keep && id !in rest :: v.Some? && touched[v.value] <= touched[id]
        decreases rest
      {
        var id :| id in rest;
        if v.None? || touched[id] < touched[v.value] { v := Some(id); }
        rest := rest - {id};
      }
      LeastStampIsOldest(order, touched, clock, keep, v);
      if v.None? {
        var strays := set id | id in sessions && id != keep && id !in touched;
        if strays != {} {
          var id :| id in strays;
          v := Some(id);
        } else {
          assert forall id | id in sessions && id != keep && id !in touched :: id in strays;
        }
      }
    }

    method MakeRoom(keep: string) returns (evicted: seq<string>)
      requires Valid()
      modifies this`sessions, this`touched, this`order
      ensures Valid() && order == MadeRoom(old(order), keep, maxSessions)
      ensures sessions == Only(old(sessions), order)
      ensures Parted(old(order), order, evicted, keep)
    {
      evicted := [];
      OnlyAll(sessions, order);
      SizeIsLength(sessions, order);
      while |sessions| >= maxSessions
        invariant Valid() && |sessions| == |order|
        invariant MadeRoom(order, keep, maxSessions) == MadeRoom(old(order), keep, maxSessions)
        invariant sessions == Only(old(sessions), order)
        invariant Parted(old(order), order, evicted, keep)
        decreases |order|
      {
        var victim := Victim(keep);
        if victim.None? { break; }
        PartedMore(old(order), order, evicted, keep, victim.value);
        OnlyLess(old(sessions), sessions, order, victim.value);
        evicted := evicted + [victim.value];
        var _ := TakeSession(victim.value);
        SizeIsLength(sessions, order);
      }
    }

    /** The session of this id, created when it is not live; nothing when creating it fails. */
    method GetOrCreate(id: string, created: Option<S>) returns (r: Option<S>)
      requires Valid()
      modifies this
      ensures Valid()
      ensures id in old(sessions) ==> r == Some(old(sessions)[id]) && order == Touched(old(order), id) && sessions == old(sessions)
      ensures id !in old(sessions) ==> r == created
      ensures id !in old(sessions) && created.None? ==> order == LastN(old(order), maxSessions - 1) && sessions == Only(old(sessions), order)
      ensures id !in old(sessions) && created.Some? ==>
        order == LastN(old(order), maxSessions - 1) + [id] && sessions == Only(old(sessions), order)[id := created.value]
    {
      if id in sessions {
        TouchedKeeps(order, id);
        Touch(id);
        return Some(sessions[id]);
      }
      var _ := MakeRoom(id);
      RoomForNew(old(order), id, maxSessions);
      if created.None? { return None; }
      OnlyWith(old(sessions), order, id);
      NewIsLast(order, id);
      Register(id, created.value);
      return created;
    }

    method InsertStates(id: string, states: S)
      requires Valid()
      modifies this
      ensures Valid()
      ensures id in old(sessions) ==> order == Touched(old(order), id) && sessions == old(sessions)[id := states]
      ensures id !in old(sessions) ==>
        order == LastN(old(order), maxSessions - 1) + [id] && sessions == Only(old(sessions), order)[id := states]
    {
      if id !in sessions {
        var _ := MakeRoom(id);
        RoomForNew(old(order), id, maxSessions);
        OnlyWith(old(sessions), order, id);
        NewIsLast(order, id);
      }
      TouchedKeeps(order, id);
      Register(id, states);
    }

    /** Store the session and stamp it. */
    method Register(id: string, s: S)
      requires Valid() && |Touched(order, id)| <= maxSessions
      modifies this
      ensures Valid() && order == Touched(old(order), id) && sessions == old(sessions)[id := s]
    {
      TouchedKeeps(order, id);
      sessions := sessions[id := s];
      Touch(id);
    }

    method TakeSession(id: string) returns (r: Option<S>)
      requires Valid()
      modifies this`sessions, this`touched, this`order
      ensures Valid() && order == Without(old(order), id) && sessions == old(sessions) - {id}
      ensures id in old(order) ==> |order| < |old(order)|
      ensures r == if id in old(sessions) then Some(old(sessions)[id]) else None
    {
      r := if id in sessions then Some(sessions[id]) else None;
      Evicted(order, touched, clock, id);
      touched := touched - {id};
      sessions := sessions - {id};
      order := Without(order, id);
    }

    method Clear()
      requires Valid()
      modifies this`sessions, this`touched, this`order
      ensures Valid() && order == [] && sessions == map[]
    {
      sessions, touched, order := map[], map[], [];
    }
  }

  function Only<S>(m: map<string, S>, ids: seq<string>): map<string, S> { map id | id in m && id in ids :: m[id] }

  /** What was live is live or evicted, not both, and `keep` is not evicted. */
  predicate Parted(before: seq<string>, after: seq<string>, evicted: seq<string>, keep: string) {
    && (forall x | x in before :: x in after || x in evicted)
    && (forall x | x in after :: x in before)
    && (forall x | x in evicted :: x in before && x !in after && x != keep)
  }

  // ---------- lemmas ----------

  lemma PartedMore(before: seq<string>, order: seq<string>, evicted: seq<string>, keep: string, victim: string)
    requires Parted(before, order, evicted, keep) && victim in order && victim != keep
    ensures Parted(before, Without(order, victim), evicted + [victim], keep)
  {
    WithoutMembers(order, victim);
  }

  lemma OnlyAll<S>(m: map<string, S>, ids: seq<string>)
    requires forall id | id in m :: id in ids
    ensures Only(m, ids) == m
  {
  }

  lemma OnlyLess<S>(before: map<string, S>, m: map<string, S>, ids: seq<string>, id: string)
    requires m == Only(before, ids)
    ensures m - {id} == Only(before, Without(ids, id))
  {
    WithoutMembers(ids, id);
  }

  lemma OnlyWith<S>(m: map<string, S>, ids: seq<string>, id: string)
    requires id !in m
    ensures Only(m, ids + [id]) == Only(m, ids)
  {
  }

  lemma {:induction false} SizeIsLength<S>(m: map<string, S>, ids: seq<string>)
    requires Distinct(ids) && forall id :: id in ids <==> id in m
    ensures |m| == |ids|
    decreases |ids|
  {
    if ids == [] {
      assert m == map[];
    } else {
      HeadApart(ids);
      RemoveShrinks(m, ids[0]);
      SizeIsLength(m - {ids[0]}, ids[1..]);
    }
  }

  lemma NewIsLast(order: seq<string>, id: string)
    requires id !in order
    ensures Touched(order, id) == order + [id]
  {
    WithoutMembers(order, id);
  }

  lemma StampedTouch(order: seq<string>, touched: map<string, nat>, clock: nat, id: string)
    requires Stamped(order, touched, clock)
    ensures Stamped(Touched(order, id), touched[id := clock], clock + 1)
  {
    StampedWithout(order, touched, clock, id);
    var rest, all, stamps := Without(order, id), Touched(order, id), touched[id := clock];
    TouchedKeeps(order, id);
    forall i, j | 0 <= i < j < |all|
      ensures stamps[all[i]] < stamps[all[j]]
    {
      assert all[i] == rest[i] && all[i] != id && touched[all[i]] < clock;
      if j < |rest| { assert all[j] == rest[j]; }
    }
  }

  lemma StampedWithout(order: seq<string>, touched: map<string, nat>, clock: nat, id: string)
    requires Stamped(order, touched, clock)
    ensures Stamped(Without(order, id), touched - {id}, clock)
  {
    var rest := Without(order, id);
    WithoutMembers(order, id);
    WithoutDistinct(order, id);
    forall i, j | 0 <= i < j < |rest|
      ensures touched[rest[i]] < touched[rest[j]]
    {
      var p, q := WithoutOrder(order, id, i, j);
    }
  }

  lemma LeastStampIsOldest(order: seq<string>, touched: map<string, nat>, clock: nat, keep: string, v: Option<string>)
    requires Stamped(order, touched, clock)
    requires v.Some? ==> v.value in touched && v.value != keep
    requires forall id | id in touched && id != keep :: v.Some? && touched[v.value] <= touched[id]
    ensures v == match OldestBut(order, keep) case None => None case Some(i) => Some(order[i])
  {
    var oldest := OldestBut(order, keep);
    if oldest.Some? {
      var k :| 0 <= k < |order| && order[k] == v.value;
      assert touched[v.value] <= touched[order[oldest.value]];
    }
  }

  lemma Evicted(order: seq<string>, touched: map<string, nat>, clock: nat, id: string)
    requires Stamped(order, touched, clock)
    ensures Stamped(Without(order, id), touched - {id}, clock) && |Without(order, id)| <= |order|
    ensures id in order ==> |Without(order, id)| < |order|
    ensures forall x :: x in Without(order, id) <==> x in order && x != id
  {
    StampedWithout(order, touched, clock, id);
    WithoutMembers(order, id);
    WithoutDistinct(order, id);
  }

  lemma HeadGone(order: seq<string>)
    requires Distinct(order) && order != []
    ensures Without(order, order[0]) == order[1..]
  {
    HeadApart(order);
    assert order == [order[0]] + order[1..];
    WithoutConcat([order[0]], order[1..], order[0]);
    WithoutMembers(order[1..], order[0]);
    assert Without([order[0]], order[0]) == [] by { assert [order[0]][..0] == []; }
  }

  /** For an id that is not live, exactly the shortest oldest part makes room, and never more than the cap allows. */
  lemma {:induction false} RoomForNew(order: seq<string>, id: string, cap: nat)
    requires Distinct(order) && id !in order && cap >= 1
    ensures MadeRoom(order, id, cap) == LastN(order, cap - 1)
    decreases |order|
  {
    if |order| >= cap {
      HeadApart(order);
      HeadGone(order);
      assert OldestBut(order, id) == Some(0);
      RoomForNew(order[1..], id, cap);
      if |order| - 1 >= cap { LastNTail(order, cap - 1); }
    }
  }
}
