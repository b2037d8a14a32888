/**
 * The least-recently-used response cache with its file: what it holds after any history of calls
 * and restarts, whatever file it was started from.
 */
module ResponseCache {
  import opened Common
  import opened Recency
  import opened OrderedMaps

  type Dict = OrderedMap<string>

  /** A file that is not there, does not parse to an object, or holds these members in this order; a value that is no string is `None`. */
  datatype File = Missing | Garbage | Members(items: seq<(string, Option<string>)>)

  /** How rewriting the file ends: it may not open, or break off and leave what does not parse. */
  datatype Fate = Wrote | Refused | Torn

  function Moved(d: Dict, k: string): Dict { d.(order := Touched(d.order, k)) }

  function PutIn(d: Dict, k: string, v: string, cap: nat): Dict {
    var all := Touched(d.order, k);
    Restricted(OrderedMap(all, d.values[k := v]), LastN(all, cap))
  }

  function Lookup(d: Dict, k: string): (Option<string>, Dict) {
    if k in d.values then (Some(d.values[k]), Moved(d, k)) else (None, d)
  }

  function Written(d: Dict): seq<(string, Option<string>)>
    requires forall k | k in d.order :: k in d.values
  {
    seq(|d.order|, i requires 0 <= i < |d.order| => (d.order[i], Some(d.values[d.order[i]])))
  }

  function Persisted(d: Dict, file: File, persistent: bool, fate: Fate): File
    requires forall k | k in d.order :: k in d.values
  {
    if !persistent then file
    else
      match fate
      case Wrote => Members(Written(d))
      case Refused => file
      case Torn => Garbage
  }

  /** The members with string values among the first `n` keys of a parsed object. */
  function Strings(raw: OrderedMap<Option<string>>, n: nat): seq<(string, string)>
    requires n <= |raw.order| && forall k | k in raw.order :: k in raw.values
  {
    if n == 0 then []
    else
      var v := raw.values[raw.order[n - 1]];
      if v.Some? then Strings(raw, n - 1) + [(raw.order[n - 1], v.value)] else Strings(raw, n - 1)
  }

  /** What a new cache reads: the file is parsed to an object first, and its string members are taken over. */
  function Loaded(items: seq<(string, Option<string>)>): Dict {
    var raw := FromMembers(items);
    FromMembersKeeps(items);
    FromMembers(Strings(raw, |raw.order|))
  }

  function Opened(file: File, persistent: bool): Dict {
    if persistent && file.Members? then Loaded(file.items) else Empty()
  }

  class Cache {
    var order: seq<string>
    var values: map<string, string>
    const maxEntries: nat
    const persistent: bool
    var file: File
    var hits: nat
    var misses: nat

    ghost predicate Valid()
      reads this
    {
      maxEntries >= 1 && WellFormed(Contents())
    }

    function Contents(): Dict
      reads this
    {
      OrderedMap(order, values)
    }

    constructor (maxEntries: int, persistent: bool, file: File)
      ensures Valid() && this.maxEntries == (if maxEntries < 1 then 1 else maxEntries) && this.persistent == persistent
      ensures this.file == file && hits == 0 && misses == 0
      ensures Contents() == Opened(file, persistent)
    {
      this.maxEntries := if maxEntries < 1 then 1 else maxEntries;
      this.persistent, this.file, hits, misses := persistent, file, 0, 0;
      order, values := [], map[];
      new;
      if persistent && file.Members? {
        LoadFromDisk(file.items);
      }
    }

    method LoadFromDisk(items: seq<(string, Option<string>)>)
      requires Contents() == Empty()
      modifies this`order, this`values
      ensures Contents() == Loaded(items) && WellFormed(Contents())
    {
      var raw := FromMembers(items);
      FromMembersKeeps(items);
      var i := 0;
      while i < |raw.order|
        invariant 0 <= i <= |raw.order|
        invariant Contents() == FromMembers(Strings(raw, i)) && WellFormed(Contents())
      {
        var k := raw.order[i];
        var v := raw.values[k];
        StringsStep(raw, i + 1);
        if v.Some? { Assign(k, v.value); }
        i := i + 1;
      }
    }

    /** A key set for the first time goes to the end, and keeps its place when it is set again. */
    method Assign(k: string, v: string)
      requires WellFormed(Contents())
      modifies this`order, this`values
      ensures Contents() == Assigned(old(Contents()), k, v) && WellFormed(Contents())
    {
      AssignedKeeps(Contents(), k, v);
      if k !in values { order := order + [k]; }
      values := values[k := v];
    }

    method Get(k: string) returns (r: Option<string>)
      requires Valid()
      modifies this`order, this`hits, this`misses
      ensures Valid() && (r, Contents()) == Lookup(old(Contents()), k)
      ensures r.Some? ==> hits == old(hits) + 1 && misses == old(misses)
      ensures r.None? ==> hits == old(hits) && misses == old(misses) + 1
    {
      if k !in values {
        misses := misses + 1;
        return None;
      }
      TouchedKeeps(order, k);
      order := Touched(order, k);
      hits := hits + 1;
      return Some(values[k]);
    }

    /** Whether or not the file can be written, the cache itself is updated. */
    method Put(k: string, v: string, fate: Fate)
      requires Valid()
      modifies this`order, this`values, this`file
      ensures Valid() && Contents() == PutIn(old(Contents()), k, v, maxEntries)
      ensures file == Persisted(Contents(), old(file), persistent, fate)
    {
      TouchedKeeps(order, k);
      values := values[k := v];
      order := Touched(order, k);
      Trim();
      Persist(fate);
    }

    method Trim()
      requires maxEntries >= 1 && WellFormed(Contents())
      modifies this`order, this`values
      ensures Valid() && Contents() == Restricted(old(Contents()), LastN(old(order), maxEntries))
    {
      while |order| > maxEntries
        invariant WellFormed(Contents())
        invariant Restricted(Contents(), LastN(order, maxEntries)) == Restricted(old(Contents()), LastN(old(order), maxEntries))
        decreases |order|
      {
        PopOldest(Contents(), maxEntries);
        values := values - {order[0]};
        order := order[1..];
      }
      WholeRestricted(Contents());
    }

    method Clear(fate: Fate)
      requires Valid()
      modifies this`order, this`values, this`file, this`hits, this`misses
      ensures Valid() && Contents() == Empty() && hits == 0 && misses == 0
      ensures file == Persisted(Contents(), old(file), persistent, fate)
    {
      order, values, hits, misses := [], map[], 0, 0;
      Persist(fate);
    }

    method Persist(fate: Fate)
      requires Valid()
      modifies this`file
      ensures file == Persisted(Contents(), old(file), persistent, fate)
    {
      if !persistent { return; }
      match fate
      case Wrote => file := Members(Written(Contents()));
      case Refused =>
      case Torn => file := Garbage;
    }
  }

  // ---------- the file ----------

  /** The file written by a put reads back to the same contents in the same order. */
  lemma ReloadIsExact(d: Dict)
    requires WellFormed(d)
    ensures Loaded(Written(d)) == d
  {
    var raw := Wrapped(d);
    assert WellFormed(raw);
    assert Written(d) == MembersFirst(raw, |d.order|);
    FromItsMembers(raw);
    AllStrings(d, |d.order|);
    FromItsMembers(d);
  }

  function Wrapped(d: Dict): OrderedMap<Option<string>> {
    OrderedMap(d.order, map k | k in d.values :: Some(d.values[k]))
  }

  lemma {:induction false} AllStrings(d: Dict, n: nat)
    requires WellFormed(d) && n <= |d.order|
    ensures Strings(Wrapped(d), n) == MembersFirst(d, n)
  {
    if n > 0 {
      AllStrings(d, n - 1);
      assert MembersFirst(d, n) == MembersFirst(d, n - 1) + [(d.order[n - 1], d.values[d.order[n - 1]])];
    }
  }

  lemma OpenedKeeps(file: File, persistent: bool)
    ensures WellFormed(Opened(file, persistent))
  {
    if persistent && file.Members? {
      var raw := FromMembers(file.items);
      FromMembersKeeps(file.items);
      FromMembersKeeps(Strings(raw, |raw.order|));
    }
  }

  /** The last member of this name, when a file names a key more than once. */
  function LastMember(items: seq<(string, Option<string>)>, k: string): Option<Option<string>> {
    if items == [] then None
    else if items[|items| - 1].0 == k then Some(items[|items| - 1].1)
    else LastMember(items[..|items| - 1], k)
  }

  lemma {:induction false} ParsedIsLast(items: seq<(string, Option<string>)>, k: string)
    ensures (k in FromMembers(items).values <==> LastMember(items, k).Some?)
    ensures k in FromMembers(items).values ==> LastMember(items, k) == Some(FromMembers(items).values[k])
  {
    if items != [] { ParsedIsLast(items[..|items| - 1], k); }
  }

  lemma StringsStep(raw: OrderedMap<Option<string>>, n: nat)
    requires 0 < n <= |raw.order| && forall k | k in raw.order :: k in raw.values
    ensures var k, d := raw.order[n - 1], FromMembers(Strings(raw, n - 1));
      FromMembers(Strings(raw, n)) == if raw.values[k].Some? then Assigned(d, k, raw.values[k].value) else d
  {
    var v := raw.values[raw.order[n - 1]];
    if v.Some? { FromMembersSnoc(Strings(raw, n - 1), raw.order[n - 1], v.value); }
  }

  lemma {:induction false} StringsHold(raw: OrderedMap<Option<string>>, n: nat, k: string)
    requires WellFormed(raw) && n <= |raw.order|
    ensures var d := FromMembers(Strings(raw, n));
      && (k in d.values <==> k in raw.order[..n] && raw.values[k].Some?)
      && (k in d.values ==> Some(d.values[k]) == raw.values[k])
  {
    if n > 0 {
      StringsHold(raw, n - 1, k);
      StringsStep(raw, n);
      assert raw.order[..n] == raw.order[..n - 1] + [raw.order[n - 1]];
    }
  }

  /** A key is loaded exactly when the last member of its name is a string, and with that string. */
  lemma LoadedIsLast(items: seq<(string, Option<string>)>, k: string)
    ensures k in Loaded(items).values <==> LastMember(items, k).Some? && LastMember(items, k).value.Some?
    ensures k in Loaded(items).values ==> LastMember(items, k) == Some(Some(Loaded(items).values[k]))
  {
    var raw := FromMembers(items);
    FromMembersKeeps(items);
    ParsedIsLast(items, k);
    StringsHold(raw, |raw.order|, k);
    assert raw.order[..|raw.order|] == raw.order;
  }

  // ---------- histories ----------

  datatype Op = PutOp(k: string, v: string, fate: Fate) | GetOp(k: string) | ClearOp(fate: Fate) | ReopenOp

  /** A cache and its file; `persistent` tells whether it has one. */
  datatype World = World(d: Dict, file: File)

  ghost predicate Sane(w: World) { WellFormed(w.d) }

  ghost function Apply(w: World, op: Op, cap: nat, persistent: bool): World
    requires Sane(w)
  {
    match op
    case PutOp(k, v, fate) =>
      PutWellFormed(w.d, k, v, cap);
      var d := PutIn(w.d, k, v, cap);
      World(d, Persisted(d, w.file, persistent, fate))
    case GetOp(k) => World(Lookup(w.d, k).1, w.file)
    case ClearOp(fate) => World(Empty(), Persisted(Empty(), w.file, persistent, fate))
    case ReopenOp => World(Opened(w.file, persistent), w.file)
  }

  ghost function Run(start: File, ops: seq<Op>, cap: nat, persistent: bool): (w: World)
    requires cap >= 1
    ensures Sane(w)
  {
    OpenedKeeps(start, persistent);
    if ops == [] then World(Opened(start, persistent), start)
    else
      var before := Run(start, ops[..|ops| - 1], cap, persistent);
      ApplySane(before, ops[|ops| - 1], cap, persistent);
      Apply(before, ops[|ops| - 1], cap, persistent)
  }

  lemma ApplySane(w: World, op: Op, cap: nat, persistent: bool)
    requires Sane(w)
    ensures Sane(Apply(w, op, cap, persistent))
  {
    match op
    case PutOp(k, v, _) => PutWellFormed(w.d, k, v, cap);
    case GetOp(k) => if k in w.d.values { TouchedWellFormed(w.d, k); }
    case ClearOp(_) =>
    case ReopenOp => OpenedKeeps(w.file, persistent);
  }

  lemma PutWellFormed(d: Dict, k: string, v: string, cap: nat)
    requires WellFormed(d)
    ensures WellFormed(PutIn(d, k, v, cap))
  {
    TouchedKeeps(d.order, k);
    LastNKeeps(Touched(d.order, k), cap);
    RestrictedWellFormed(OrderedMap(Touched(d.order, k), d.values[k := v]), LastN(Touched(d.order, k), cap));
  }

  // ---------- what a history must leave ----------

  /**
   * What matters of the past: the keys used, each time; the last value of every key; and whether
   * anything has been put since a file of any size was loaded.
   */
  datatype Past = Past(uses: seq<string>, latest: map<string, string>, bounded: bool)

  /** The past of this process, and that of the one who would load the file now. */
  datatype History = History(now: Past, saved: Past)

  const Nothing: Past := Past([], map[], true)

  /** The keys a cache must hold: the last `cap` used, or all that were loaded. */
  function Visible(p: Past, cap: nat): seq<string> {
    if p.bounded then LastN(ByLastUse(p.uses), cap) else ByLastUse(p.uses)
  }

  function Save(h: History, p: Past, persistent: bool, fate: Fate): History {
    History(p, if !persistent then h.saved else match fate case Wrote => p case Refused => h.saved case Torn => Nothing)
  }

  function Begin(start: File, persistent: bool): History {
    var d := Opened(start, persistent);
    History(Past(d.order, d.values, false), Past(d.order, d.values, false))
  }

  function Goes(h: History, op: Op, cap: nat, persistent: bool): History {
    match op
    case PutOp(k, v, fate) => Save(h, Past(h.now.uses + [k], h.now.latest[k := v], true), persistent, fate)
    case GetOp(k) => if k in Visible(h.now, cap) then h.(now := h.now.(uses := h.now.uses + [k])) else h
    case ClearOp(fate) => Save(h, Nothing, persistent, fate)
    case ReopenOp => History(h.saved, h.saved)
  }

  function After(start: File, ops: seq<Op>, cap: nat, persistent: bool): History {
    if ops == [] then Begin(start, persistent)
    else Goes(After(start, ops[..|ops| - 1], cap, persistent), ops[|ops| - 1], cap, persistent)
  }

  /** The keys in the right order, each with its latest value. */
  ghost predicate Holds(d: Dict, p: Past, cap: nat) {
    WellFormed(d) && d.order == Visible(p, cap) && forall k | k in d.values :: k in p.latest && p.latest[k] == d.values[k]
  }

  ghost predicate Follows(w: World, h: History, cap: nat, persistent: bool) {
    Holds(w.d, h.now, cap) && Holds(Opened(w.file, persistent), h.saved, cap)
  }

  lemma {:induction false} DistinctByLastUse(order: seq<string>)
    requires Distinct(order)
    ensures ByLastUse(order) == order
  {
    if order != [] {
      var init, k := order[..|order| - 1], order[|order| - 1];
      assert order == init + [k];
      DistinctByLastUse(init);
      WithoutMembers(init, k);
    }
  }

  lemma BeginHolds(start: File, cap: nat, persistent: bool)
    ensures Follows(World(Opened(start, persistent), start), Begin(start, persistent), cap, persistent)
  {
    OpenedKeeps(start, persistent);
    DistinctByLastUse(Opened(start, persistent).order);
  }

  lemma UseVisible(order: seq<string>, p: Past, k: string, cap: nat)
    requires cap >= 1 && order == Visible(p, cap)
    ensures Distinct(order) && Distinct(Touched(order, k))
    ensures LastN(Touched(order, k), cap) == LastN(ByLastUse(p.uses + [k]), cap)
    ensures !p.bounded ==> Touched(order, k) == ByLastUse(p.uses + [k])
  {
    ByLastUseDistinct(p.uses);
    LastNKeeps(ByLastUse(p.uses), cap);
    TouchedKeeps(order, k);
    TouchThenTruncate(ByLastUse(p.uses), k, cap);
    assert (p.uses + [k])[..|p.uses|] == p.uses;
  }

  lemma PutHolds(d: Dict, p: Past, k: string, v: string, cap: nat)
    requires cap >= 1 && Holds(d, p, cap)
    ensures Holds(PutIn(d, k, v, cap), Past(p.uses + [k], p.latest[k := v], true), cap)
  {
    UseVisible(d.order, p, k, cap);
    PutWellFormed(d, k, v, cap);
  }

  lemma GetHolds(d: Dict, p: Past, k: string, cap: nat)
    requires cap >= 1 && Holds(d, p, cap) && k in d.values
    ensures Holds(Moved(d, k), p.(uses := p.uses + [k]), cap)
  {
    UseVisible(d.order, p, k, cap);
    TouchedWellFormed(d, k);
    if p.bounded { AlreadyShort(d.order, k, ByLastUse(p.uses), cap); }
  }

  /** Moving a known key to the end needs no truncation. */
  lemma AlreadyShort(order: seq<string>, k: string, all: seq<string>, cap: nat)
    requires Distinct(order) && k in order && order == LastN(all, cap)
    ensures LastN(Touched(order, k), cap) == Touched(order, k)
  {
    TouchedKeeps(order, k);
  }

  lemma PersistedHolds(d: Dict, w: World, h: History, p: Past, cap: nat, persistent: bool, fate: Fate)
    requires Follows(w, h, cap, persistent) && Holds(d, p, cap)
    ensures Follows(World(d, Persisted(d, w.file, persistent, fate)), Save(h, p, persistent, fate), cap, persistent)
  {
    ReloadIsExact(d);
  }

  lemma StepFollows(w: World, h: History, op: Op, cap: nat, persistent: bool)
    requires cap >= 1 && Follows(w, h, cap, persistent)
    ensures Follows(Apply(w, op, cap, persistent), Goes(h, op, cap, persistent), cap, persistent)
  {
    match op
    case PutOp(k, v, fate) =>
      PutHolds(w.d, h.now, k, v, cap);
      PersistedHolds(PutIn(w.d, k, v, cap), w, h, Past(h.now.uses + [k], h.now.latest[k := v], true), cap, persistent, fate);
    case GetOp(k) => if k in w.d.values { GetHolds(w.d, h.now, k, cap); }
    case ClearOp(fate) => PersistedHolds(Empty(), w, h, Nothing, cap, persistent, fate);
    case ReopenOp =>
  }

  /**
   * After every history of puts, gets, clears and restarts, from any file, the cache is exactly the
   * bounded least-recently-used map, and so is the one a new process would load.
   */
  lemma {:induction false} RunHolds(start: File, ops: seq<Op>, cap: nat, persistent: bool)
    requires cap >= 1
    ensures Follows(Run(start, ops, cap, persistent), After(start, ops, cap, persistent), cap, persistent)
  {
    if ops == [] {
      BeginHolds(start, cap, persistent);
    } else {
      var init := ops[..|ops| - 1];
      RunHolds(start, init, cap, persistent);
      StepFollows(Run(start, init, cap, persistent), After(start, init, cap, persistent), ops[|ops| - 1], cap, persistent);
    }
  }

  /** A lookup hits exactly the visible keys, with the latest value put; once anything was put since a load, there are at most `cap`. */
  lemma HitIffRecent(start: File, ops: seq<Op>, cap: nat, persistent: bool, k: string)
    requires cap >= 1
    ensures var d, p := Run(start, ops, cap, persistent).d, After(start, ops, cap, persistent).now;
      && (k in Visible(p, cap) ==> k in p.latest && Lookup(d, k).0 == Some(p.latest[k]))
      && (k !in Visible(p, cap) ==> Lookup(d, k).0 == None)
      && (p.bounded ==> |d.order| <= cap)
  {
    RunHolds(start, ops, cap, persistent);
  }
}
