/** JSON trees and the one question both cache modules ask of them: is there a `cache_control` key anywhere? */
module Json {
  import opened Common

  datatype Json =
    | Null
    | Bool(b: bool)
    | Num(n: real)
    | Str(s: string)
    | Arr(items: seq<Json>)
    | Obj(m: map<string, Json>)

  const CACHE_CONTROL: string := "cache_control"

  function Get(v: Json, k: string): Option<Json> { if v.Obj? && k in v.m then Some(v.m[k]) else None }

  function GetStr(v: Json, k: string): Option<string> {
    var f := Get(v, k);
    if f.Some? && f.value.Str? then Some(f.value.s) else None
  }

  predicate HasMarker(v: Json) {
    match v
    case Obj(m) => CACHE_CONTROL in m || exists k | k in m :: HasMarker(m[k])
    case Arr(items) => exists i | 0 <= i < |items| :: HasMarker(items[i])
    case _ => false
  }

  // ---------- where the markers are ----------

  datatype Edge = Key(k: string) | Index(i: nat)

  type Path = seq<Edge>

  function Child(v: Json, e: Edge): Option<Json> {
    match (v, e)
    case (Obj(m), Key(k)) => if k in m then Some(m[k]) else None
    case (Arr(items), Index(i)) => if i < |items| then Some(items[i]) else None
    case _ => None
  }

  /** At the end of this path there is an object with a marker. */
  predicate MarkerAt(v: Json, p: Path)
    decreases |p|
  {
    if p == [] then v.Obj? && CACHE_CONTROL in v.m
    else Child(v, p[0]).Some? && MarkerAt(Child(v, p[0]).value, p[1..])
  }

  lemma {:induction false} MarkerHasPath(v: Json) returns (p: Path)
    requires HasMarker(v)
    ensures MarkerAt(v, p)
  {
    match v
    case Obj(m) =>
      if CACHE_CONTROL in m {
        p := [];
      } else {
        var k :| k in m && HasMarker(m[k]);
        var q := MarkerHasPath(m[k]);
        p := [Key(k)] + q;
        assert p[1..] == q;
      }
    case Arr(items) =>
      var i :| 0 <= i < |items| && HasMarker(items[i]);
      var q := MarkerHasPath(items[i]);
      p := [Index(i)] + q;
      assert p[1..] == q;
  }

  lemma {:induction false} PathHasMarker(v: Json, p: Path)
    requires MarkerAt(v, p)
    ensures HasMarker(v)
    decreases |p|
  {
    if p != [] { PathHasMarker(Child(v, p[0]).value, p[1..]); }
  }

  // ---------- putting one marker into an unmarked tree ----------

  /** Markers of the changed object are exactly those of the new field value, below its key. */
  lemma FieldMarkers(m: map<string, Json>, k: string, v: Json, p: Path)
    requires !HasMarker(Obj(m)) && k != CACHE_CONTROL
    ensures MarkerAt(Obj(m[k := v]), p) <==> p != [] && p[0] == Key(k) && MarkerAt(v, p[1..])
  {
    var after := Obj(m[k := v]);
    if MarkerAt(after, p) && p != [] && p[0] != Key(k) {
      PathHasMarker(Child(after, p[0]).value, p[1..]);
    }
  }

  lemma ItemMarkers(items: seq<Json>, i: nat, v: Json, p: Path)
    requires !HasMarker(Arr(items)) && i < |items|
    ensures MarkerAt(Arr(items[i := v]), p) <==> p != [] && p[0] == Index(i) && MarkerAt(v, p[1..])
  {
    var after := Arr(items[i := v]);
    if MarkerAt(after, p) && p != [] && p[0] != Index(i) {
      PathHasMarker(Child(after, p[0]).value, p[1..]);
    }
  }

  lemma OwnMarker(m: map<string, Json>, v: Json, p: Path)
    requires !HasMarker(Obj(m)) && !HasMarker(v)
    ensures MarkerAt(Obj(m[CACHE_CONTROL := v]), p) <==> p == []
  {
    var after := Obj(m[CACHE_CONTROL := v]);
    if MarkerAt(after, p) && p != [] {
      PathHasMarker(Child(after, p[0]).value, p[1..]);
    }
  }
}
