/**
 * Cache breakpoints on request bodies: placing one at the end of the static prefix, and reading
 * back how many leading messages are frozen.
 */
module Breakpoints {
  import opened Common
  import opened Json

  const EPHEMERAL: Json := Obj(map["type" := Str("ephemeral")])

  function Messages(body: Json): Option<seq<Json>> {
    var f := Get(body, "messages");
    if f.Some? && f.value.Arr? then Some(f.value.items) else None
  }

  /** The last element that is an object. */
  function LastObject(blocks: seq<Json>): (r: Option<nat>)
    ensures r.Some? ==> r.value < |blocks| && blocks[r.value].Obj? && forall i | r.value < i < |blocks| :: !blocks[i].Obj?
    ensures r.None? ==> forall i | 0 <= i < |blocks| :: !blocks[i].Obj?
  {
    if blocks == [] then None
    else if blocks[|blocks| - 1].Obj? then Some(|blocks| - 1)
    else LastObject(blocks[..|blocks| - 1])
  }

  /** The content with a marker on its last block, or nothing when there is no place for one. */
  function Marked(content: Json): Option<Json> {
    match content
    case Arr(blocks) =>
      var last := LastObject(blocks);
      if last.None? then None
      else Some(Arr(blocks[last.value := Obj(blocks[last.value].m[CACHE_CONTROL := EPHEMERAL])]))
    case Str(text) =>
      if text == "" then None
      else Some(Arr([Obj(map["type" := Str("text"), "text" := Str(text), CACHE_CONTROL := EPHEMERAL])]))
    case _ => None
  }

  /** What the body becomes; nothing when the placement is refused. */
  function Placed(body: Json, staticLen: nat): Option<Json> {
    if HasMarker(body) || staticLen == 0 || Messages(body).None? then None
    else
      var ms := Messages(body).value;
      if staticLen > |ms| || Get(ms[staticLen - 1], "content").None? then None
      else
        var boundary := ms[staticLen - 1];
        match Marked(boundary.m["content"])
        case None => None
        case Some(content) =>
          Some(Obj(body.m["messages" := Arr(ms[staticLen - 1 := Obj(boundary.m["content" := content])])]))
  }

  /** A request whose body is edited in place. */
  class Request {
    var body: Json

    constructor (body: Json)
      ensures this.body == body
    {
      this.body := body;
    }

    method EnsureStaticBreakpoint(staticLen: nat) returns (placed: bool)
      modifies this
      ensures placed <==> Placed(old(body), staticLen).Some?
      ensures body == if placed then Placed(old(body), staticLen).value else old(body)
    {
      if HasMarker(body) || staticLen == 0 { return false; }
      if Messages(body).None? { return false; }
      var ms := Messages(body).value;
      if staticLen > |ms| { return false; }
      var boundary := ms[staticLen - 1];
      if Get(boundary, "content").None? { return false; }
      var content;
      match boundary.m["content"] {
        case Arr(blocks) =>
          var i := |blocks|;
          while i > 0 && !blocks[i - 1].Obj?
            invariant 0 <= i <= |blocks|
            invariant LastObject(blocks) == LastObject(blocks[..i])
          {
            assert blocks[..i][..i - 1] == blocks[..i - 1];
            i := i - 1;
          }
          if i == 0 { return false; }
          content := Arr(blocks[i - 1 := Obj(blocks[i - 1].m[CACHE_CONTROL := EPHEMERAL])]);
        case Str(text) =>
          if text == "" { return false; }
          content := Arr([Obj(map["type" := Str("text"), "text" := Str(text), CACHE_CONTROL := EPHEMERAL])]);
        case _ => return false;
      }
      body := Obj(body.m["messages" := Arr(ms[staticLen - 1 := Obj(boundary.m["content" := content])])]);
      return true;
    }
  }

  /** All up to the last marked message; without one, all but the newest when caching is automatic. */
  ghost predicate Freezes(body: Json, messages: seq<Json>, n: nat) {
    && n <= |messages|
    && ((exists i | 0 <= i < |messages| :: HasMarker(messages[i])) ==>
          n > 0 && HasMarker(messages[n - 1]) && forall i | n <= i < |messages| :: !HasMarker(messages[i]))
    && ((forall i | 0 <= i < |messages| :: !HasMarker(messages[i])) ==>
          n == if Get(body, CACHE_CONTROL).Some? && |messages| > 1 then |messages| - 1 else 0)
  }

  /** The number of leading messages that caching has frozen. */
  method FrozenPrefixLen(body: Json, messages: seq<Json>) returns (n: nat)
    ensures Freezes(body, messages, n)
  {
    var last: Option<nat> := None;
    var i := 0;
    while i < |messages|
      invariant 0 <= i <= |messages|
      invariant last.Some? ==> last.value < i && HasMarker(messages[last.value])
      invariant forall j | 0 <= j < i && HasMarker(messages[j]) :: last.Some? && j <= last.value
    {
      if HasMarker(messages[i]) { last := Some(i); }
      i := i + 1;
    }
    if last.Some? { return last.value + 1; }
    if Get(body, CACHE_CONTROL).Some? && |messages| > 1 { return |messages| - 1; }
    return 0;
  }

  // ---------- placement and freezing agree ----------

  function MarkPath(staticLen: nat, block: nat): Path
    requires staticLen > 0
  {
    [Key("messages"), Index(staticLen - 1), Key("content"), Index(block)]
  }

  function MarkedBlock(content: Json): nat {
    if content.Arr? && LastObject(content.items).Some? then LastObject(content.items).value else 0
  }

  lemma MarkedMarkers(content: Json, p: Path)
    requires !HasMarker(content) && Marked(content).Some?
    ensures MarkerAt(Marked(content).value, p) <==> p == [Index(MarkedBlock(content))]
  {
    assert !HasMarker(EPHEMERAL);
    match content
    case Arr(blocks) =>
      var i := LastObject(blocks).value;
      var v := Obj(blocks[i].m[CACHE_CONTROL := EPHEMERAL]);
      ItemMarkers(blocks, i, v, p);
      if p != [] { OwnMarker(blocks[i].m, EPHEMERAL, p[1..]); }
    case Str(text) =>
      var plain := Obj(map["type" := Str("text"), "text" := Str(text)]);
      var v := Obj(plain.m[CACHE_CONTROL := EPHEMERAL]);
      assert Marked(content).value == Arr([plain][0 := v]);
      assert !HasMarker(Str("text")) && !HasMarker(Str(text));
      assert !HasMarker(plain);
      ItemMarkers([plain], 0, v, p);
      if p != [] { OwnMarker(plain.m, EPHEMERAL, p[1..]); }
  }

  /**
   * A placed breakpoint is the one and only marker in the body, on the last block of the last
   * static message; no other message, no other field of that message and no other field of the
   * body changes.
   */
  lemma OneMarker(body: Json, n: nat, p: Path)
    requires Placed(body, n).Some?
    ensures n > 0 && Messages(body).Some? && n <= |Messages(body).value| && Messages(body).value[n - 1].Obj?
    ensures "content" in Messages(body).value[n - 1].m
    ensures MarkerAt(Placed(body, n).value, p) <==> p == MarkPath(n, MarkedBlock(Messages(body).value[n - 1].m["content"]))
  {
    var ms := Messages(body).value;
    var boundary := ms[n - 1];
    var content := boundary.m["content"];
    var marked := Obj(boundary.m["content" := Marked(content).value]);
    FieldMarkers(body.m, "messages", Arr(ms[n - 1 := marked]), p);
    if |p| > 0 { ItemMarkers(ms, n - 1, marked, p[1..]); }
    if |p| > 1 { FieldMarkers(boundary.m, "content", Marked(content).value, p[1..][1..]); }
    if |p| > 2 { MarkedMarkers(content, p[1..][1..][1..]); }
    Steps(p, n, MarkedBlock(content));
  }

  lemma Steps(p: Path, n: nat, i: nat)
    requires n > 0
    ensures p == MarkPath(n, i) <==>
      |p| > 2 && p[0] == Key("messages") && p[1..][0] == Index(n - 1) && p[1..][1..][0] == Key("content") && p[1..][1..][1..] == [Index(i)]
  {
    if |p| > 2 && p[1..][1..][1..] == [Index(i)] {
      assert p == [p[0], p[1], p[2]] + p[1..][1..][1..];
    }
  }

  lemma NothingElseChanges(body: Json, n: nat)
    requires Placed(body, n).Some?
    ensures var after := Placed(body, n).value;
      && body.Obj? && after.Obj? && after.m.Keys == body.m.Keys
      && (forall k | k in body.m && k != "messages" :: after.m[k] == body.m[k])
      && Messages(after).Some? && Messages(body).Some? && |Messages(after).value| == |Messages(body).value|
      && (forall i | 0 <= i < |Messages(body).value| && i != n - 1 :: Messages(after).value[i] == Messages(body).value[i])
  {
  }

  /** After a placement exactly the static messages are frozen, by every length the reader may return. */
  lemma PlacementFreezes(body: Json, n: nat, frozen: nat)
    requires Placed(body, n).Some? && Messages(Placed(body, n).value).Some?
    requires Freezes(Placed(body, n).value, Messages(Placed(body, n).value).value, frozen)
    ensures frozen == n
  {
    var after := Placed(body, n).value;
    var ms := Messages(after).value;
    forall i | 0 <= i < |ms|
      ensures HasMarker(ms[i]) <==> i == n - 1
    {
      MessageMarked(body, n, i);
    }
    assert HasMarker(ms[n - 1]);
  }

  lemma MessageMarked(body: Json, n: nat, i: nat)
    requires Placed(body, n).Some? && Messages(Placed(body, n).value).Some? && i < |Messages(Placed(body, n).value).value|
    ensures HasMarker(Messages(Placed(body, n).value).value[i]) <==> i == n - 1
  {
    var after := Placed(body, n).value;
    var ms := Messages(after).value;
    if HasMarker(ms[i]) {
      var q := MarkerHasPath(ms[i]);
      var p := [Key("messages"), Index(i)] + q;
      assert p[1..][1..] == q;
      assert MarkerAt(after, p);
      OneMarker(body, n, p);
    }
    if i == n - 1 {
      var j := MarkedBlock(Messages(body).value[n - 1].m["content"]);
      var p := MarkPath(n, j);
      OneMarker(body, n, p);
      PathHasMarker(ms[i], p[1..][1..]);
    }
  }

  /** A body that has its breakpoint never gets another. */
  lemma SecondCallRefuses(body: Json, n: nat, again: nat)
    requires Placed(body, n).Some?
    ensures Placed(Placed(body, n).value, again).None?
  {
    OneMarker(body, n, []);
    var p := MarkPath(n, MarkedBlock(Messages(body).value[n - 1].m["content"]));
    OneMarker(body, n, p);
    PathHasMarker(Placed(body, n).value, p);
  }

  /** There is a block to put a marker on: an object in a list, or a text. */
  predicate CanMark(content: Json) {
    match content
    case Arr(blocks) => exists i | 0 <= i < |blocks| :: blocks[i].Obj?
    case Str(text) => text != ""
    case _ => false
  }

  lemma MarkedIff(content: Json)
    ensures Marked(content).Some? <==> CanMark(content)
  {
    if content.Arr? && LastObject(content.items).Some? { assert content.items[LastObject(content.items).value].Obj?; }
  }

  /** A breakpoint is placed exactly if there is none yet and the last static message has a block to put it on. */
  lemma PlacesIff(body: Json, n: nat)
    ensures Placed(body, n).Some? <==>
      && !HasMarker(body) && Messages(body).Some? && 0 < n <= |Messages(body).value|
      && Get(Messages(body).value[n - 1], "content").Some? && CanMark(Get(Messages(body).value[n - 1], "content").value)
  {
    if Messages(body).Some? && 0 < n <= |Messages(body).value| && Get(Messages(body).value[n - 1], "content").Some? {
      MarkedIff(Get(Messages(body).value[n - 1], "content").value);
    }
  }

  predicate HasEphemeral(block: Json) {
    match Get(block, CACHE_CONTROL)
    case Some(Obj(m)) => m == map["type" := Str("ephemeral")]
    case _ => false
  }

  /** The content before and after: a text becomes a block with that text, and the last block of a list gets its marker, nothing else. */
  ghost predicate OnlyMarked(before: Json, after: Json) {
    match before
    case Str(text) =>
      && after.Arr? && |after.items| == 1 && after.items[0].Obj? && after.items[0].m.Keys == {"type", "text", CACHE_CONTROL}
      && GetStr(after.items[0], "type") == Some("text") && GetStr(after.items[0], "text") == Some(text)
      && HasEphemeral(after.items[0])
    case Arr(blocks) =>
      && after.Arr? && |after.items| == |blocks|
      && exists k | 0 <= k < |blocks| :: OnlyThisMarked(blocks, after.items, k)
    case _ => false
  }

  ghost predicate OnlyThisMarked(before: seq<Json>, after: seq<Json>, k: nat)
    requires |after| == |before| && k < |before|
  {
    && before[k].Obj? && (forall i | k < i < |before| :: !before[i].Obj?)
    && after == before[k := after[k]] && after[k].Obj? && HasEphemeral(after[k])
    && forall f | f != CACHE_CONTROL :: Get(after[k], f) == Get(before[k], f)
  }

  /** The boundary message keeps its content, down to every field of every block. */
  lemma ContentKept(body: Json, n: nat)
    requires Placed(body, n).Some?
    ensures 0 < n <= |Messages(body).value| && Messages(Placed(body, n).value).Some? && |Messages(Placed(body, n).value).value| == |Messages(body).value|
    ensures var before, after := Get(Messages(body).value[n - 1], "content"), Get(Messages(Placed(body, n).value).value[n - 1], "content");
      before.Some? && after.Some? && OnlyMarked(before.value, after.value)
  {
    var content := Messages(body).value[n - 1].m["content"];
    MarkedOnly(content);
  }

  lemma MarkedOnly(content: Json)
    requires Marked(content).Some?
    ensures OnlyMarked(content, Marked(content).value)
  {
    if content.Arr? {
      var k := LastObject(content.items).value;
      assert OnlyThisMarked(content.items, Marked(content).value.items, k);
    }
  }
}
