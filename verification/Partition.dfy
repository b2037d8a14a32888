/**
 * Partitioning a message list: heavy texts are extracted, everything else survives in place, and
 * the fingerprint goes to the last surviving user message.
 */
module Partition {
  import opened Common
  import opened Json
  import opened Reminders

  datatype Extracted = Extracted(role: string, text: string, tokenCount: nat)

  /** The threshold, the token counter, the reminder tags, and the text that stands for an absorbed tool result. */
  datatype Settings = Settings(threshold: nat, count: string -> nat, tags: Tags, absorbed: string)

  type Rules = c: Settings | c.absorbed != "" && !IsSpace(c.tags.open[0])
    witness Settings(0, (s: string) => 0, TagPair("<", ">"), "-")

  function AxiomRules(threshold: nat, count: string -> nat): Rules {
    var absorbed := "[axiom-ttt: " + "heavy tool_result absorbed into session fingerprint]";
    assert REMINDER.open[0] == '<' && absorbed[0] == '[';
    Settings(threshold, count, REMINDER, absorbed)
  }

  datatype Split = Split(kept: seq<Json>, extracted: seq<Extracted>)

  datatype Partitioned = Partitioned(heavy: seq<Extracted>, surviving: seq<Json>, target: Option<nat>)

  const GAP: string := "\n\n"

  function Role(m: Json): string { if GetStr(m, "role").Some? then GetStr(m, "role").value else "user" }

  function Content(m: Json): Json { if Get(m, "content").Some? then Get(m, "content").value else Null }

  function BlockType(b: Json): string { if GetStr(b, "type").Some? then GetStr(b, "type").value else "" }

  predicate Blank(s: string) { forall i | 0 <= i < |s| :: IsSpace(s[i]) }

  predicate ContentIsEmpty(v: Json) {
    match v
    case Str(s) => Blank(s)
    case Arr(items) => items == []
    case Null => true
    case _ => false
  }

  /** The texts of these parts, in order. */
  function PartTexts(parts: seq<Json>): seq<string> {
    if parts == [] then []
    else (if GetStr(parts[0], "text").Some? then [GetStr(parts[0], "text").value] else []) + PartTexts(parts[1..])
  }

  /** The text of a tool result, unless it is empty or carries anything but text. */
  function ToolText(block: Json): Option<string> {
    if BlockType(block) != "tool_result" then None
    else
      match Get(block, "content")
      case Some(Str(s)) => if s != "" then Some(s) else None
      case Some(Arr(parts)) =>
        if exists i | 0 <= i < |parts| :: GetStr(parts[i], "type") != Some("text") then None
        else if Join(PartTexts(parts), "\n") == "" then None
        else Some(Join(PartTexts(parts), "\n"))
      case _ => None
  }

  // ---------- which text a piece of content offers ----------

  /** The text of a block that may be extracted. */
  function Offer(block: Json, newest: bool): Option<string> {
    if BlockType(block) == "text" then GetStr(block, "text")
    else if !newest then ToolText(block)
    else None
  }

  predicate Heavy(text: string, c: Rules) { c.count(Remainder(text, c.tags)) >= c.threshold }

  function Extraction(role: string, text: string, c: Rules): Extracted {
    var r := Remainder(text, c.tags);
    Extracted(role, r, c.count(r))
  }

  /** What stands for an absorbed tool result: never empty, and with its reminder spans. */
  function Mark(spans: seq<string>, c: Rules): string { if spans == [] then c.absorbed else c.absorbed + GAP + Join(spans, GAP) }

  // ---------- content ----------

  function SplitBlock(role: string, block: Json, newest: bool, c: Rules): Split {
    var offer := Offer(block, newest);
    if offer.None? || !Heavy(offer.value, c) then Split([block], [])
    else
      var spans := Pieces(offer.value, c.tags).spans;
      var out := [Extraction(role, offer.value, c)];
      if BlockType(block) == "text" then
        Split(if spans == [] then [] else [Obj(block.m["text" := Str(Join(spans, GAP))])], out)
      else
        Split([Obj(block.m["content" := Str(Mark(spans, c))])], out)
  }

  function SplitBlocks(role: string, blocks: seq<Json>, newest: bool, c: Rules): Split {
    if blocks == [] then Split([], [])
    else
      var sofar := SplitBlocks(role, blocks[..|blocks| - 1], newest, c);
      var last := SplitBlock(role, blocks[|blocks| - 1], newest, c);
      Split(sofar.kept + last.kept, sofar.extracted + last.extracted)
  }

  function SplitContent(role: string, content: Json, newest: bool, c: Rules): (Json, seq<Extracted>) {
    match content
    case Str(text) =>
      if Heavy(text, c) then (Str(Join(Pieces(text, c.tags).spans, GAP)), [Extraction(role, text, c)])
      else (content, [])
    case Arr(blocks) =>
      var s := SplitBlocks(role, blocks, newest, c);
      (Arr(s.kept), s.extracted)
    case _ => (content, [])
  }

  // ---------- messages ----------

  /** A message with new content; only objects have content to begin with. */
  function WithContent(m: Json, content: Json): Json
    requires m.Obj?
  {
    Obj(m.m["content" := content])
  }

  function SplitMessage(m: Json, newest: bool, c: Rules): Split {
    if Role(m) == "system" then Split([m], [])
    else
      var (content, extracted) := SplitContent(Role(m), Content(m), newest, c);
      Split(if ContentIsEmpty(content) then [] else [WithContent(m, content)], extracted)
  }

  function Onward(p: Partitioned, m: Json, newest: bool, c: Rules): Partitioned {
    var s := SplitMessage(m, newest, c);
    Partitioned(p.heavy + s.extracted, p.surviving + s.kept,
                if Role(m) == "user" && s.kept != [] then Some(|p.surviving|) else p.target)
  }

  /** After the first `n` messages. */
  function PartitionFirst(ms: seq<Json>, n: nat, c: Rules): Partitioned
    requires n <= |ms|
  {
    if n == 0 then Partitioned([], [], None)
    else Onward(PartitionFirst(ms, n - 1, c), ms[n - 1], n == |ms|, c)
  }

  lemma SplitBlocksNext(role: string, blocks: seq<Json>, i: nat, newest: bool, c: Rules)
    requires i < |blocks|
    ensures var sofar, next := SplitBlocks(role, blocks[..i], newest, c), SplitBlock(role, blocks[i], newest, c);
      SplitBlocks(role, blocks[..i + 1], newest, c) == Split(sofar.kept + next.kept, sofar.extracted + next.extracted)
  {
    assert blocks[..i + 1][..i] == blocks[..i];
  }

  method SplitBlockList(role: string, blocks: seq<Json>, newest: bool, c: Rules) returns (kept: seq<Json>, extracted: seq<Extracted>)
    ensures Split(kept, extracted) == SplitBlocks(role, blocks, newest, c)
  {
    kept, extracted := [], [];
    var i := 0;
    while i < |blocks|
      invariant 0 <= i <= |blocks|
      invariant Split(kept, extracted) == SplitBlocks(role, blocks[..i], newest, c)
    {
      SplitBlocksNext(role, blocks, i, newest, c);
      var keep, out := SplitOne(role, blocks[i], newest, c);
      kept, extracted := kept + keep, extracted + out;
      i := i + 1;
    }
    assert blocks[..i] == blocks;
  }

  method SplitOne(role: string, block: Json, newest: bool, c: Rules) returns (keep: seq<Json>, out: seq<Extracted>)
    ensures Split(keep, out) == SplitBlock(role, block, newest, c)
  {
    if BlockType(block) == "text" && GetStr(block, "text").Some? {
      var remainder, spans := SplitReminders(GetStr(block, "text").value, c.tags);
      var count := c.count(remainder);
      if count >= c.threshold {
        keep := if spans == [] then [] else [Obj(block.m["text" := Str(Join(spans, GAP))])];
        return keep, [Extracted(role, remainder, count)];
      }
    }
    if BlockType(block) == "tool_result" && !newest && ToolText(block).Some? {
      var remainder, spans := SplitReminders(ToolText(block).value, c.tags);
      var count := c.count(remainder);
      if count >= c.threshold {
        return [Obj(block.m["content" := Str(Mark(spans, c))])], [Extracted(role, remainder, count)];
      }
    }
    return [block], [];
  }

  method SplitAny(role: string, content: Json, newest: bool, c: Rules) returns (kept: Json, extracted: seq<Extracted>)
    ensures (kept, extracted) == SplitContent(role, content, newest, c)
  {
    match content
    case Str(text) =>
      var remainder, spans := SplitReminders(text, c.tags);
      if spans == [] {
        Unspanned(text, c.tags);
        var count := c.count(text);
        if count >= c.threshold { return Str(""), [Extracted(role, text, count)]; }
      } else {
        var count := c.count(remainder);
        if count >= c.threshold { return Str(Join(spans, GAP)), [Extracted(role, remainder, count)]; }
      }
      return content, [];
    case Arr(blocks) =>
      var keep, out := SplitBlockList(role, blocks, newest, c);
      return Arr(keep), out;
    case _ =>
      return content, [];
  }

  /** Without spans the remainder is the text itself. */
  lemma Unspanned(text: string, t: Tags)
    requires Pieces(text, t).spans == []
    ensures Remainder(text, t) == text
  {
    PiecesWeave(text, t);
    ConcatOne(text);
  }

  method SplitOneMessage(m: Json, newest: bool, c: Rules) returns (kept: seq<Json>, extracted: seq<Extracted>)
    ensures Split(kept, extracted) == SplitMessage(m, newest, c)
  {
    if Role(m) == "system" {
      return [m], [];
    }
    var content;
    content, extracted := SplitAny(Role(m), Content(m), newest, c);
    kept := if ContentIsEmpty(content) then [] else [WithContent(m, content)];
  }

  method PartitionMessages(ms: seq<Json>, c: Rules) returns (p: Partitioned)
    ensures p == PartitionFirst(ms, |ms|, c)
  {
    var heavy, surviving := [], [];
    var target: Option<nat> := None;
    var i := 0;
    while i < |ms|
      invariant 0 <= i <= |ms|
      invariant Partitioned(heavy, surviving, target) == PartitionFirst(ms, i, c)
    {
      var m := ms[i];
      i := i + 1;
      var kept, extracted := SplitOneMessage(m, i == |ms|, c);
      if Role(m) == "user" && kept != [] { target := Some(|surviving|); }
      heavy, surviving := heavy + extracted, surviving + kept;
    }
    return Partitioned(heavy, surviving, target);
  }

  // ---------- the outbound message list ----------

  function Prepended(m: Json, block: string, render: Json -> string): Json
    requires m.Obj?
  {
    WithContent(m,
      match Content(m)
      case Str(s) => Str(block + GAP + s)
      case Arr(items) => Arr([Obj(map["type" := Str("text"), "text" := Str(block + GAP)])] + items)
      case Null => Str(block)
      case other => Str(block + GAP + render(other)))
  }

  /** The surviving messages with the fingerprint block in the target, or in a turn of its own. */
  function PayloadMessages(p: Partitioned, block: string, render: Json -> string): seq<Json>
    requires p.target.Some? ==> p.target.value < |p.surviving| && p.surviving[p.target.value].Obj?
  {
    match p.target
    case Some(t) => p.surviving[t := Prepended(p.surviving[t], block, render)]
    case None =>
      if p.heavy != [] then p.surviving + [Obj(map["role" := Str("user"), "content" := Str(block)])]
      else p.surviving
  }
}
