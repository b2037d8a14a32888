/** What partitioning a message list keeps, takes and never loses. */
module PartitionLaws {
  import opened Common
  import opened Sequences
  import opened Json
  import opened Reminders
  import opened Partition

  // ---------- everything but text survives, in order ----------

  /** What is not text: a whole system message, or a block or odd content of another role. */
  datatype Unit = Whole(m: Json) | Part(role: string, v: Json)

  predicate IsTextBlock(b: Json) { BlockType(b) == "text" && GetStr(b, "text").Some? }

  function Parts(role: string, blocks: seq<Json>): seq<Unit> { Flat(blocks, SolidOf(role)) }

  function SolidOf(role: string): Json -> seq<Unit> { b => Solid(role, b) }

  function Solid(role: string, b: Json): seq<Unit> { if IsTextBlock(b) then [] else [Part(role, b)] }

  function Units(m: Json): seq<Unit> {
    if Role(m) == "system" then [Whole(m)] else ContentUnits(Role(m), Content(m))
  }

  function AllUnits(ms: seq<Json>): seq<Unit> { Flat(ms, Units) }

  /** The same tool result with its text content replaced by the mark that absorbs it. */
  predicate Absorbed(a: Json, b: Json, c: Rules) {
    ToolText(a).Some? && a.Obj? && b == Obj(a.m["content" := Str(Mark(Pieces(ToolText(a).value, c.tags).spans, c))])
  }

  predicate SurvivesAs(a: Unit, b: Unit, c: Rules) {
    a == b || (a.Part? && b.Part? && a.role == b.role && Absorbed(a.v, b.v, c))
  }

  predicate Survive(xs: seq<Unit>, ys: seq<Unit>, c: Rules) {
    |xs| == |ys| && forall i | 0 <= i < |xs| :: SurvivesAs(xs[i], ys[i], c)
  }

  /** A surviving tool result still answers its tool call: only its content may differ. */
  lemma AbsorbedKeepsFields(a: Json, b: Json, c: Rules)
    requires Absorbed(a, b, c)
    ensures BlockType(a) == "tool_result" && BlockType(b) == "tool_result"
    ensures Get(b, "tool_use_id") == Get(a, "tool_use_id")
    ensures forall k | k != "content" :: Get(b, k) == Get(a, k)
    ensures GetStr(b, "content").Some? && GetStr(b, "content").value != ""
  {
  }

  predicate KeptAs(b: Json, kept: seq<Json>, newest: bool, c: Rules) {
    && |kept| <= 1
    && (kept == [] ==> IsTextBlock(b))
    && (kept != [] ==> IsTextBlock(kept[0]) == IsTextBlock(b))
    && (kept != [] && !IsTextBlock(b) ==> kept[0] == b || (!newest && Absorbed(b, kept[0], c)))
  }

  lemma KeptBlock(role: string, b: Json, newest: bool, c: Rules)
    ensures KeptAs(b, SplitBlock(role, b, newest, c).kept, newest, c)
  {
    if BlockType(b) == "text" {
      KeptText(role, b, newest, c);
    } else if BlockType(b) == "tool_result" {
      KeptTool(role, b, newest, c);
    }
  }

  lemma KeptText(role: string, b: Json, newest: bool, c: Rules)
    requires BlockType(b) == "text"
    ensures KeptAs(b, SplitBlock(role, b, newest, c).kept, newest, c)
  {
  }

  lemma KeptTool(role: string, b: Json, newest: bool, c: Rules)
    requires BlockType(b) == "tool_result"
    ensures KeptAs(b, SplitBlock(role, b, newest, c).kept, newest, c)
  {
  }

  lemma BlockSurvives(role: string, b: Json, newest: bool, c: Rules)
    ensures Survive(Parts(role, [b]), Parts(role, SplitBlock(role, b, newest, c).kept), c)
    ensures newest ==> Parts(role, SplitBlock(role, b, newest, c).kept) == Parts(role, [b])
  {
    KeptBlock(role, b, newest, c);
    FlatOne(b, SolidOf(role));
    SolidSurvives(role, b, SplitBlock(role, b, newest, c).kept, c);
  }

  lemma SolidSurvives(role: string, b: Json, kept: seq<Json>, c: Rules)
    requires |kept| <= 1 && (kept == [] ==> IsTextBlock(b)) && (kept != [] ==> IsTextBlock(kept[0]) == IsTextBlock(b))
    requires kept != [] && !IsTextBlock(b) ==> kept[0] == b || Absorbed(b, kept[0], c)
    ensures Survive(Solid(role, b), Parts(role, kept), c)
    ensures IsTextBlock(b) || kept == [b] ==> Parts(role, kept) == Solid(role, b)
  {
    if kept != [] {
      FlatOne(kept[0], SolidOf(role));
      assert kept == [kept[0]];
    }
  }

  lemma {:induction false} BlocksSurvive(role: string, blocks: seq<Json>, newest: bool, c: Rules)
    ensures Survive(Parts(role, blocks), Parts(role, SplitBlocks(role, blocks, newest, c).kept), c)
    ensures newest ==> Parts(role, SplitBlocks(role, blocks, newest, c).kept) == Parts(role, blocks)
  {
    if blocks != [] {
      var init, last := blocks[..|blocks| - 1], blocks[|blocks| - 1];
      BlocksSurvive(role, init, newest, c);
      BlockSurvives(role, last, newest, c);
      PartsGlue(role, init, [last], SplitBlocks(role, init, newest, c).kept, SplitBlock(role, last, newest, c).kept, c);
      Snocs(blocks);
    }
  }

  lemma PartsGlue(role: string, a: seq<Json>, b: seq<Json>, x: seq<Json>, y: seq<Json>, c: Rules)
    requires Survive(Parts(role, a), Parts(role, x), c) && Survive(Parts(role, b), Parts(role, y), c)
    ensures Survive(Parts(role, a + b), Parts(role, x + y), c)
    ensures Parts(role, a) == Parts(role, x) && Parts(role, b) == Parts(role, y) ==> Parts(role, a + b) == Parts(role, x + y)
  {
    FlatConcat(a, b, SolidOf(role));
    FlatConcat(x, y, SolidOf(role));
    SurviveConcat(Parts(role, a), Parts(role, b), Parts(role, x), Parts(role, y), c);
  }

  lemma MessageSurvives(m: Json, newest: bool, c: Rules)
    ensures Survive(Units(m), AllUnits(SplitMessage(m, newest, c).kept), c)
    ensures newest ==> AllUnits(SplitMessage(m, newest, c).kept) == Units(m)
  {
    if Role(m) == "system" {
      FlatOne(m, Units);
    } else {
      ContentSurvives(Role(m), Content(m), newest, c);
      KeptUnits(m, SplitContent(Role(m), Content(m), newest, c).0);
    }
  }

  lemma KeptUnits(m: Json, content: Json)
    requires Role(m) != "system" && (!ContentIsEmpty(content) ==> m.Obj?) && (ContentIsEmpty(content) ==> ContentUnits(Role(m), content) == [])
    ensures AllUnits(if ContentIsEmpty(content) then [] else [WithContent(m, content)]) == ContentUnits(Role(m), content)
  {
    if !ContentIsEmpty(content) {
      FlatOne(WithContent(m, content), Units);
      UnitsWithContent(m, content);
    }
  }

  lemma UnitsWithContent(m: Json, content: Json)
    requires m.Obj? && Role(m) != "system"
    ensures Units(WithContent(m, content)) == ContentUnits(Role(m), content)
  {
    assert Role(WithContent(m, content)) == Role(m);
  }

  function ContentUnits(role: string, content: Json): seq<Unit> {
    match content
    case Arr(blocks) => Parts(role, blocks)
    case Str(_) => []
    case Null => []
    case other => [Part(role, other)]
  }

  lemma ContentSurvives(role: string, content: Json, newest: bool, c: Rules)
    ensures var kept := SplitContent(role, content, newest, c).0;
      && Survive(ContentUnits(role, content), ContentUnits(role, kept), c)
      && (newest ==> ContentUnits(role, kept) == ContentUnits(role, content))
      && (ContentIsEmpty(kept) ==> ContentUnits(role, kept) == [])
  {
    if content.Arr? { BlocksSurvive(role, content.items, newest, c); }
  }

  lemma SurviveConcat(a: seq<Unit>, b: seq<Unit>, x: seq<Unit>, y: seq<Unit>, c: Rules)
    requires Survive(a, x, c) && Survive(b, y, c)
    ensures Survive(a + b, x + y, c)
  {
    forall i | 0 <= i < |a + b|
      ensures SurvivesAs((a + b)[i], (x + y)[i], c)
    {
      if i >= |a| { assert SurvivesAs(b[i - |a|], y[i - |a|], c); }
    }
  }

  /**
   * Partitioning loses nothing but text: system messages and all blocks that are not text survive
   * in order and unchanged, tool results with their fields, and those of the newest message with
   * their content too.
   */
  lemma {:induction false} AllSurvive(ms: seq<Json>, n: nat, c: Rules)
    requires n <= |ms|
    ensures Survive(AllUnits(ms[..n]), AllUnits(PartitionFirst(ms, n, c).surviving), c)
    ensures n == |ms| > 0 ==>
      AllUnits(PartitionFirst(ms, n, c).surviving) == AllUnits(PartitionFirst(ms, n - 1, c).surviving) + Units(ms[n - 1])
  {
    if n > 0 {
      AllSurvive(ms, n - 1, c);
      MessageSurvives(ms[n - 1], n == |ms|, c);
      UnitsGlue(ms[..n - 1], ms[n - 1], PartitionFirst(ms, n - 1, c).surviving, SplitMessage(ms[n - 1], n == |ms|, c).kept, c);
      Prefix(ms, n);
    }
  }

  lemma Prefix(ms: seq<Json>, n: nat)
    requires 0 < n <= |ms|
    ensures ms[..n - 1] + [ms[n - 1]] == ms[..n]
  {
  }

  lemma UnitsGlue(a: seq<Json>, m: Json, x: seq<Json>, y: seq<Json>, c: Rules)
    requires Survive(AllUnits(a), AllUnits(x), c) && Survive(Units(m), AllUnits(y), c)
    ensures Survive(AllUnits(a + [m]), AllUnits(x + y), c) && AllUnits(x + y) == AllUnits(x) + AllUnits(y)
  {
    FlatSnoc(a, m, Units);
    FlatConcat(x, y, Units);
    SurviveConcat(AllUnits(a), Units(m), AllUnits(x), AllUnits(y), c);
  }

  // ---------- exactly the heavy text is taken, in order ----------

  function BlockTexts(role: string, blocks: seq<Json>, newest: bool): seq<(string, string)> {
    if blocks == [] then []
    else
      BlockTexts(role, blocks[..|blocks| - 1], newest) + Offered(role, blocks[|blocks| - 1], newest)
  }

  function Offered(role: string, b: Json, newest: bool): seq<(string, string)> {
    if Offer(b, newest).Some? then [(role, Offer(b, newest).value)] else []
  }

  /** The texts a message offers, each with its role. */
  function Texts(m: Json, newest: bool): seq<(string, string)> {
    if Role(m) == "system" then []
    else
      match Content(m)
      case Str(text) => [(Role(m), text)]
      case Arr(blocks) => BlockTexts(Role(m), blocks, newest)
      case _ => []
  }

  /** The texts of each of the first `n` messages. */
  function MessageTexts(ms: seq<Json>, n: nat): seq<seq<(string, string)>>
    requires n <= |ms|
  {
    if n == 0 then [] else MessageTexts(ms, n - 1) + [Texts(ms[n - 1], n == |ms|)]
  }

  function AllTexts(ms: seq<Json>, n: nat): seq<(string, string)>
    requires n <= |ms|
  {
    Flat(MessageTexts(ms, n), Itself())
  }

  function TakenFrom(t: (string, string), c: Rules): seq<Extracted> {
    var r := Remainder(t.1, c.tags);
    if c.count(r) >= c.threshold then [Extracted(t.0, r, c.count(r))] else []
  }

  function Taker(c: Rules): ((string, string)) -> seq<Extracted> { t => TakenFrom(t, c) }

  function HeavyOf(texts: seq<(string, string)>, c: Rules): seq<Extracted> { Flat(texts, Taker(c)) }

  lemma {:induction false} BlocksTaken(role: string, blocks: seq<Json>, newest: bool, c: Rules)
    ensures SplitBlocks(role, blocks, newest, c).extracted == HeavyOf(BlockTexts(role, blocks, newest), c)
  {
    if blocks != [] {
      var init, last := blocks[..|blocks| - 1], blocks[|blocks| - 1];
      BlocksTaken(role, init, newest, c);
      BlockTaken(role, last, newest, c);
      FlatConcat(BlockTexts(role, init, newest), Offered(role, last, newest), Taker(c));
    }
  }

  lemma BlockTaken(role: string, b: Json, newest: bool, c: Rules)
    ensures SplitBlock(role, b, newest, c).extracted == HeavyOf(Offered(role, b, newest), c)
  {
    if Offer(b, newest).Some? { FlatOne((role, Offer(b, newest).value), Taker(c)); }
  }

  lemma MessageTaken(m: Json, newest: bool, c: Rules)
    ensures SplitMessage(m, newest, c).extracted == HeavyOf(Texts(m, newest), c)
  {
    if Role(m) != "system" {
      match Content(m)
      case Str(text) => FlatOne((Role(m), text), Taker(c));
      case Arr(blocks) => BlocksTaken(Role(m), blocks, newest, c);
      case _ =>
    }
  }

  predicate TakenByMessage(p: Partitioned, texts: seq<seq<(string, string)>>, c: Rules) { p.heavy == Flat(texts, Each(Taker(c))) }

  lemma {:induction false} TakenInTurn(ms: seq<Json>, n: nat, c: Rules)
    requires n <= |ms|
    ensures TakenByMessage(PartitionFirst(ms, n, c), MessageTexts(ms, n), c)
  {
    if n > 0 {
      TakenInTurn(ms, n - 1, c);
      OnwardTaken(PartitionFirst(ms, n - 1, c), MessageTexts(ms, n - 1), ms[n - 1], n == |ms|, c);
    }
  }

  lemma OnwardTaken(p: Partitioned, texts: seq<seq<(string, string)>>, m: Json, newest: bool, c: Rules)
    requires TakenByMessage(p, texts, c)
    ensures TakenByMessage(Onward(p, m, newest, c), texts + [Texts(m, newest)], c)
  {
    MessageTaken(m, newest, c);
    FlatSnoc(texts, Texts(m, newest), Each(Taker(c)));
  }

  predicate HasTaken(p: Partitioned, texts: seq<(string, string)>, c: Rules) { p.heavy == HeavyOf(texts, c) }

  /** What is extracted is exactly the remainder of every heavy text on offer, in order, whatever it came wrapped in. */
  lemma HeavyIsAllHeavyText(ms: seq<Json>, n: nat, c: Rules)
    requires n <= |ms|
    ensures HasTaken(PartitionFirst(ms, n, c), AllTexts(ms, n), c)
  {
    TakenInTurn(ms, n, c);
    FlatFlat(MessageTexts(ms, n), Taker(c));
  }

  // ---------- the text of a tool result ----------

  /** These lines, one after the other, with a newline between each two. */
  predicate OnLines(lines: seq<string>, text: string) {
    if lines == [] then text == ""
    else if |lines| == 1 then text == lines[0]
    else
      && |lines[0]| < |text| && text[..|lines[0]|] == lines[0] && text[|lines[0]|] == '\n'
      && OnLines(lines[1..], text[|lines[0]| + 1..])
  }

  /** The content of a tool result with this text and nothing else in it. */
  predicate OnlyText(content: Option<Json>, text: string) {
    match content
    case Some(Str(s)) => text == s
    case Some(Arr(parts)) => (forall i | 0 <= i < |parts| :: GetStr(parts[i], "type") == Some("text")) && OnLines(PartTexts(parts), text)
    case _ => false
  }

  /** A tool result offers its text exactly if it has some and nothing but text: its string, or its parts on lines of their own. */
  lemma ToolTextIff(b: Json, text: string)
    ensures ToolText(b) == Some(text) <==> BlockType(b) == "tool_result" && text != "" && OnlyText(Get(b, "content"), text)
  {
    match Get(b, "content")
    case Some(Arr(parts)) => LinesJoined(PartTexts(parts), text);
    case _ =>
  }

  lemma {:induction false} LinesJoined(lines: seq<string>, text: string)
    ensures OnLines(lines, text) <==> text == Join(lines, "\n")
  {
    if |lines| > 1 {
      var tail := Join(lines[1..], "\n");
      assert Join(lines, "\n") == lines[0] + "\n" + tail;
      if OnLines(lines, text) {
        LinesJoined(lines[1..], text[|lines[0]| + 1..]);
        assert text == text[..|lines[0]|] + [text[|lines[0]|]] + text[|lines[0]| + 1..];
      }
      if text == Join(lines, "\n") {
        assert text[|lines[0]| + 1..] == tail;
        LinesJoined(lines[1..], tail);
      }
    }
  }

  // ---------- where the characters of a text go ----------

  /** The remainder taken from a heavy text and the spans kept for it are exactly its characters. */
  lemma ExtractionDivides(role: string, text: string, c: Rules)
    ensures Divides(text, Extraction(role, text, c).text, Pieces(text, c.tags).spans)
    ensures WellCut(Pieces(text, c.tags), c.tags)
  {
    PiecesDivide(text, c.tags);
    PiecesShape(text, c.tags);
  }

  lemma {:induction false} JoinHolds(spans: seq<string>, sep: string, i: nat) returns (at: nat)
    requires i < |spans|
    ensures OccursAt(Join(spans, sep), spans[i], at)
  {
    if |spans| == 1 {
      at := 0;
    } else if i == 0 {
      at := 0;
      OccursLater("", spans[0], sep + Join(spans[1..], sep), spans[0], 0);
    } else {
      var k := JoinHolds(spans[1..], sep, i - 1);
      at := |spans[0] + sep| + k;
      OccursLater(spans[0] + sep, Join(spans[1..], sep), "", spans[i], k);
    }
  }

  lemma OccursLater(before: string, s: string, after: string, p: string, k: nat)
    requires OccursAt(s, p, k)
    ensures OccursAt(before + s + after, p, |before| + k)
    ensures before == "" ==> OccursAt(s + after, p, k)
    ensures after == "" ==> OccursAt(before + s, p, |before| + k)
  {
    var all := before + s + after;
    assert all[|before| + k..|before| + k + |p|] == s[k..k + |p|];
    if before == "" { assert all == s + after; }
    if after == "" { assert all == before + s; }
  }

  lemma MarkHolds(spans: seq<string>, c: Rules, i: nat)
    requires i < |spans|
    ensures Occurs(Mark(spans, c), spans[i])
  {
    var k := JoinHolds(spans, GAP, i);
    OccursLater(c.absorbed + GAP, Join(spans, GAP), "", spans[i], k);
  }

  /** No reminder is lost: every span of a heavy text stands in what is kept of its block. */
  lemma RemindersSurvive(role: string, b: Json, newest: bool, c: Rules, i: nat)
    requires Offer(b, newest).Some? && Heavy(Offer(b, newest).value, c) && i < |Pieces(Offer(b, newest).value, c.tags).spans|
    ensures var kept := SplitBlock(role, b, newest, c).kept;
      && |kept| == 1
      && var field := GetStr(kept[0], FieldOf(b));
      && field.Some? && Occurs(field.value, Pieces(Offer(b, newest).value, c.tags).spans[i])
  {
    var spans := Pieces(Offer(b, newest).value, c.tags).spans;
    var k := JoinHolds(spans, GAP, i);
    MarkHolds(spans, c, i);
    KeptField(role, b, newest, c, spans);
    FieldRead(b, FieldOf(b), TextLeft(b, spans, c));
  }

  function FieldOf(b: Json): string { if BlockType(b) == "text" then "text" else "content" }

  /** What is kept in place of a heavy text with these spans. */
  function TextLeft(b: Json, spans: seq<string>, c: Rules): string {
    if BlockType(b) == "text" then Join(spans, GAP) else Mark(spans, c)
  }

  lemma KeptField(role: string, b: Json, newest: bool, c: Rules, spans: seq<string>)
    requires Offer(b, newest).Some? && Heavy(Offer(b, newest).value, c)
    requires spans == Pieces(Offer(b, newest).value, c.tags).spans && spans != []
    ensures b.Obj? && SplitBlock(role, b, newest, c).kept == [Obj(b.m[FieldOf(b) := Str(TextLeft(b, spans, c))])]
  {
  }

  lemma FieldRead(b: Json, field: string, text: string)
    requires b.Obj?
    ensures GetStr(Obj(b.m[field := Str(text)]), field) == Some(text)
  {
  }

  /** A message none of whose texts is heavy passes unchanged, unless it says nothing. */
  lemma LightPassesUnchanged(m: Json, newest: bool, c: Rules)
    requires AllLight(Texts(m, newest), c)
    ensures SplitMessage(m, newest, c) == Split(if Role(m) != "system" && SaysNothing(Content(m)) then [] else [m], [])
  {
    if Role(m) != "system" {
      match Content(m)
      case Arr(blocks) =>
        LightBlocks(Role(m), blocks, newest, c);
        assert WithContent(m, Arr(blocks)) == m;
      case Str(text) =>
        assert Texts(m, newest)[0] == (Role(m), text);
        assert WithContent(m, Str(text)) == m;
      case Null =>
      case other => assert WithContent(m, other) == m;
    }
  }

  /** Below the threshold without their reminders. */
  predicate AllLight(texts: seq<(string, string)>, c: Rules) {
    forall i | 0 <= i < |texts| :: c.count(Remainder(texts[i].1, c.tags)) < c.threshold
  }

  /** White space only, an empty list, or nothing. */
  predicate SaysNothing(v: Json) {
    v == Null || v == Arr([]) || (v.Str? && forall i | 0 <= i < |v.s| :: IsSpace(v.s[i]))
  }

  lemma {:induction false} LightBlocks(role: string, blocks: seq<Json>, newest: bool, c: Rules)
    requires AllLight(BlockTexts(role, blocks, newest), c)
    ensures SplitBlocks(role, blocks, newest, c) == Split(blocks, [])
  {
    if blocks != [] {
      var init, last := blocks[..|blocks| - 1], blocks[|blocks| - 1];
      LightParts(BlockTexts(role, init, newest), Offered(role, last, newest), c);
      LightBlocks(role, init, newest, c);
      LightBlock(role, last, newest, c);
      Snocs(blocks);
    }
  }

  lemma LightBlock(role: string, b: Json, newest: bool, c: Rules)
    requires AllLight(Offered(role, b, newest), c)
    ensures SplitBlock(role, b, newest, c) == Split([b], [])
  {
    if Offer(b, newest).Some? { assert !Heavy(Offered(role, b, newest)[0].1, c); }
  }

  lemma LightParts(a: seq<(string, string)>, b: seq<(string, string)>, c: Rules)
    requires AllLight(a + b, c)
    ensures AllLight(a, c) && AllLight(b, c)
  {
    forall i | 0 <= i < |a|
      ensures c.count(Remainder(a[i].1, c.tags)) < c.threshold
    {
      assert (a + b)[i] == a[i];
    }
    forall i | 0 <= i < |b|
      ensures c.count(Remainder(b[i].1, c.tags)) < c.threshold
    {
      assert (a + b)[|a| + i] == b[i];
    }
  }

  /** All the text of this block was extracted. */
  predicate Taken(role: string, b: Json, c: Rules) {
    IsTextBlock(b) && SplitBlock(role, b, true, c).extracted == [Extracted(role, GetStr(b, "text").value, c.count(GetStr(b, "text").value))]
  }

  /** A message is dropped only if it was blank or empty, or all its text was extracted and there was nothing else. */
  lemma DroppedOnlyIfTaken(m: Json, newest: bool, c: Rules)
    requires SplitMessage(m, newest, c).kept == []
    ensures Role(m) != "system"
    ensures match Content(m)
      case Str(text) => Blank(text) || SplitMessage(m, newest, c).extracted == [Extracted(Role(m), text, c.count(text))]
      case Arr(blocks) => forall i | 0 <= i < |blocks| :: Taken(Role(m), blocks[i], c)
      case Null => true
      case _ => false
  {
    match Content(m)
    case Str(text) =>
      if Heavy(text, c) {
        if Pieces(text, c.tags).spans == [] { Unspanned(text, c.tags); } else { SpansNotBlank(text, c); }
      }
    case Arr(blocks) =>
      forall i | 0 <= i < |blocks|
        ensures Taken(Role(m), blocks[i], c)
      {
        AllTaken(Role(m), blocks, newest, c, i);
      }
    case _ =>
  }

  lemma {:induction false} AllTaken(role: string, blocks: seq<Json>, newest: bool, c: Rules, i: nat)
    requires SplitBlocks(role, blocks, newest, c).kept == [] && i < |blocks|
    ensures Taken(role, blocks[i], c)
  {
    if i < |blocks| - 1 {
      AllTaken(role, blocks[..|blocks| - 1], newest, c, i);
    } else {
      WhollyTaken(role, blocks[i], newest, c);
    }
  }

  lemma WhollyTaken(role: string, b: Json, newest: bool, c: Rules)
    requires SplitBlock(role, b, newest, c).kept == []
    ensures Taken(role, b, c)
  {
    Unspanned(GetStr(b, "text").value, c.tags);
  }

  lemma SpansNotBlank(text: string, c: Rules)
    requires Pieces(text, c.tags).spans != []
    ensures !Blank(Join(Pieces(text, c.tags).spans, GAP))
  {
    PiecesShape(text, c.tags);
    SpanStart(Pieces(text, c.tags).spans[0], c.tags);
    JoinStart(Pieces(text, c.tags).spans, GAP);
  }

  lemma SpanStart(s: string, t: Tags)
    requires IsSpan(s, t)
    ensures s != "" && s[0] == t.open[0]
  {
    assert s[0..0 + |t.open|][0] == s[0];
  }

  lemma JoinStart(spans: seq<string>, sep: string)
    requires spans != [] && spans[0] != ""
    ensures Join(spans, sep) != "" && Join(spans, sep)[0] == spans[0][0]
  {
  }

  // ---------- where the fingerprint goes ----------

  predicate LastUser(ms: seq<Json>, target: Option<nat>) {
    match target
    case None => forall i | 0 <= i < |ms| :: Role(ms[i]) != "user"
    case Some(t) => t < |ms| && Role(ms[t]) == "user" && ms[t].Obj? && forall i | t < i < |ms| :: Role(ms[i]) != "user"
  }

  /** The target is the last surviving user message; there is none exactly when no user message survives. */
  lemma {:induction false} TargetIsLastUser(ms: seq<Json>, n: nat, c: Rules)
    requires n <= |ms|
    ensures LastUser(PartitionFirst(ms, n, c).surviving, PartitionFirst(ms, n, c).target)
  {
    if n > 0 {
      TargetIsLastUser(ms, n - 1, c);
      OnwardTarget(PartitionFirst(ms, n - 1, c), ms[n - 1], n == |ms|, c);
    }
  }

  lemma OnwardTarget(p: Partitioned, m: Json, newest: bool, c: Rules)
    requires LastUser(p.surviving, p.target)
    ensures LastUser(Onward(p, m, newest, c).surviving, Onward(p, m, newest, c).target)
  {
    RoleKept(m, newest, c);
    LastUserGrows(p.surviving, p.target, SplitMessage(m, newest, c).kept, Role(m));
  }

  lemma LastUserGrows(ms: seq<Json>, target: Option<nat>, kept: seq<Json>, role: string)
    requires LastUser(ms, target) && |kept| <= 1
    requires kept != [] ==> Role(kept[0]) == role && (role == "user" ==> kept[0].Obj?)
    ensures LastUser(ms + kept, if role == "user" && kept != [] then Some(|ms|) else target)
  {
  }

  lemma RoleKept(m: Json, newest: bool, c: Rules)
    ensures var kept := SplitMessage(m, newest, c).kept;
      |kept| <= 1 && (kept != [] ==> Role(kept[0]) == Role(m) && (Role(m) != "system" ==> kept[0].Obj?))
  {
  }

  predicate PlainContent(m: Json) { Content(m).Str? || Content(m).Arr? || Content(m).Null? }

  /**
   * The fingerprint changes one message, the target, or adds one at the end; all non-text survives
   * it exactly when the content of the target has one of the three documented shapes.
   */
  lemma PayloadKeeps(ms: seq<Json>, c: Rules, block: string, render: Json -> string)
    ensures var p := PartitionFirst(ms, |ms|, c);
      && LastUser(p.surviving, p.target)
      && var out := PayloadMessages(p, block, render);
      && |out| >= |p.surviving|
      && (forall i | 0 <= i < |p.surviving| && p.target != Some(i) :: out[i] == p.surviving[i])
      && (AllUnits(out) == AllUnits(p.surviving) <==> p.target.None? || PlainContent(p.surviving[p.target.value]))
  {
    TargetIsLastUser(ms, |ms|, c);
    MessagesKeep(PartitionFirst(ms, |ms|, c), block, render);
  }

  /** `x` is `front`, two line breaks, and `back`. */
  predicate Joins(x: string, front: string, back: string) {
    && |x| == |front| + 2 + |back| && x[..|front|] == front && x[|front| + 2..] == back
    && x[|front|] == '\n' && x[|front| + 1] == '\n'
  }

  /** `v` has these two fields and no other. */
  predicate OnlyFields(v: Json, k1: string, s1: string, k2: string, s2: string) {
    v.Obj? && v.m.Keys == {k1, k2} && GetStr(v, k1) == Some(s1) && GetStr(v, k2) == Some(s2)
  }

  /** `after` is the content `before` with the block in front: nothing of it lost, moved or changed. */
  predicate InFront(before: Json, after: Json, block: string, render: Json -> string) {
    match before
    case Str(s) => after.Str? && Joins(after.s, block, s)
    case Arr(items) =>
      && after.Arr? && |after.items| == |items| + 1 && after.items[1..] == items
      && GetStr(after.items[0], "text").Some? && Joins(GetStr(after.items[0], "text").value, block, "")
      && OnlyFields(after.items[0], "type", "text", "text", GetStr(after.items[0], "text").value)
    case Null => after == Str(block)
    case other => after.Str? && Joins(after.s, block, render(other))
  }

  /**
   * What the last surviving user message becomes: the same message, role and every other field
   * included, with the block in front of its whole old content. Without one, a user turn with the
   * block alone is added at the end exactly if a text was extracted.
   */
  lemma PayloadTarget(ms: seq<Json>, c: Rules, block: string, render: Json -> string)
    ensures var p := PartitionFirst(ms, |ms|, c);
      && LastUser(p.surviving, p.target)
      && var out := PayloadMessages(p, block, render);
      match p.target
      case Some(t) =>
        && |out| == |p.surviving| && out[t].Obj? && Role(out[t]) == "user"
        && (forall k | k != "content" :: Get(out[t], k) == Get(p.surviving[t], k))
        && InFront(Content(p.surviving[t]), Content(out[t]), block, render)
      case None =>
        if p.heavy == [] then out == p.surviving
        else (|out| == |p.surviving| + 1 && out[..|p.surviving|] == p.surviving
              && OnlyFields(out[|p.surviving|], "role", "user", "content", block))
  {
    TargetIsLastUser(ms, |ms|, c);
    var p := PartitionFirst(ms, |ms|, c);
    if p.target.Some? { PrependedInFront(p.surviving[p.target.value], block, render); }
  }

  lemma PrependedInFront(m: Json, block: string, render: Json -> string)
    requires m.Obj?
    ensures var after := Prepended(m, block, render);
      && after.Obj? && InFront(Content(m), Content(after), block, render)
      && forall k | k != "content" :: Get(after, k) == Get(m, k)
  {
    match Content(m)
    case Str(s) => Glued(block, s);
    case Arr(items) =>
      Glued(block, "");
      assert block + GAP + "" == block + GAP;
    case Null =>
    case other => Glued(block, render(other));
  }

  lemma Glued(front: string, back: string)
    ensures Joins(front + GAP + back, front, back)
  {
  }

  lemma MessagesKeep(p: Partitioned, block: string, render: Json -> string)
    requires LastUser(p.surviving, p.target)
    ensures var out := PayloadMessages(p, block, render);
      && |out| >= |p.surviving|
      && (forall i | 0 <= i < |p.surviving| && p.target != Some(i) :: out[i] == p.surviving[i])
      && (AllUnits(out) == AllUnits(p.surviving) <==> p.target.None? || PlainContent(p.surviving[p.target.value]))
  {
    match p.target
    case Some(t) => TargetUnits(p.surviving, t, block, render);
    case None =>
      if p.heavy != [] { FlatSnoc(p.surviving, Obj(map["role" := Str("user"), "content" := Str(block)]), Units); }
  }

  lemma TargetUnits(ms: seq<Json>, t: nat, block: string, render: Json -> string)
    requires t < |ms| && ms[t].Obj? && Role(ms[t]) == "user"
    ensures AllUnits(ms[t := Prepended(ms[t], block, render)]) == AllUnits(ms) <==> PlainContent(ms[t])
  {
    PrependedUnits(ms[t], block, render);
    FlatUpdate(ms, t, Prepended(ms[t], block, render), Units);
  }

  lemma PrependedUnits(m: Json, block: string, render: Json -> string)
    requires m.Obj? && Role(m) == "user"
    ensures PlainContent(m) ==> Units(Prepended(m, block, render)) == Units(m)
    ensures !PlainContent(m) ==> Units(Prepended(m, block, render)) == [] && |Units(m)| == 1
  {
    UnitsWithContent(m, Content(Prepended(m, block, render)));
    if Content(m).Arr? { AddedText(Role(m), block, Content(m).items); }
  }

  lemma AddedText(role: string, block: string, items: seq<Json>)
    ensures Parts(role, [Obj(map["type" := Str("text"), "text" := Str(block + GAP)])] + items) == Parts(role, items)
  {
    var added := Obj(map["type" := Str("text"), "text" := Str(block + GAP)]);
    FlatConcat([added], items, SolidOf(role));
    FlatOne(added, SolidOf(role));
  }

  // ---------- with the tags and the mark of the source ----------

  /**
   * All of it for the rules in force: whatever the threshold and the token counter, everything but
   * text survives in order, exactly the heavy texts are taken, and the fingerprint goes to the last
   * surviving user message.
   */
  lemma PartitionLosesNothing(ms: seq<Json>, threshold: nat, count: string -> nat)
    ensures var c := AxiomRules(threshold, count); var p := PartitionFirst(ms, |ms|, c);
      && Survive(AllUnits(ms), AllUnits(p.surviving), c)
      && HasTaken(p, AllTexts(ms, |ms|), c)
      && LastUser(p.surviving, p.target)
  {
    var c := AxiomRules(threshold, count);
    AllSurvive(ms, |ms|, c);
    assert ms[..|ms|] == ms;
    HeavyIsAllHeavyText(ms, |ms|, c);
    TargetIsLastUser(ms, |ms|, c);
  }
}
