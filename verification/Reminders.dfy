/**
 * Carving `<system-reminder>` spans out of a text: the loop, what it computes, and that gaps and
 * spans woven together are the text again.
 */
module Reminders {
  import opened Common
  import opened Sequences

  datatype TagPair = TagPair(open: string, close: string)

  type Tags = t: TagPair | 0 < |t.open| <= |t.close| witness TagPair("<", ">")

  const REMINDER: Tags := TagPair("<system-reminder>", "</system-reminder>")

  /** The spans in order, and the text before, between and after them. */
  datatype Woven = Woven(gaps: seq<string>, spans: seq<string>)

  predicate OccursAt(s: string, p: string, i: nat) { i + |p| <= |s| && s[i..i + |p|] == p }

  predicate Occurs(s: string, p: string) { exists i | 0 <= i <= |s| :: OccursAt(s, p, i) }

  /** The first occurrence. */
  function Find(s: string, p: string): (r: Option<nat>)
    ensures r.Some? ==> OccursAt(s, p, r.value) && forall i | 0 <= i < r.value :: !OccursAt(s, p, i)
    ensures r.None? ==> !Occurs(s, p)
  {
    FindFrom(s, p, 0)
  }

  function FindFrom(s: string, p: string, k: nat): (r: Option<nat>)
    requires k <= |s|
    ensures r.Some? ==> k <= r.value && OccursAt(s, p, r.value) && forall i | k <= i < r.value :: !OccursAt(s, p, i)
    ensures r.None? ==> forall i | k <= i <= |s| :: !OccursAt(s, p, i)
    decreases |s| - k
  {
    if OccursAt(s, p, k) then Some(k) else if k == |s| then None else FindFrom(s, p, k + 1)
  }

  /** Where the next span begins and ends, if there is one. */
  function NextSpan(text: string, t: Tags): (r: Option<(nat, nat)>)
    ensures r.Some? ==> r.value.0 < r.value.1 <= |text|
  {
    match Find(text, t.open)
    case None => None
    case Some(start) => Some((start, SpanEnd(text, t, start)))
  }

  /** Behind the closing tag, or the end of the text when there is none. */
  function SpanEnd(text: string, t: Tags, start: nat): (j: nat)
    requires start < |text|
    ensures start < j <= |text|
  {
    match Find(text[start..], t.close)
    case None => |text|
    case Some(e) => start + e + |t.close|
  }

  function Pieces(text: string, t: Tags): (w: Woven)
    ensures |w.gaps| == |w.spans| + 1
    decreases |text|
  {
    if NextSpan(text, t).None? then Woven([text], [])
    else
      var (i, j) := NextSpan(text, t).value;
      var rest := Pieces(text[j..], t);
      Woven([text[..i]] + rest.gaps, [text[i..j]] + rest.spans)
  }

  function Concat(parts: seq<string>): string {
    if parts == [] then "" else parts[0] + Concat(parts[1..])
  }

  function Join(parts: seq<string>, sep: string): string {
    if parts == [] then "" else if |parts| == 1 then parts[0] else parts[0] + sep + Join(parts[1..], sep)
  }

  function Weave(gaps: seq<string>, spans: seq<string>): string
    requires |gaps| == |spans| + 1
  {
    if spans == [] then gaps[0] else gaps[0] + spans[0] + Weave(gaps[1..], spans[1..])
  }

  function Remainder(text: string, t: Tags): string { Concat(Pieces(text, t).gaps) }

  /** Gaps and spans that make up the text: the extracted remainder is `Concat(gaps)`. */
  ghost predicate Divides(text: string, remainder: string, spans: seq<string>) {
    exists gaps: seq<string> :: |gaps| == |spans| + 1 && Weave(gaps, spans) == text && Concat(gaps) == remainder
  }

  lemma WeaveCons(g: string, r: string, gaps: seq<string>, spans: seq<string>)
    requires |gaps| == |spans| + 1
    ensures Weave([g] + gaps, [r] + spans) == g + r + Weave(gaps, spans)
    ensures Concat([g] + gaps) == g + Concat(gaps)
  {
    assert ([g] + gaps)[1..] == gaps && ([r] + spans)[1..] == spans;
  }

  lemma ConcatOne(g: string)
    ensures Concat([g]) == g
  {
    assert Concat([g]) == g + Concat([]);
  }

  lemma Slices(s: string, i: nat, j: nat)
    requires i <= j <= |s|
    ensures s[i..][..j - i] == s[i..j] && s[i..][j - i..] == s[j..]
    ensures s == s[..i] + s[i..j] + s[j..]
  {
  }

  lemma NoTagInNothing(t: Tags)
    ensures Pieces("", t) == Woven([""], [])
  {
  }

  /** `split_system_reminders`: the remainder and the spans. */
  method SplitReminders(text: string, t: Tags) returns (remainder: string, spans: seq<string>)
    ensures remainder == Remainder(text, t) && spans == Pieces(text, t).spans
  {
    remainder, spans := "", [];
    ConcatOne(text);
    if Find(text, t.open).None? {
      return text, [];
    }
    var rest := text;
    while Find(rest, t.open).Some?
      invariant spans + Pieces(rest, t).spans == Pieces(text, t).spans
      invariant remainder + Remainder(rest, t) == Remainder(text, t)
      decreases |rest|
    {
      PiecesCons(rest, t);
      var gap, span, left := CutNext(rest, t);
      Assoc(remainder, gap, Remainder(left, t));
      Assoc(spans, [span], Pieces(left, t).spans);
      remainder, spans, rest := remainder + gap, spans + [span], left;
    }
    ConcatOne(rest);
    remainder := remainder + rest;
  }

  lemma PiecesCons(text: string, t: Tags)
    requires NextSpan(text, t).Some?
    ensures var (i, j) := NextSpan(text, t).value;
      Pieces(text, t).spans == [text[i..j]] + Pieces(text[j..], t).spans && Remainder(text, t) == text[..i] + Remainder(text[j..], t)
  {
    var (i, j) := NextSpan(text, t).value;
    WeaveCons(text[..i], text[i..j], Pieces(text[j..], t).gaps, Pieces(text[j..], t).spans);
  }

  lemma Tail(s: string, i: nat)
    requires i <= |s|
    ensures s[i..|s|] == s[i..] && s[|s|..] == ""
  {
  }

  /** Cut the next gap and span off. */
  method CutNext(rest: string, t: Tags) returns (gap: string, span: string, left: string)
    requires Find(rest, t.open).Some?
    ensures NextSpan(rest, t).Some?
    ensures var (i, j) := NextSpan(rest, t).value; gap == rest[..i] && span == rest[i..j] && left == rest[j..]
  {
    var start := Find(rest, t.open).value;
    gap := rest[..start];
    span, left := CutSpan(rest, start, t);
  }

  method CutSpan(rest: string, start: nat, t: Tags) returns (span: string, left: string)
    requires start < |rest|
    ensures span == rest[start..SpanEnd(rest, t, start)] && left == rest[SpanEnd(rest, t, start)..]
  {
    var after := rest[start..];
    match Find(after, t.close) {
      case Some(e) =>
        span, left := after[..e + |t.close|], after[e + |t.close|..];
        Slices(rest, start, start + e + |t.close|);
      case None =>
        span, left := after, "";
        Tail(rest, start);
    }
  }

  /** Nothing is lost, doubled or moved: weaving gaps and spans gives the text back. */
  lemma {:induction false} PiecesWeave(text: string, t: Tags)
    ensures Weave(Pieces(text, t).gaps, Pieces(text, t).spans) == text
    decreases |text|
  {
    if NextSpan(text, t).Some? {
      var (i, j) := NextSpan(text, t).value;
      PiecesWeave(text[j..], t);
      WeaveCons(text[..i], text[i..j], Pieces(text[j..], t).gaps, Pieces(text[j..], t).spans);
      Slices(text, i, j);
    }
  }

  lemma PiecesDivide(text: string, t: Tags)
    ensures Divides(text, Remainder(text, t), Pieces(text, t).spans)
  {
    PiecesWeave(text, t);
  }

  /** A span begins with the opening tag and ends at the first closing tag, if there is one. */
  predicate IsSpan(s: string, t: Tags) {
    && OccursAt(s, t.open, 0)
    && (Occurs(s, t.close) ==> OccursAt(s, t.close, |s| - |t.close|) && forall i | 0 <= i < |s| - |t.close| :: !OccursAt(s, t.close, i))
  }

  /** Every span is one; only the last may be unclosed, and then nothing follows it; no gap holds an opening tag. */
  predicate WellCut(w: Woven, t: Tags)
    decreases |w.spans|
  {
    && |w.gaps| == |w.spans| + 1
    && !Occurs(w.gaps[0], t.open)
    && (w.spans != [] ==>
          && IsSpan(w.spans[0], t)
          && (Occurs(w.spans[0], t.close) || (|w.spans| == 1 && w.gaps[1] == ""))
          && WellCut(Woven(w.gaps[1..], w.spans[1..]), t))
  }

  lemma {:induction false} PiecesShape(text: string, t: Tags)
    ensures WellCut(Pieces(text, t), t)
    decreases |text|
  {
    if NextSpan(text, t).Some? {
      var (i, j) := NextSpan(text, t).value;
      var rest := Pieces(text[j..], t);
      PiecesShape(text[j..], t);
      NextIsSpan(text, t);
      if j == |text| { NoTagInNothing(t); }
      Unconsed(text[..i], rest.gaps, text[i..j], rest.spans);
    }
  }

  lemma Unconsed(g: string, gaps: seq<string>, r: string, spans: seq<string>)
    ensures ([g] + gaps)[1..] == gaps && ([r] + spans)[1..] == spans
  {
  }

  /** Between `i` and `j` stands the first span, closed unless the text ends with it. */
  predicate SpanAt(text: string, t: Tags, i: nat, j: nat)
    requires i <= j <= |text|
  {
    !Occurs(text[..i], t.open) && IsSpan(text[i..j], t) && (Occurs(text[i..j], t.close) || j == |text|)
  }

  lemma EndIsSpan(text: string, t: Tags, i: nat)
    requires i < |text| && OccursAt(text, t.open, i)
    ensures var span := text[i..SpanEnd(text, t, i)];
      IsSpan(span, t) && (Occurs(span, t.close) || SpanEnd(text, t, i) == |text|)
  {
    OccursInSuffix(text, t.open, i);
    SpanText(text, t, i);
    FirstSpanIs(text[i..], t);
  }

  /** The span at the start of a text that starts with an opening tag. */
  function FirstSpan(after: string, t: Tags): string {
    match Find(after, t.close)
    case None => after
    case Some(e) => after[..e + |t.close|]
  }

  lemma SpanText(text: string, t: Tags, i: nat)
    requires i < |text|
    ensures text[i..SpanEnd(text, t, i)] == FirstSpan(text[i..], t)
  {
    Slices(text, i, SpanEnd(text, t, i));
    Tail(text, i);
  }

  lemma FirstSpanIs(after: string, t: Tags)
    requires OccursAt(after, t.open, 0)
    ensures IsSpan(FirstSpan(after, t), t) && (Occurs(FirstSpan(after, t), t.close) || FirstSpan(after, t) == after)
  {
    if Find(after, t.close).Some? { SpanCut(after, t, Find(after, t.close).value); }
  }

  lemma NextIsSpan(text: string, t: Tags)
    requires NextSpan(text, t).Some?
    ensures SpanAt(text, t, NextSpan(text, t).value.0, NextSpan(text, t).value.1)
  {
    var i := Find(text, t.open).value;
    GapClean(text, t.open, i);
    EndIsSpan(text, t, i);
  }

  lemma OccursInSuffix(s: string, p: string, i: nat)
    requires OccursAt(s, p, i)
    ensures OccursAt(s[i..], p, 0)
  {
    assert s[i..][0..0 + |p|] == s[i..i + |p|];
  }

  lemma OccursInPrefix(s: string, p: string, n: nat, i: nat)
    requires i + |p| <= n <= |s|
    ensures OccursAt(s[..n], p, i) == OccursAt(s, p, i)
  {
    assert s[..n][i..i + |p|] == s[i..i + |p|];
  }

  lemma GapClean(text: string, open: string, start: nat)
    requires start <= |text| && open != "" && forall i | 0 <= i < start :: !OccursAt(text, open, i)
    ensures !Occurs(text[..start], open)
  {
    forall i | 0 <= i <= start
      ensures !OccursAt(text[..start], open, i)
    {
      if i + |open| <= start { OccursInPrefix(text, open, start, i); }
    }
  }

  lemma SpanCut(after: string, t: Tags, e: nat)
    requires OccursAt(after, t.open, 0) && OccursAt(after, t.close, e) && forall i | 0 <= i < e :: !OccursAt(after, t.close, i)
    ensures IsSpan(after[..e + |t.close|], t) && Occurs(after[..e + |t.close|], t.close)
  {
    var n := e + |t.close|;
    OccursInPrefix(after, t.open, n, 0);
    OccursInPrefix(after, t.close, n, e);
    forall i | 0 <= i < e
      ensures !OccursAt(after[..n], t.close, i)
    {
      OccursInPrefix(after, t.close, n, i);
    }
  }
}
