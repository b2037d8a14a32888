/**
 * The one-line stub that stands for a stored page: printer, parser, and exactly when the
 * parser gives back what was printed. The session id is a JSON string (section 7 of RFC 8259).
 */
module Stub {
  import opened Common
  import opened Decimals

  datatype StubInfo = StubInfo(pageId: string, sessionId: Option<string>, origTokens: nat, kind: string, snippet: string)

  const OPENING := "[AXIOM-PAGE "
  const MARKER := "session=\""
  const USIZE_LIMIT: nat := 0x1_0000_0000_0000_0000

  // ---------- characters and splitting ----------

  predicate IsHexDigit(c: char) {
    '0' <= c <= '9' || 'a' <= c <= 'f' || 'A' <= c <= 'F'
  }

  function TrimStart(s: string): string {
    if s != [] && IsSpace(s[0]) then TrimStart(s[1..]) else s
  }

  function TrimEnd(s: string): string {
    if s != [] && IsSpace(s[|s| - 1]) then TrimEnd(s[..|s| - 1]) else s
  }

  function WordLen(s: string): (n: nat)
    ensures n <= |s|
  {
    if s == [] || IsSpace(s[0]) then 0 else 1 + WordLen(s[1..])
  }

  lemma {:induction false} TrimStartShrinks(s: string)
    ensures |TrimStart(s)| <= |s| && (TrimStart(s) != [] ==> !IsSpace(TrimStart(s)[0]))
  {
    if s != [] && IsSpace(s[0]) {
      TrimStartShrinks(s[1..]);
    }
  }

  function SplitWhitespace(s: string): seq<string>
    decreases |s|
  {
    var t := TrimStart(s);
    TrimStartShrinks(s);
    if t == [] then [] else [t[..WordLen(t)]] + SplitWhitespace(t[WordLen(t)..])
  }

  function IndexOf(s: string, c: char): (i: nat)
    ensures i <= |s| && (i < |s| ==> s[i] == c) && forall k :: 0 <= k < i ==> s[k] != c
  {
    if s == [] || s[0] == c then 0 else 1 + IndexOf(s[1..], c)
  }

  /** Where `pat` first occurs in `s` at or after `i`. */
  function FindFrom(s: string, pat: string, i: nat): Option<nat>
    requires i <= |s|
    decreases |s| - i
  {
    if i + |pat| > |s| then None
    else if s[i..i + |pat|] == pat then Some(i)
    else if i == |s| then None
    else FindFrom(s, pat, i + 1)
  }

  // ---------- numbers ----------

  /** Parsing as a 64-bit `usize`: an optional plus sign, at least one digit, no overflow. */
  function ParseUsize(s: string): Option<nat> {
    var digits := if s != [] && s[0] == '+' then s[1..] else s;
    if digits != [] && AllDigits(digits) && DigitsValue(digits) < USIZE_LIMIT then Some(DigitsValue(digits)) else None
  }

  // ---------- JSON strings ----------

  function HexChar(d: nat): char
    requires d < 16
  {
    if d < 10 then ('0' as int + d) as char else ('a' as int + d - 10) as char
  }

  function HexValue(c: char): Option<nat> {
    if '0' <= c <= '9' then Some(c as int - '0' as int)
    else if 'a' <= c <= 'f' then Some(c as int - 'a' as int + 10)
    else if 'A' <= c <= 'F' then Some(c as int - 'A' as int + 10)
    else None
  }

  function Hex4(s: string): Option<nat> {
    if |s| < 4 then None
    else
      var (a, b, c, d) := (HexValue(s[0]), HexValue(s[1]), HexValue(s[2]), HexValue(s[3]));
      if a.None? || b.None? || c.None? || d.None? then None
      else Some(4096 * a.value + 256 * b.value + 16 * c.value + d.value)
  }

  predicate Plain(c: char) { c != '\"' && c != '\\' && c as int >= 0x20 }

  function EscapeChar(c: char): string { if Plain(c) then [c] else EscapeSequence(c) }

  function EscapeSequence(c: char): string
    requires !Plain(c)
  {
    var n := c as int;
    if c == '\"' then "\\\""
    else if c == '\\' then "\\\\"
    else if n == 8 then "\\b"
    else if n == 9 then "\\t"
    else if n == 10 then "\\n"
    else if n == 12 then "\\f"
    else if n == 13 then "\\r"
    else "\\u00" + [HexChar(n / 16), HexChar(n % 16)]
  }

  function Escape(s: string): string {
    if s == [] then [] else EscapeChar(s[0]) + Escape(s[1..])
  }

  function JsonString(s: string): string {
    "\"" + Escape(s) + "\""
  }

  /** The characters between the quotes of a JSON string, decoded; `None` if they are not valid. */
  function Unescape(s: string): Option<string>
    decreases |s|
  {
    if s == [] then Some([])
    else if s[0] == '\\' then
      if |s| < 2 then None
      else match s[1]
        case '\"' => Push('\"', Unescape(s[2..]))
        case '\\' => Push('\\', Unescape(s[2..]))
        case '/' => Push('/', Unescape(s[2..]))
        case 'b' => Push(8 as char, Unescape(s[2..]))
        case 'f' => Push(12 as char, Unescape(s[2..]))
        case 'n' => Push('\n', Unescape(s[2..]))
        case 'r' => Push('\r', Unescape(s[2..]))
        case 't' => Push('\t', Unescape(s[2..]))
        case 'u' => UnescapeUnit(s)
        case _ => None
    else if s[0] == '\"' || (s[0] as int) < 0x20 then None
    else Push(s[0], Unescape(s[1..]))
  }

  /** `\uXXXX`, where a high surrogate must be followed by a low one. */
  function UnescapeUnit(s: string): Option<string>
    requires |s| >= 2
    decreases |s|, 0
  {
    var u := Hex4(s[2..]);
    if u.None? || 0xDC00 <= u.value < 0xE000 then None
    else if 0xD800 <= u.value < 0xDC00 then
      if |s| < 12 || s[6..8] != "\\u" then None
      else
        var l := Hex4(s[8..]);
        if l.None? || !(0xDC00 <= l.value < 0xE000) then None
        else Push((0x10000 + (u.value - 0xD800) * 0x400 + (l.value - 0xDC00)) as char, Unescape(s[12..]))
    else if u.value < 0xD800 || 0xE000 <= u.value < 0x10000 then Push(u.value as char, Unescape(s[6..]))
    else None
  }

  function Push(c: char, rest: Option<string>): Option<string> {
    if rest.None? then None else Some([c] + rest.value)
  }

  // ---------- printer ----------

  function Flatten(s: string): string {
    seq(|s|, i requires 0 <= i < |s| => if s[i] == '\n' || s[i] == '\r' then ' ' else s[i])
  }

  function Snippet(text: string): string {
    Flatten(if |text| <= 120 then text else text[..120])
  }

  function Header(pageId: string, sessionId: string, origTokens: nat, kind: string): string {
    pageId + " session=" + JsonString(sessionId) + " " + Decimal(origTokens) + "tok " + kind
  }

  function BuildStub(pageId: string, sessionId: string, origTokens: nat, kind: string, text: string): string {
    OPENING + Header(pageId, sessionId, origTokens, kind) + "] " + Snippet(text) + "..."
  }

  // ---------- parser ----------

  /** The closing quote at or after `i`, skipping a character after each backslash. */
  function CloseQuote(h: string, i: nat): Option<nat>
    decreases |h| - i
  {
    if i >= |h| then None
    else if h[i] == '\\' then CloseQuote(h, i + 2)
    else if h[i] == '\"' then Some(i)
    else CloseQuote(h, i + 1)
  }

  lemma {:induction false} CloseQuoteBounds(h: string, i: nat)
    ensures CloseQuote(h, i).Some? ==> i <= CloseQuote(h, i).value < |h|
    decreases |h| - i
  {
    if i < |h| && h[i] == '\\' {
      CloseQuoteBounds(h, i + 2);
    } else if i < |h| && h[i] != '\"' {
      CloseQuoteBounds(h, i + 1);
    }
  }

  lemma {:induction false} FindFromBounds(s: string, pat: string, i: nat)
    requires i <= |s|
    ensures FindFrom(s, pat, i).Some? ==> i <= FindFrom(s, pat, i).value && FindFrom(s, pat, i).value + |pat| <= |s|
    decreases |s| - i
  {
    if i + |pat| <= |s| && s[i..i + |pat|] != pat && i < |s| {
      FindFromBounds(s, pat, i + 1);
    }
  }

  /** The header without its session attribute, and the decoded attribute if there is a well-formed one. */
  function SplitAttr(h: string): (string, Option<string>) {
    var start := FindFrom(h, MARKER, 0);
    FindFromBounds(h, MARKER, 0);
    SplitAtMarker(h, start)
  }

  function SplitAtMarker(h: string, start: Option<nat>): (string, Option<string>)
    requires start.Some? ==> start.value + |MARKER| <= |h|
  {
    if start.None? then (h, None) else SplitAtQuote(h, start.value, start.value + |MARKER|)
  }

  function SplitAtQuote(h: string, start: nat, v: nat): (string, Option<string>)
    requires start <= v <= |h|
  {
    var end := CloseQuote(h, v);
    CloseQuoteBounds(h, v);
    if end.None? then (h, None) else SplitDecoded(h, start, end.value, Unescape(h[v..end.value]))
  }

  function SplitDecoded(h: string, start: nat, end: nat, session: Option<string>): (string, Option<string>)
    requires start <= end < |h|
  {
    if session.None? then (h, None) else (TrimEnd(h[..start]) + " " + TrimStart(h[end + 1..]), session)
  }

  /** The same as an index loop, as the program does it. */
  method SplitSessionAttr(h: string) returns (cleaned: string, session: Option<string>)
    ensures (cleaned, session) == SplitAttr(h)
  {
    var start := FindFrom(h, MARKER, 0);
    FindFromBounds(h, MARKER, 0);
    if start.None? { return h, None; }
    var v := start.value + |MARKER|;
    var i := v;
    var end: Option<nat> := None;
    while i < |h|
      invariant v <= i && end.None?
      invariant CloseQuote(h, i) == CloseQuote(h, v)
      decreases |h| - i
    {
      if h[i] == '\\' { i := i + 2; }
      else if h[i] == '\"' { end := Some(i); break; }
      else { i := i + 1; }
    }
    CloseQuoteBounds(h, v);
    if end.None? { return h, None; }
    session := Unescape(h[v..end.value]);
    if session.None? { return h, None; }
    cleaned := TrimEnd(h[..start.value]);
    cleaned := cleaned + " ";
    cleaned := cleaned + TrimStart(h[end.value + 1..]);
  }

  function StripTok(s: string): Option<string> {
    if |s| >= 3 && s[|s| - 3..] == "tok" then Some(s[..|s| - 3]) else None
  }

  function ParseTail(tail: string): string {
    var t := if tail != [] && tail[0] == ' ' then tail[1..] else tail;
    if |t| >= 3 && t[|t| - 3..] == "..." then t[..|t| - 3] else tail
  }

  function ParseHeader(header: string, tail: string): Option<StubInfo> {
    var (cleaned, session) := SplitAttr(header);
    var parts := SplitWhitespace(cleaned);
    if |parts| < 2 then None
    else
      var tokens := StripTok(parts[1]);
      if tokens.None? || ParseUsize(tokens.value).None? || |parts| < 3 then None
      else Some(StubInfo(parts[0], session, ParseUsize(tokens.value).value, parts[2], ParseTail(tail)))
  }

  function ParseStub(line: string): Option<StubInfo> {
    var line := TrimEnd(TrimStart(line));
    if |line| < |OPENING| || line[..|OPENING|] != OPENING then None
    else
      var rest := line[|OPENING|..];
      var i := IndexOf(rest, ']');
      if i == |rest| then None else ParseHeader(rest[..i], rest[i + 1..])
  }

  // ---------- proofs: JSON strings ----------

  lemma {:induction false} EscapeAppend(a: string, b: string)
    ensures Escape(a + b) == Escape(a) + Escape(b)
  {
    if a == [] {
      assert a + b == b;
    } else {
      assert (a + b)[1..] == a[1..] + b;
      EscapeAppend(a[1..], b);
    }
  }

  /** Decoding undoes encoding, for every string. */
  lemma {:induction false} UnescapeEscape(s: string)
    ensures Unescape(Escape(s)) == Some(s)
  {
    if s != [] {
      UnescapeEscape(s[1..]);
      UnescapeChar(s[0], Escape(s[1..]));
      assert s == [s[0]] + s[1..];
    }
  }

  lemma UnescapeChar(c: char, r: string)
    ensures Unescape(EscapeChar(c) + r) == Push(c, Unescape(r))
  {
    var e := EscapeChar(c);
    assert (e + r)[|e|..] == r;
    if |e| == 6 {
      UnescapeControl(c, r);
    } else if |e| == 2 {
      assert (e + r)[0] == '\\' && (e + r)[1] == e[1];
    } else {
      assert (e + r)[0] == c;
    }
  }

  lemma UnescapeControl(c: char, r: string)
    requires (c as int) < 0x20 && |EscapeChar(c)| == 6
    ensures Unescape(EscapeChar(c) + r) == Push(c, Unescape(r))
  {
    var e := EscapeChar(c) + r;
    var n := c as int;
    assert EscapeChar(c) == "\\u00" + [HexChar(n / 16), HexChar(n % 16)];
    assert e[2..][0] == '0' && e[2..][1] == '0' && e[2..][2] == HexChar(n / 16) && e[2..][3] == HexChar(n % 16);
    assert Hex4(e[2..]) == Some(n);
    assert e[6..] == r;
  }

  /** The escape scan stops at the true closing quote and nowhere earlier. */
  lemma {:induction false} ScanFindsClosingQuote(h: string, i: nat, s: string)
    requires i + |Escape(s)| < |h| && h[i..i + |Escape(s)|] == Escape(s) && h[i + |Escape(s)|] == '\"'
    ensures CloseQuote(h, i) == Some(i + |Escape(s)|)
    decreases |s|
  {
    if s != [] {
      var e, r := EscapeChar(s[0]), Escape(s[1..]);
      assert |Escape(s)| == |e| + |r|;
      ScanSkipsChar(h, i, s[0], r);
      ScanFindsClosingQuote(h, i + |e|, s[1..]);
    }
  }

  /** A scan that starts inside an encoded string which the header cuts off finds no quote. */
  lemma {:induction false} ScanFindsNothing(h: string, i: nat, s: string)
    requires i + |Escape(s)| == |h| && h[i..i + |Escape(s)|] == Escape(s)
    ensures CloseQuote(h, i) == None
    decreases |s|
  {
    if s != [] {
      var e, r := EscapeChar(s[0]), Escape(s[1..]);
      assert |Escape(s)| == |e| + |r|;
      ScanSkipsChar(h, i, s[0], r);
      ScanFindsNothing(h, i + |e|, s[1..]);
    }
  }

  lemma ScanSkipsChar(h: string, i: nat, c: char, r: string)
    requires i + |EscapeChar(c) + r| <= |h| && h[i..i + |EscapeChar(c) + r|] == EscapeChar(c) + r
    ensures CloseQuote(h, i) == CloseQuote(h, i + |EscapeChar(c)|)
    ensures h[i + |EscapeChar(c)|..i + |EscapeChar(c) + r|] == r
  {
    SliceParts(h, i, EscapeChar(c), r);
    ScanSkipsEscape(h, i, c);
  }

  lemma SliceParts(h: string, i: nat, a: string, b: string)
    requires i + |a + b| <= |h| && h[i..i + |a + b|] == a + b
    ensures h[i..i + |a|] == a && h[i + |a|..i + |a + b|] == b
  {
    var s := h[i..i + |a + b|];
    assert s[..|a|] == h[i..i + |a|] && s[|a|..] == h[i + |a|..i + |a + b|];
  }

  lemma ScanSkipsEscape(h: string, i: nat, c: char)
    requires i + |EscapeChar(c)| <= |h| && h[i..i + |EscapeChar(c)|] == EscapeChar(c)
    ensures CloseQuote(h, i) == CloseQuote(h, i + |EscapeChar(c)|)
  {
    var e := EscapeChar(c);
    assert forall k :: 0 <= k < |e| ==> h[i + k] == h[i..i + |e|][k] == e[k];
    if |e| == 6 {
      assert e[0] == '\\' && e[2] == '0' && e[3] == '0' && e[4] == HexChar(c as int / 16) && e[5] == HexChar(c as int % 16);
      assert CloseQuote(h, i) == CloseQuote(h, i + 2) == CloseQuote(h, i + 3) == CloseQuote(h, i + 4)
             == CloseQuote(h, i + 5) == CloseQuote(h, i + 6);
    }
  }

  lemma {:induction false} EscapeBrackets(s: string)
    ensures ']' in Escape(s) <==> ']' in s
  {
    if s != [] {
      EscapeBrackets(s[1..]);
      assert s == [s[0]] + s[1..];
      assert ']' in EscapeChar(s[0]) <==> s[0] == ']';
    }
  }

  // ---------- proofs: words and numbers ----------

  predicate IsWord(s: string) {
    s != [] && forall i | 0 <= i < |s| :: !IsSpace(s[i])
  }

  lemma {:induction false} WordLenOf(w: string, rest: string)
    requires forall i :: 0 <= i < |w| ==> !IsSpace(w[i])
    requires rest == [] || IsSpace(rest[0])
    ensures WordLen(w + rest) == |w|
  {
    if w == [] {
      assert w + rest == rest;
    } else {
      assert (w + rest)[1..] == w[1..] + rest;
      WordLenOf(w[1..], rest);
    }
  }

  lemma SplitFirstWord(w: string, rest: string)
    requires IsWord(w)
    ensures SplitWhitespace(w + " " + rest) == [w] + SplitWhitespace(rest)
    ensures SplitWhitespace(w) == [w]
  {
    WordLenOf(w, " " + rest);
    assert w + " " + rest == w + (" " + rest);
    assert (w + (" " + rest))[..|w|] == w && (w + (" " + rest))[|w|..] == " " + rest;
    assert TrimStart(" " + rest) == TrimStart((" " + rest)[1..]) == TrimStart(rest);
    WordLenOf(w, "");
    assert w + "" == w;
  }

  lemma TokensParse(n: nat)
    requires n < USIZE_LIMIT
    ensures IsWord(Decimal(n) + "tok") && StripTok(Decimal(n) + "tok") == Some(Decimal(n)) && ParseUsize(Decimal(n)) == Some(n)
  {
    DecimalParses(n);
    var d := Decimal(n);
    assert (d + "tok")[|d|..] == "tok" && (d + "tok")[..|d|] == d;
    assert d[0] != '+';
  }

  // ---------- proofs: the round trip ----------

  predicate HexId(s: string) {
    s != [] && forall i | 0 <= i < |s| :: IsHexDigit(s[i])
  }

  predicate PlainKind(s: string) {
    IsWord(s) && ']' !in s
  }

  lemma {:induction false} FindSkips(s: string, pat: string, i: nat, k: nat)
    requires i <= k && k + |pat| <= |s| && s[k..k + |pat|] == pat && |pat| > 0
    requires forall j :: i <= j < k ==> s[j] != pat[0]
    ensures FindFrom(s, pat, i) == Some(k)
    decreases k - i
  {
    if i < k {
      assert s[i..i + |pat|][0] == s[i];
      FindSkips(s, pat, i + 1, k);
    }
  }

  /** The marker is found right after a hex page id. */
  lemma MarkerFound(pid: string, rest: string)
    requires HexId(pid)
    ensures FindFrom(pid + " session=\"" + rest, MARKER, 0) == Some(|pid| + 1)
    ensures TrimEnd((pid + " session=\"" + rest)[..|pid| + 1]) == pid
  {
    var h := pid + " session=\"" + rest;
    assert h[|pid| + 1..|pid| + 1 + |MARKER|] == MARKER;
    FindSkips(h, MARKER, 0, |pid| + 1);
    assert h[..|pid| + 1] == pid + " ";
    assert (pid + " ")[..|pid|] == pid;
    assert !IsSpace(pid[|pid| - 1]);
  }

  lemma Slices(a: string, b: string, c: string)
    ensures (a + b + c)[..|a|] == a && (a + b + c)[|a|..|a| + |b|] == b && (a + b + c)[|a| + |b|..] == c
  {
  }

  lemma SplitsFound(h: string, start: nat)
    requires start + |MARKER| <= |h|
    ensures SplitAtMarker(h, Some(start)) == SplitAtQuote(h, start, start + |MARKER|)
  {
  }

  lemma SplitsQuoted(h: string, start: nat, v: nat, end: nat, session: string)
    requires start <= v <= end < |h| && CloseQuote(h, v) == Some(end) && Unescape(h[v..end]) == Some(session)
    ensures SplitAtQuote(h, start, v) == SplitDecoded(h, start, end, Some(session))
  {
  }

  /** The attribute is decoded from wherever a marker, an encoded string and a closing quote stand. */
  lemma AttrDecodes(h: string, sid: string, start: nat, end: nat)
    requires FindFrom(h, MARKER, 0) == Some(start)
    requires start + |MARKER| <= end < |h| && h[start + |MARKER|..end] == Escape(sid) && h[end] == '\"'
    ensures SplitAttr(h) == (TrimEnd(h[..start]) + " " + TrimStart(h[end + 1..]), Some(sid))
  {
    SplitsFound(h, start);
    QuoteSplits(h, start, start + |MARKER|, end, sid);
  }

  lemma QuoteSplits(h: string, start: nat, v: nat, end: nat, sid: string)
    requires start <= v <= end < |h| && h[v..end] == Escape(sid) && h[end] == '\"'
    ensures SplitAtQuote(h, start, v) == SplitDecoded(h, start, end, Some(sid))
  {
    QuoteCloses(h, v, end, sid);
    SplitsQuoted(h, start, v, end, sid);
  }

  lemma QuoteCloses(h: string, v: nat, end: nat, sid: string)
    requires v <= end < |h| && h[v..end] == Escape(sid) && h[end] == '\"'
    ensures CloseQuote(h, v) == Some(end) && Unescape(h[v..end]) == Some(sid)
  {
    ScanFindsClosingQuote(h, v, sid);
    UnescapeEscape(sid);
  }

  /** What a header that starts with a hex page id and the marker looks like to a scan. */
  lemma AttrPlaced(h: string, pid: string, e: string, back: string) returns (start: nat, end: nat)
    requires HexId(pid) && h == pid + " session=\"" + e + ("\" " + back)
    ensures FindFrom(h, MARKER, 0) == Some(start) && start + |MARKER| <= end < |h|
    ensures TrimEnd(h[..start]) == pid && h[start + |MARKER|..end] == e && h[end] == '\"' && h[end + 1..] == " " + back
  {
    assert h == pid + " session=\"" + (e + ("\" " + back));
    MarkerFound(pid, e + ("\" " + back));
    start := |pid| + 1;
    end := start + |MARKER| + |e|;
  }

  lemma HeaderSplits(pid: string, sid: string, n: nat, kind: string)
    requires HexId(pid) && PlainKind(kind) && n < USIZE_LIMIT
    ensures SplitAttr(Header(pid, sid, n, kind)) == (pid + " " + (Decimal(n) + "tok " + kind), Some(sid))
  {
    HeaderAround(pid, sid, n, kind);
    TrimBack(n, kind);
    SplitsAround(Header(pid, sid, n, kind), pid, sid, Decimal(n) + "tok " + kind);
  }

  lemma SplitsAround(h: string, pid: string, sid: string, back: string)
    requires HexId(pid) && h == pid + " session=\"" + Escape(sid) + ("\" " + back) && TrimStart(" " + back) == back
    ensures SplitAttr(h) == (pid + " " + back, Some(sid))
  {
    var start, end := AttrPlaced(h, pid, Escape(sid), back);
    AttrDecodes(h, sid, start, end);
  }

  lemma TrimBack(n: nat, kind: string)
    ensures TrimStart(" " + (Decimal(n) + "tok " + kind)) == Decimal(n) + "tok " + kind
  {
    var back := Decimal(n) + "tok " + kind;
    DecimalParses(n);
    assert back[0] == Decimal(n)[0];
    assert (" " + back)[1..] == back;
  }

  lemma ParseHeaderOf(pid: string, sid: string, n: nat, kind: string, tail: string)
    requires HexId(pid) && PlainKind(kind) && n < USIZE_LIMIT
    ensures ParseHeader(Header(pid, sid, n, kind), tail) == Some(StubInfo(pid, Some(sid), n, kind, ParseTail(tail)))
  {
    HeaderSplits(pid, sid, n, kind);
    var toks := Decimal(n) + "tok";
    assert Decimal(n) + "tok " + kind == toks + " " + kind;
    TokensParse(n);
    assert IsWord(pid);
    SplitFirstWord(pid, toks + " " + kind);
    SplitFirstWord(toks, kind);
    SplitFirstWord(kind, "");
  }

  lemma HeaderAround(pid: string, sid: string, n: nat, kind: string)
    ensures Header(pid, sid, n, kind) == pid + " session=\"" + Escape(sid) + ("\" " + (Decimal(n) + "tok " + kind))
  {
    Requote(pid, Escape(sid), Decimal(n), kind);
  }

  lemma Requote(p: string, e: string, d: string, k: string)
    ensures p + " session=" + ("\"" + e + "\"") + " " + d + "tok " + k == p + " session=\"" + e + ("\" " + (d + "tok " + k))
  {
    assert p + " session=" + ("\"" + e + "\"") == p + " session=\"" + e + "\"";
  }

  lemma Regroup(a: string, b: string, c: string, d: string, e: string)
    ensures a + (b + (c + d)) + e == a + b + c + (d + e)
  {
  }

  lemma InMiddle(c: char, a: string, b: string, d: string)
    requires c !in a && c !in d
    ensures c in a + b + d <==> c in b
  {
  }

  lemma FrontPlain(pid: string)
    requires HexId(pid)
    ensures ']' !in pid + " session=\""
  {
    InMiddle(']', pid, " session=\"", "");
    assert pid + " session=\"" + "" == pid + " session=\"";
  }

  lemma BackPlain(d: string, kind: string)
    requires AllDigits(d) && ']' !in kind
    ensures ']' !in "\" " + (d + "tok " + kind)
  {
    InMiddle(']', d, "tok ", kind);
    InMiddle(']', "\" ", d + "tok " + kind, "");
    assert "\" " + (d + "tok " + kind) + "" == "\" " + (d + "tok " + kind);
  }

  lemma HeaderBracket(pid: string, sid: string, n: nat, kind: string)
    requires HexId(pid) && PlainKind(kind)
    ensures ']' in Header(pid, sid, n, kind) <==> ']' in sid
  {
    EscapeBrackets(sid);
    DecimalParses(n);
    HeaderAround(pid, sid, n, kind);
    FrontPlain(pid);
    BackPlain(Decimal(n), kind);
    InMiddle(']', pid + " session=\"", Escape(sid), "\" " + (Decimal(n) + "tok " + kind));
  }

  lemma Rear(a: string, b: string)
    ensures (a + b)[|a|..|a| + |b|] == b && |a + b| == |a| + |b|
  {
  }

  lemma CutAttr(cut: string, pid: string, u: string)
    requires HexId(pid) && cut == pid + " session=\"" + Escape(u)
    ensures SplitAttr(cut) == (cut, None)
  {
    var v := |pid| + 1 + |MARKER|;
    MarkerFound(pid, Escape(u));
    Rear(pid + " session=\"", Escape(u));
    ScanFindsNothing(cut, v, u);
  }

  /** A header cut at a bracket inside the session id has no attribute to find. */
  lemma CutHeaderHasNoSession(pid: string, sid: string, n: nat, kind: string, tail: string)
    requires HexId(pid) && ']' in sid
    ensures var h := Header(pid, sid, n, kind);
            var r := ParseHeader(h[..IndexOf(h, ']')], tail);
            r.Some? ==> r.value.sessionId == None
  {
    var k := IndexOf(sid, ']');
    var u := sid[..k];
    assert k < |sid| && sid == u + ("]" + sid[k + 1..]);
    HeaderCut(pid, sid, n, kind, u, sid[k + 1..]);
    CutAttr(pid + " session=\"" + Escape(u), pid, u);
  }

  lemma HeaderCut(pid: string, sid: string, n: nat, kind: string, u: string, w: string)
    requires HexId(pid) && sid == u + ("]" + w) && ']' !in u
    ensures var h := Header(pid, sid, n, kind);
            h[..IndexOf(h, ']')] == pid + " session=\"" + Escape(u)
  {
    HeaderAround(pid, sid, n, kind);
    EscapedBracket(u, w);
    EscapeBrackets(u);
    FrontPlain(pid);
    CutAtBracket(pid + " session=\"", Escape(u), Escape(w), "\" " + (Decimal(n) + "tok " + kind));
  }

  lemma EscapedBracket(u: string, w: string)
    ensures Escape(u + ("]" + w)) == Escape(u) + ("]" + Escape(w))
  {
    EscapeAppend(u, "]" + w);
    assert ("]" + w)[1..] == w;
  }

  lemma CutAtBracket(front: string, e: string, more: string, back: string)
    requires ']' !in front && ']' !in e
    ensures var h := front + (e + ("]" + more)) + back;
            h[..IndexOf(h, ']')] == front + e
  {
    var cut := front + e;
    assert ']' !in cut;
    Regroup(front, e, "]", more, back);
    Slices(cut, "]", more + back);
    FirstAfter(cut, more + back);
  }

  lemma FirstAfter(cut: string, rest: string)
    requires ']' !in cut
    ensures IndexOf(cut + "]" + rest, ']') == |cut|
  {
    var h := cut + "]" + rest;
    assert forall j :: 0 <= j < |cut| ==> h[j] == cut[j];
    assert h[|cut|] == ']';
  }

  /** What follows the bracket. */
  function Tail(text: string): string { " " + Snippet(text) + "..." }

  lemma StubLine(pid: string, sid: string, n: nat, kind: string, text: string)
    ensures IsStubLine(BuildStub(pid, sid, n, kind, text), Header(pid, sid, n, kind), Tail(text))
  {
    var s := BuildStub(pid, sid, n, kind, text);
    assert s[0] == '[' && s[|s| - 1] == '.';
  }

  lemma SnippetParses(text: string)
    ensures ParseTail(Tail(text)) == Snippet(text)
  {
    var t := Tail(text);
    assert t[1..] == Snippet(text) + "...";
    assert (Snippet(text) + "...")[|Snippet(text)|..] == "...";
  }

  lemma StubCutAt(line: string, rest: string)
    requires TrimEnd(TrimStart(line)) == line && |OPENING| <= |line| && line[..|OPENING|] == OPENING && line[|OPENING|..] == rest
    requires ']' in rest
    ensures ParseStub(line) == ParseHeader(rest[..IndexOf(rest, ']')], rest[IndexOf(rest, ']') + 1..])
  {
  }

  lemma FirstBefore(h: string, more: string)
    requires ']' in h
    ensures ']' in h + more && IndexOf(h + more, ']') == IndexOf(h, ']') < |h|
    ensures (h + more)[..IndexOf(h, ']')] == h[..IndexOf(h, ']')]
  {
    assert forall k :: 0 <= k < |h| ==> (h + more)[k] == h[k];
  }

  /** A stub line of this header and tail. */
  predicate IsStubLine(line: string, h: string, tail: string) {
    && TrimEnd(TrimStart(line)) == line && |OPENING| <= |line| && line[..|OPENING|] == OPENING
    && line[|OPENING|..] == h + "]" + tail
  }

  /** A header with a bracket in it is cut there. */
  lemma CutShort(line: string, h: string, tail: string) returns (rest: string)
    requires IsStubLine(line, h, tail) && ']' in h
    ensures ParseStub(line) == ParseHeader(h[..IndexOf(h, ']')], rest)
  {
    var s := h + "]" + tail;
    FirstBefore(h, "]" + tail);
    Regrouped(h, "]", tail);
    rest := s[IndexOf(h, ']') + 1..];
    StubCutAt(line, s);
  }

  lemma Regrouped(a: string, b: string, c: string)
    ensures a + b + c == a + (b + c)
  {
  }

  lemma CutWhole(line: string, h: string, tail: string)
    requires IsStubLine(line, h, tail) && ']' !in h
    ensures ParseStub(line) == ParseHeader(h, tail)
  {
    FirstAfter(h, tail);
    Slices(h, "]", tail);
    assert (h + "]" + tail)[|h|] == ']';
    StubCutAt(line, h + "]" + tail);
  }

  lemma WholeStub(pid: string, sid: string, n: nat, kind: string, text: string)
    requires HexId(pid) && PlainKind(kind) && n < USIZE_LIMIT && ']' !in sid
    ensures ParseStub(BuildStub(pid, sid, n, kind, text)) == Some(StubInfo(pid, Some(sid), n, kind, Snippet(text)))
  {
    StubLine(pid, sid, n, kind, text);
    HeaderBracket(pid, sid, n, kind);
    CutWhole(BuildStub(pid, sid, n, kind, text), Header(pid, sid, n, kind), Tail(text));
    ParseHeaderOf(pid, sid, n, kind, Tail(text));
    SnippetParses(text);
  }

  lemma BrokenStub(pid: string, sid: string, n: nat, kind: string, text: string)
    requires HexId(pid) && PlainKind(kind) && ']' in sid
    ensures var r := ParseStub(BuildStub(pid, sid, n, kind, text)); r.Some? ==> r.value.sessionId == None
  {
    StubLine(pid, sid, n, kind, text);
    HeaderBracket(pid, sid, n, kind);
    var rest := CutShort(BuildStub(pid, sid, n, kind, text), Header(pid, sid, n, kind), Tail(text));
    CutHeaderHasNoSession(pid, sid, n, kind, rest);
  }

  /** The first 120 characters, with blanks for line breaks. */
  predicate ShortensTo(text: string, s: string) {
    && |s| == (if |text| < 120 then |text| else 120)
    && forall i | 0 <= i < |s| :: s[i] == if text[i] == '\n' || text[i] == '\r' then ' ' else text[i]
  }

  /**
   * Printing and parsing a stub gives back its id, session, count, kind and snippet exactly
   * when the session id has no closing bracket. JSON leaves that bracket as it is and the
   * parser cuts the header at the first one, so the promise made for hostile ids fails there.
   */
  lemma StubRoundTrip(pid: string, sid: string, n: nat, kind: string, text: string)
    requires HexId(pid) && PlainKind(kind) && n < USIZE_LIMIT
    ensures var r := ParseStub(BuildStub(pid, sid, n, kind, text));
      (r.Some? && r.value == StubInfo(pid, Some(sid), n, kind, r.value.snippet) && ShortensTo(text, r.value.snippet)) <==> ']' !in sid
  {
    if ']' in sid {
      BrokenStub(pid, sid, n, kind, text);
    } else {
      WholeStub(pid, sid, n, kind, text);
    }
  }

  // ---------- stubs without a session ----------

  lemma {:induction false} NoMarker(s: string, i: nat)
    requires '\"' !in s && i <= |s|
    ensures FindFrom(s, MARKER, i) == None
    decreases |s| - i
  {
    if i + |MARKER| <= |s| {
      assert s[i..i + |MARKER|][|MARKER| - 1] == s[i + |MARKER| - 1];
      NoMarker(s, i + 1);
    }
  }

  lemma BareWords(pid: string, n: nat, kind: string)
    requires HexId(pid) && PlainKind(kind) && n < USIZE_LIMIT
    ensures SplitWhitespace(pid + " " + (Decimal(n) + "tok " + kind)) == [pid, Decimal(n) + "tok", kind]
    ensures SplitWhitespace(pid + " " + (Decimal(n) + "tok")) == [pid, Decimal(n) + "tok"]
  {
    var toks := Decimal(n) + "tok";
    assert Decimal(n) + "tok " + kind == toks + " " + kind;
    TokensParse(n);
    assert IsWord(pid);
    SplitFirstWord(pid, toks + " " + kind);
    SplitFirstWord(pid, toks);
    SplitFirstWord(toks, kind);
    SplitFirstWord(kind, "");
  }

  lemma BareHeader(pid: string, n: nat, kind: string, tail: string)
    requires HexId(pid) && PlainKind(kind) && '\"' !in kind && n < USIZE_LIMIT
    ensures ParseHeader(pid + " " + (Decimal(n) + "tok " + kind), tail) == Some(StubInfo(pid, None, n, kind, ParseTail(tail)))
    ensures ParseHeader(pid + " " + (Decimal(n) + "tok"), tail) == None
  {
    DecimalParses(n);
    NoMarker(pid + " " + (Decimal(n) + "tok " + kind), 0);
    NoMarker(pid + " " + (Decimal(n) + "tok"), 0);
    BareWords(pid, n, kind);
    TokensParse(n);
  }

  lemma BareLine(h: string, text: string)
    requires h != []
    ensures IsStubLine(OPENING + h + "]" + Tail(text), h, Tail(text))
  {
    var s := OPENING + h + "]" + Tail(text);
    assert s[0] == '[' && s[|s| - 1] == '.';
    assert s == OPENING + (h + "]" + Tail(text));
  }

  lemma BareParses(h: string, text: string)
    requires h != [] && ']' !in h
    ensures ParseStub(OPENING + h + "]" + Tail(text)) == ParseHeader(h, Tail(text))
  {
    BareLine(h, text);
    CutWhole(OPENING + h + "]" + Tail(text), h, Tail(text));
  }

  /** A stub without the attribute is read with no session; without a kind it is not a stub. */
  lemma BareStub(pid: string, n: nat, kind: string, text: string)
    requires HexId(pid) && PlainKind(kind) && '\"' !in kind && n < USIZE_LIMIT
    ensures ParseStub(OPENING + (pid + " " + (Decimal(n) + "tok " + kind)) + "]" + Tail(text)) == Some(StubInfo(pid, None, n, kind, Snippet(text)))
    ensures ParseStub(OPENING + (pid + " " + (Decimal(n) + "tok")) + "]" + Tail(text)) == None
  {
    DecimalParses(n);
    InMiddle(']', pid, " ", Decimal(n) + "tok " + kind);
    InMiddle(']', pid, " ", Decimal(n) + "tok");
    BareParses(pid + " " + (Decimal(n) + "tok " + kind), text);
    BareParses(pid + " " + (Decimal(n) + "tok"), text);
    BareHeader(pid, n, kind, Tail(text));
    SnippetParses(text);
  }

  predicate OneLine(s: string) {
    '\n' !in s && '\r' !in s
  }

  lemma HeaderIsOneLine(pid: string, sid: string, n: nat, kind: string)
    requires HexId(pid) && PlainKind(kind)
    ensures OneLine(Header(pid, sid, n, kind))
  {
    EscapeHasNoBreaks(sid);
    DecimalParses(n);
    assert OneLine(pid) && OneLine(kind) && OneLine(Decimal(n));
    var front := pid + " session=";
    assert OneLine(front);
    assert OneLine(JsonString(sid));
    assert OneLine(front + JsonString(sid));
  }

  /** A stub is one line, whatever the session id and the text contain. */
  lemma StubIsOneLine(pid: string, sid: string, n: nat, kind: string, text: string)
    requires HexId(pid) && PlainKind(kind)
    ensures OneLine(BuildStub(pid, sid, n, kind, text))
  {
    HeaderIsOneLine(pid, sid, n, kind);
    assert OneLine(OPENING + Header(pid, sid, n, kind));
    assert OneLine(Snippet(text));
  }

  lemma {:induction false} EscapeHasNoBreaks(s: string)
    ensures OneLine(Escape(s))
  {
    if s != [] {
      EscapeHasNoBreaks(s[1..]);
      assert OneLine(EscapeChar(s[0]));
    }
  }
}
