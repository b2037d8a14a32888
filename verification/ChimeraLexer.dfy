/**
 * The ChimeraLang lexer on ASCII source: one step of it as a function of the cursor and the
 * tokens so far, the loop as the program runs it, and exactly when rendered tokens lex back.
 */
module ChimeraLexer {
  import opened Common
  import opened Decimals
  import opened ChimeraSyntax

  predicate IsWs(c: char) { c == ' ' || c == '\t' || c == '\n' || c == '\r' || c as int == 12 }

  predicate IsDigit(c: char) { '0' <= c <= '9' }

  predicate IsIdStart(c: char) { 'a' <= c <= 'z' || 'A' <= c <= 'Z' || c == '_' }

  predicate IsIdPart(c: char) { IsIdStart(c) || IsDigit(c) }

  predicate Ascii(s: string) { forall c | c in s :: c as int < 128 }

  const I64_LIMIT := 0x8000_0000_0000_0000

  // ---------- the parts of a token ----------

  function LineEnd(src: string, i: nat): (e: nat)
    requires i <= |src|
    ensures i <= e <= |src|
    decreases |src| - i
  {
    if i < |src| && src[i] != '\n' then LineEnd(src, i + 1) else i
  }

  function IdEnd(src: string, i: nat): (e: nat)
    requires i <= |src|
    ensures i <= e <= |src|
    decreases |src| - i
  {
    if i < |src| && IsIdPart(src[i]) then IdEnd(src, i + 1) else i
  }

  /** A dot belongs to the number only when a digit follows it. */
  predicate InNumber(src: string, i: nat) {
    i < |src| && (IsDigit(src[i]) || (src[i] == '.' && i + 1 < |src| && IsDigit(src[i + 1])))
  }

  function NumEnd(src: string, i: nat): (e: nat)
    requires i <= |src|
    ensures i <= e <= |src|
    decreases |src| - i
  {
    if InNumber(src, i) then NumEnd(src, i + 1) else i
  }

  /** What the last token must be for a minus sign to start a number. */
  predicate AllowsSign(out: seq<Tok>) {
    out == [] || out[|out| - 1] in {LParen, LBracket, Comma, Colon, ColonAssign, Assign}
  }

  predicate StartsNumber(src: string, i: nat, out: seq<Tok>)
    requires i < |src|
  {
    IsDigit(src[i]) || (src[i] == '-' && i + 1 < |src| && IsDigit(src[i + 1]) && AllowsSign(out))
  }

  function Unsigned(text: string): string {
    if text != [] && text[0] == '-' then text[1..] else text
  }

  /** A 64-bit integer, or `None` when it does not fit. */
  function ParseInt64(text: string): Option<int> {
    var digits := Unsigned(text);
    if digits == [] || !AllDigits(digits) then None
    else
      var n: int := if Unsigned(text) == text then DigitsValue(digits) else -(DigitsValue(digits) as int);
      if -I64_LIMIT <= n < I64_LIMIT then Some(n) else None
  }

  function DotAt(text: string): (i: nat)
    ensures i <= |text|
  {
    if text == [] || text[0] == '.' then 0 else 1 + DotAt(text[1..])
  }

  function DigitValue(c: char): int { c as int - '0' as int }

  /** The value of the digits behind a dot. */
  function FractionValue(digits: string): real {
    if digits == [] then 0.0 else (DigitValue(digits[0]) as real + FractionValue(digits[1..])) / 10.0
  }

  /** A decimal fraction, or `None` when it has a second dot. */
  function ParseDecimal(text: string): Option<real> {
    var u := Unsigned(text);
    var d := DotAt(u);
    if d >= |u| || !AllDigits(u[..d]) || !AllDigits(u[d + 1..]) then None
    else
      var v := DigitsValue(u[..d]) as real + FractionValue(u[d + 1..]);
      Some(if u == text then v else -v)
  }

  function NumberTok(text: string): Option<Tok> {
    if '.' in text then
      var f := ParseDecimal(text);
      if f.None? then None else Some(FloatTok(f.value))
    else
      var n := ParseInt64(text);
      if n.None? then None else Some(IntTok(n.value))
  }

  function Unescaped(c: char): char {
    if c == 'n' then '\n' else if c == 't' then '\t' else c
  }

  /** The decoded characters from `i` to the closing quote, and where that quote is. */
  function StrBody(src: string, i: nat): (r: Option<(string, nat)>)
    requires i <= |src|
    ensures r.Some? ==> i <= r.value.1 < |src|
    decreases |src| - i
  {
    if i == |src| then None
    else if src[i] == '\"' then Some(([], i))
    else if src[i] == '\\' && i + 1 < |src| then Onto(Unescaped(src[i + 1]), StrBody(src, i + 2))
    else Onto(src[i], StrBody(src, i + 1))
  }

  function Onto(c: char, r: Option<(string, nat)>): Option<(string, nat)> {
    if r.None? then None else Some(([c] + r.value.0, r.value.1))
  }

  function Operator2(a: char, b: char): Option<Tok> {
    if b != '=' then None
    else match a
      case ':' => Some(ColonAssign)
      case '<' => Some(Le)
      case '>' => Some(Ge)
      case '=' => Some(EqEq)
      case '!' => Some(Ne)
      case _ => None
  }

  function Operator1(c: char): Option<Tok> {
    match c
    case '=' => Some(Assign)
    case ':' => Some(Colon)
    case ',' => Some(Comma)
    case '.' => Some(Dot)
    case '(' => Some(LParen)
    case ')' => Some(RParen)
    case '[' => Some(LBracket)
    case ']' => Some(RBracket)
    case '{' => Some(LBrace)
    case '}' => Some(RBrace)
    case '+' => Some(Plus)
    case '-' => Some(Minus)
    case '*' => Some(Star)
    case '/' => Some(Slash)
    case '<' => Some(Lt)
    case '>' => Some(Gt)
    case _ => None
  }

  // ---------- one step ----------

  datatype Lexed = Bad | Skipped(next: nat) | Token(tok: Tok, next: nat)

  /** The step always moves the cursor forward, so lexing ends. */
  function Step(src: string, i: nat, out: seq<Tok>): (r: Lexed)
    requires i < |src|
    ensures !r.Bad? ==> i < r.next <= |src|
  {
    var c := src[i];
    if IsWs(c) then Skipped(i + 1)
    else if c == '#' then Skipped(LineEnd(src, i + 1))
    else if IsIdStart(c) then Token(Ident(src[i..IdEnd(src, i + 1)]), IdEnd(src, i + 1))
    else if StartsNumber(src, i, out) then
      var e := NumEnd(src, i + 1);
      var t := NumberTok(src[i..e]);
      if t.None? then Bad else Token(t.value, e)
    else if c == '\"' then
      var s := StrBody(src, i + 1);
      if s.None? then Bad else Token(StrTok(s.value.0), s.value.1 + 1)
    else if i + 1 < |src| && Operator2(c, src[i + 1]).Some? then Token(Operator2(c, src[i + 1]).value, i + 2)
    else if Operator1(c).Some? then Token(Operator1(c).value, i + 1)
    else Bad
  }

  function LexFrom(src: string, i: nat, out: seq<Tok>): Option<seq<Tok>>
    requires i <= |src|
    decreases |src| - i
  {
    if i == |src| then Some(out)
    else match Step(src, i, out)
      case Bad => None
      case Skipped(n) => LexFrom(src, n, out)
      case Token(t, n) => LexFrom(src, n, out + [t])
  }

  function Lex(src: string): Option<seq<Tok>> {
    LexFrom(src, 0, [])
  }

  // ---------- the loop ----------

  /** The lexer as the program runs it: total on ASCII source. */
  method LexSource(src: string) returns (r: Option<seq<Tok>>)
    requires Ascii(src)
    ensures r == Lex(src)
  {
    var i := 0;
    var out: seq<Tok> := [];
    while i < |src|
      invariant i <= |src| && Lex(src) == LexFrom(src, i, out)
      decreases |src| - i
    {
      var c := src[i];
      if IsWs(c) {
        i := i + 1;
      } else if c == '#' {
        i := CommentEnd(src, i + 1);
      } else {
        var t, j := NextToken(src, i, out);
        if t.None? { return None; }
        out := out + [t.value];
        i := j;
      }
    }
    return Some(out);
  }

  method NextToken(src: string, i: nat, out: seq<Tok>) returns (t: Option<Tok>, j: nat)
    requires i < |src| && !IsWs(src[i]) && src[i] != '#'
    ensures Step(src, i, out) == if t.Some? then Token(t.value, j) else Bad
  {
    var c := src[i];
    t, j := None, i;
    if IsIdStart(c) {
      j := WordEnd(src, i + 1);
      t := Some(Ident(src[i..j]));
    } else if StartsNumber(src, i, out) {
      j := NumberEnd(src, i + 1);
      t := NumberTok(src[i..j]);
    } else if c == '\"' {
      var s, k := ReadString(src, i + 1);
      if k < |src| {
        t, j := Some(StrTok(s)), k + 1;
      }
    } else if i + 1 < |src| && Operator2(c, src[i + 1]).Some? {
      t, j := Operator2(c, src[i + 1]), i + 2;
    } else {
      t, j := Operator1(c), i + 1;
    }
  }

  method CommentEnd(src: string, i: nat) returns (j: nat)
    requires i <= |src|
    ensures j == LineEnd(src, i)
  {
    j := i;
    while j < |src| && src[j] != '\n'
      invariant i <= j <= |src| && LineEnd(src, j) == LineEnd(src, i)
    {
      j := j + 1;
    }
  }

  method WordEnd(src: string, i: nat) returns (j: nat)
    requires i <= |src|
    ensures j == IdEnd(src, i)
  {
    j := i;
    while j < |src| && IsIdPart(src[j])
      invariant i <= j <= |src| && IdEnd(src, j) == IdEnd(src, i)
    {
      j := j + 1;
    }
  }

  method NumberEnd(src: string, i: nat) returns (j: nat)
    requires i <= |src|
    ensures j == NumEnd(src, i)
  {
    j := i;
    while InNumber(src, j)
      invariant i <= j <= |src| && NumEnd(src, j) == NumEnd(src, i)
      decreases |src| - j
    {
      j := j + 1;
    }
  }

  method ReadString(src: string, start: nat) returns (s: string, j: nat)
    requires start <= |src|
    ensures start <= j <= |src|
    ensures StrBody(src, start) == if j < |src| then Some((s, j)) else None
  {
    s, j := [], start;
    OntoNothing(StrBody(src, start));
    while j < |src| && src[j] != '\"'
      invariant start <= j <= |src|
      invariant StrBody(src, start) == OntoAll(s, StrBody(src, j))
    {
      var c := src[j];
      if src[j] == '\\' && j + 1 < |src| {
        j := j + 1;
        c := Unescaped(src[j]);
      }
      OntoMore(s, c, StrBody(src, j + 1));
      s := s + [c];
      j := j + 1;
    }
    assert s + [] == s;
  }

  lemma OntoNothing(r: Option<(string, nat)>)
    ensures OntoAll([], r) == r
  {
    if r.Some? {
      assert [] + r.value.0 == r.value.0;
    }
  }

  lemma OntoMore(s: string, c: char, r: Option<(string, nat)>)
    ensures OntoAll(s, Onto(c, r)) == OntoAll(s + [c], r)
  {
    if r.Some? {
      assert s + ([c] + r.value.0) == s + [c] + r.value.0;
    }
  }

  function OntoAll(s: string, r: Option<(string, nat)>): Option<(string, nat)> {
    if r.None? then None else Some((s + r.value.0, r.value.1))
  }
}
