/**
 * From source text to program: which token sequences the lexer can produce, when rendered tokens
 * lex back, and when a rendered program comes back whole.
 */
module ChimeraSource {
  import opened Common
  import opened Decimals
  import opened ChimeraParens
  import opened ChimeraSyntax
  import opened ChimeraRoundTrip
  import opened ChimeraLexer

  // ---------- rendering ----------

  predicate Special(c: char) { c in {'\"', '\\', '\n', '\t'} }

  function EscapeCode(c: char): char {
    if c == '\n' then 'n' else if c == '\t' then 't' else c
  }

  function EscapeSourceChar(c: char): string {
    if Special(c) then ['\\', EscapeCode(c)] else [c]
  }

  function EscapeSource(s: string): string {
    if s == [] then [] else EscapeSourceChar(s[0]) + EscapeSource(s[1..])
  }

  predicate IsNegative(t: Tok) { (t.IntTok? && t.n < 0) || (t.FloatTok? && t.f < 0.0) }

  predicate Whole(f: real) { f == f.Floor as real }

  /** `f` has at most `k` decimal places. */
  predicate Fits(f: real, k: nat)
    decreases k
  {
    if k == 0 then Whole(f) else Fits(f * 10.0, k - 1)
  }

  ghost predicate FiniteDecimal(f: real) { exists k: nat :: k > 0 && Fits(f, k) }

  /** The first `k` decimal places of a fraction below one. */
  function Places(f: real, k: nat): string
    requires 0.0 <= f < 1.0
    decreases k
  {
    if k == 0 then [] else [DigitChar((f * 10.0).Floor)] + Places(f * 10.0 - (f * 10.0).Floor as real, k - 1)
  }

  function PointText(f: real, k: nat): string
    requires f >= 0.0
  {
    Decimal(f.Floor) + "." + Places(f - f.Floor as real, k)
  }

  /** The number without its sign. */
  ghost function Magnitude(t: Tok): string
    requires IsNumber(t) && Writable(t)
  {
    match t
    case IntTok(n) => Decimal(if n < 0 then -n else n)
    case FloatTok(f) => var k: nat :| k > 0 && Fits(Abs(f), k); PointText(Abs(f), k)
  }

  function Signed(a: string, negative: bool): string { if negative then "-" + a else a }

  function Abs(f: real): real { if f < 0.0 then -f else f }

  function Symbol(t: Tok): string {
    match t
    case Assign => "="
    case ColonAssign => ":="
    case Colon => ":"
    case Comma => ","
    case Dot => "."
    case LParen => "("
    case RParen => ")"
    case LBracket => "["
    case RBracket => "]"
    case LBrace => "{"
    case RBrace => "}"
    case Plus => "+"
    case Minus => "-"
    case Star => "*"
    case Slash => "/"
    case Lt => "<"
    case Gt => ">"
    case Le => "<="
    case Ge => ">="
    case EqEq => "=="
    case Ne => "!="
    case _ => []
  }

  predicate IsNumber(t: Tok) { t.IntTok? || t.FloatTok? }

  ghost function Text(t: Tok): string
    requires Writable(t)
  {
    if IsNumber(t) then Signed(Magnitude(t), IsNegative(t))
    else if t.Ident? then t.name
    else if t.StrTok? then "\"" + EscapeSource(t.s) + "\""
    else Symbol(t)
  }

  /** Tokens with a spelling: ASCII, identifiers shaped as such, integers that fit, finite decimals. */
  ghost predicate Writable(t: Tok) {
    if t.Ident? then IsWord(t.name)
    else if t.IntTok? then -I64_LIMIT <= t.n < I64_LIMIT
    else if t.FloatTok? then FiniteDecimal(Abs(t.f))
    else t.StrTok? ==> Ascii(t.s)
  }

  predicate IsWord(s: string) {
    s != [] && IsIdStart(s[0]) && forall i | 0 <= i < |s| :: IsIdPart(s[i])
  }

  ghost predicate AllWritable(ts: seq<Tok>) {
    ts == [] || (Writable(ts[0]) && AllWritable(ts[1..]))
  }

  ghost function Texts(ts: seq<Tok>): seq<string>
    requires AllWritable(ts)
  {
    if ts == [] then [] else [Text(ts[0])] + Texts(ts[1..])
  }

  /** Every text followed by a space. */
  function Spaced(texts: seq<string>): string {
    if texts == [] then [] else texts[0] + " " + Spaced(texts[1..])
  }

  ghost function Render(ts: seq<Tok>): string
    requires AllWritable(ts)
  {
    Spaced(Texts(ts))
  }

  /** Negative numbers only where a minus is a sign: at the start, behind an opening bracket, a comma, a colon or an assignment. */
  predicate SignsPlaced(before: seq<Tok>, ts: seq<Tok>)
    decreases |ts|
  {
    ts == [] || (!Misplaced(ts[0], before) && SignsPlaced(before + [ts[0]], ts[1..]))
  }

  predicate Misplaced(t: Tok, out: seq<Tok>) { IsNegative(t) && out != [] && !PrecedesSign(out[|out| - 1]) }

  predicate PrecedesSign(t: Tok) {
    t == LParen || t == LBracket || t == Comma || t == Colon || t == ColonAssign || t == Assign
  }

  // ---------- pieces of a source ----------

  lemma {:induction false} IdEndAt(src: string, i: nat, e: nat)
    requires i <= e < |src| && (forall k :: i <= k < e ==> IsIdPart(src[k])) && !IsIdPart(src[e])
    ensures IdEnd(src, i) == e
    decreases e - i
  {
    if i < e { IdEndAt(src, i + 1, e); }
  }

  lemma {:induction false} NumEndAt(src: string, i: nat, e: nat)
    requires i <= e < |src| && (forall k :: i <= k < e ==> InNumber(src, k)) && src[e] == ' '
    ensures NumEnd(src, i) == e
    decreases e - i
  {
    if i < e { NumEndAt(src, i + 1, e); }
  }

  /** `a` stands in `src` at `i`. */
  predicate At(src: string, i: nat, a: string)
    decreases |a|
  {
    if a == [] then i <= |src| else i < |src| && src[i] == a[0] && At(src, i + 1, a[1..])
  }

  lemma {:induction false} AtEach(src: string, i: nat, a: string)
    requires At(src, i, a)
    ensures i + |a| <= |src| && src[i..i + |a|] == a
    ensures forall k :: i <= k < i + |a| ==> src[k] == a[k - i]
    decreases |a|
  {
    if a != [] { AtEach(src, i + 1, a[1..]); }
  }

  lemma {:induction false} AtConcat(src: string, i: nat, a: string, b: string)
    requires At(src, i, a + b)
    ensures At(src, i, a) && At(src, i + |a|, b) && i + |a| <= |src|
    decreases |a|
  {
    if a == [] {
      AtEach(src, i, a + b);
      assert a + b == b;
    } else {
      assert (a + b)[1..] == a[1..] + b;
      AtConcat(src, i + 1, a[1..], b);
    }
  }

  lemma {:induction false} AtStart(src: string)
    ensures At(src, 0, src)
  {
    AtSuffix(src, 0);
  }

  lemma {:induction false} AtSuffix(src: string, i: nat)
    requires i <= |src|
    ensures At(src, i, src[i..])
    decreases |src| - i
  {
    if i < |src| {
      AtSuffix(src, i + 1);
      assert src[i..][1..] == src[i + 1..];
    }
  }

  lemma StrBodyChar(src: string, i: nat, c: char)
    requires At(src, i, EscapeSourceChar(c)) && i + |EscapeSourceChar(c)| < |src|
    ensures StrBody(src, i) == Onto(c, StrBody(src, i + |EscapeSourceChar(c)|))
  {
    var e := EscapeSourceChar(c);
    AtEach(src, i, e);
    if |e| == 2 { assert src[i + 1] == e[1]; }
  }

  lemma OntoTail(s: string, n: nat)
    requires s != []
    ensures Onto(s[0], Some((s[1..], n))) == Some((s, n))
  {
    assert s == [s[0]] + s[1..];
  }

  lemma EscapedParts(src: string, i: nat, s: string)
    requires s != [] && At(src, i, EscapeSource(s) + "\"")
    ensures At(src, i, EscapeSourceChar(s[0])) && i + |EscapeSourceChar(s[0])| < |src|
    ensures At(src, i + |EscapeSourceChar(s[0])|, EscapeSource(s[1..]) + "\"")
    ensures |EscapeSource(s)| == |EscapeSourceChar(s[0])| + |EscapeSource(s[1..])|
  {
    AtParts(src, i, EscapeSourceChar(s[0]), EscapeSource(s[1..]), "\"");
  }

  lemma AtParts(src: string, i: nat, a: string, b: string, c: string)
    requires At(src, i, a + b + c) && c != []
    ensures At(src, i, a) && i + |a| < |src| && At(src, i + |a|, b + c)
  {
    assert a + b + c == a + (b + c);
    AtConcat(src, i, a, b + c);
  }

  lemma StrBodyStep(src: string, i: nat, s: string)
    requires s != [] && At(src, i, EscapeSourceChar(s[0])) && i + |EscapeSourceChar(s[0])| < |src|
    requires StrBody(src, i + |EscapeSourceChar(s[0])|) == Some((s[1..], i + |EscapeSource(s)|))
    ensures StrBody(src, i) == Some((s, i + |EscapeSource(s)|))
  {
    StrBodyChar(src, i, s[0]);
    OntoTail(s, i + |EscapeSource(s)|);
  }

  lemma {:induction false} StrBodyAt(src: string, i: nat, s: string)
    requires At(src, i, EscapeSource(s) + "\"")
    ensures StrBody(src, i) == Some((s, i + |EscapeSource(s)|))
    decreases |s|
  {
    if s != [] {
      EscapedParts(src, i, s);
      StrBodyAt(src, i + |EscapeSourceChar(s[0])|, s[1..]);
      StrBodyStep(src, i, s);
    } else {
      StrBodyEnd(src, i);
    }
  }

  lemma StrBodyEnd(src: string, i: nat)
    requires At(src, i, EscapeSource("") + "\"")
    ensures StrBody(src, i) == Some(("", i))
  {
    AtEach(src, i, EscapeSource("") + "\"");
  }

  // ---------- numbers ----------

  lemma {:induction false} FitsLess(f: real, n: int, k: nat)
    requires Fits(f, k)
    ensures Fits(f - n as real, k)
    decreases k
  {
    if k > 0 {
      FitsLess(f * 10.0, 10 * n, k - 1);
      assert (f - n as real) * 10.0 == f * 10.0 - (10 * n) as real;
    } else {
      assert (f - n as real).Floor == f.Floor - n;
    }
  }

  /** The decimal places are those of the fraction, when it has no more. */
  lemma {:induction false} PlacesParse(f: real, k: nat)
    requires 0.0 <= f < 1.0 && Fits(f, k)
    ensures AllDigits(Places(f, k)) && |Places(f, k)| == k && FractionValue(Places(f, k)) == f
    decreases k
  {
    if k > 0 {
      var n := (f * 10.0).Floor;
      FitsLess(f * 10.0, n, k - 1);
      PlacesParse(f * 10.0 - n as real, k - 1);
      assert Places(f, k)[1..] == Places(f * 10.0 - n as real, k - 1);
      assert DigitValue(DigitChar(n)) == n;
    }
  }

  lemma {:induction false} DotAfter(a: string, b: string)
    requires AllDigits(a)
    ensures DotAt(a + "." + b) == |a|
  {
    if a == [] {
      assert a + "." + b == "." + b;
    } else {
      DotAfter(a[1..], b);
      assert (a + "." + b)[1..] == a[1..] + "." + b;
    }
  }

  lemma Halves(a: string, b: string)
    requires AllDigits(a)
    ensures var u := a + "." + b;
      DotAt(u) == |a| && |u| == |a| + 1 + |b| && u[..|a|] == a && u[|a| + 1..] == b
  {
    DotAfter(a, b);
  }

  function PointValue(a: string, b: string): real
    requires AllDigits(a) && AllDigits(b)
  {
    DigitsValue(a) as real + FractionValue(b)
  }

  lemma HalvesParse(text: string, u: string, a: string, b: string)
    requires Unsigned(text) == u && AllDigits(a) && AllDigits(b)
    requires DotAt(u) == |a| && |u| == |a| + 1 + |b| && u[..|a|] == a && u[|a| + 1..] == b
    ensures ParseDecimal(text) == Some(if u == text then PointValue(a, b) else -PointValue(a, b))
  {
  }

  predicate SpellsPoint(text: string, f: real) {
    ParseDecimal(text) == Some(f) && ParseDecimal("-" + text) == Some(-f)
  }

  /** Digits, a dot, digits: what the number parser makes of them, with and without a sign. */
  lemma PointParses(a: string, b: string)
    requires AllDigits(a) && AllDigits(b) && a != []
    ensures SpellsPoint(a + "." + b, PointValue(a, b))
  {
    var u := a + "." + b;
    Halves(a, b);
    assert u[0] == a[0];
    HalvesParse(u, u, a, b);
    assert ("-" + u)[1..] == u;
    HalvesParse("-" + u, u, a, b);
  }

  lemma DigitsHaveNoDot(d: string)
    requires AllDigits(d)
    ensures '.' !in d && '.' !in "-" + d
  {
  }

  /** A digit, then digits and dots with a digit behind them. */
  predicate NumberText(a: string) {
    a != [] && IsDigit(a[0]) && forall k | 0 <= k < |a| :: InNumber(a, k)
  }

  lemma PointIsNumber(a: string, b: string)
    requires AllDigits(a) && AllDigits(b) && a != [] && b != []
    ensures NumberText(a + "." + b) && '.' in a + "." + b
  {
    var u := a + "." + b;
    forall k | 0 <= k < |u| ensures InNumber(u, k) {
      if k < |a| {
        assert u[k] == a[k];
      } else if k == |a| {
        assert u[k] == '.' && u[k + 1] == b[0];
      } else {
        assert u[k] == b[k - |a| - 1];
      }
    }
    assert u[0] == a[0] && u[|a|] == '.';
  }

  lemma IntegerSpelled(t: Tok)
    requires t.IntTok? && Writable(t)
    ensures NumberText(Magnitude(t)) && NumberTok(Text(t)) == Some(t)
  {
    var d := Magnitude(t);
    DecimalParses(if t.n < 0 then -t.n else t.n);
    DigitsHaveNoDot(d);
    assert ("-" + d)[1..] == d;
  }

  lemma PointSpelled(f: real, k: nat)
    requires f >= 0.0 && k > 0 && Fits(f, k)
    ensures NumberText(PointText(f, k)) && '.' in PointText(f, k) && SpellsPoint(PointText(f, k), f)
  {
    PiecesSpelled(f, k);
    PointIsNumber(Decimal(f.Floor), Places(f - f.Floor as real, k));
    PointParses(Decimal(f.Floor), Places(f - f.Floor as real, k));
  }

  lemma PiecesSpelled(f: real, k: nat)
    requires f >= 0.0 && k > 0 && Fits(f, k)
    ensures var a, b := Decimal(f.Floor), Places(f - f.Floor as real, k);
      AllDigits(a) && AllDigits(b) && a != [] && b != [] && PointValue(a, b) == f
  {
    DecimalParses(f.Floor);
    FitsLess(f, f.Floor, k);
    PlacesParse(f - f.Floor as real, k);
  }

  lemma FractionSpelled(t: Tok)
    requires t.FloatTok? && Writable(t)
    ensures NumberText(Magnitude(t)) && NumberTok(Text(t)) == Some(t)
  {
    var k: nat :| k > 0 && Fits(Abs(t.f), k) && Magnitude(t) == PointText(Abs(t.f), k);
    PointSpelled(Abs(t.f), k);
    FractionTok(PointText(Abs(t.f), k), t.f);
  }

  lemma FractionTok(a: string, f: real)
    requires '.' in a && SpellsPoint(a, Abs(f))
    ensures NumberTok(Signed(a, f < 0.0)) == Some(FloatTok(f))
  {
    assert ("-" + a)[1..] == a;
    assert '.' in "-" + a;
  }

  lemma NumberSpelled(t: Tok)
    requires IsNumber(t) && Writable(t)
    ensures NumberText(Magnitude(t)) && NumberTok(Text(t)) == Some(t)
  {
    if t.IntTok? { IntegerSpelled(t); } else { FractionSpelled(t); }
  }

  lemma NumberShaped(t: Tok)
    requires IsNumber(t) && Writable(t)
    ensures NumberText(Magnitude(t))
  {
    NumberSpelled(t);
  }

  /** The lexer finds the end of a number that a space follows. */
  lemma NumberEnds(src: string, i: nat, a: string)
    requires NumberText(a) && At(src, i, a) && i + |a| < |src| && src[i + |a|] == ' '
    ensures IsDigit(src[i]) && NumEnd(src, i + 1) == i + |a| && NumEnd(src, i) == i + |a|
  {
    AtEach(src, i, a);
    forall k | i <= k < i + |a| ensures InNumber(src, k) {
      assert InNumber(a, k - i);
      if src[k] == '.' { assert src[k + 1] == a[k + 1 - i]; }
    }
    NumEndAt(src, i, i + |a|);
    NumEndAt(src, i + 1, i + |a|);
  }

  lemma SignFirst(src: string, i: nat, a: string)
    requires NumberText(a) && At(src, i, "-" + a)
    ensures i + 1 < |src| && src[i] == '-' && IsDigit(src[i + 1]) && At(src, i + 1, a)
  {
    AtConcat(src, i, "-", a);
    AtEach(src, i, "-");
    AtEach(src, i + 1, a);
  }

  lemma StepAtNumber(src: string, i: nat, out: seq<Tok>)
    requires i < |src| && StartsNumber(src, i, out)
    ensures var e := NumEnd(src, i + 1); var t := NumberTok(src[i..e]);
      Step(src, i, out) == if t.None? then Bad else Token(t.value, e)
  {
  }

  lemma StepAtMinus(src: string, i: nat, out: seq<Tok>)
    requires i < |src| && src[i] == '-' && !AllowsSign(out)
    ensures Step(src, i, out) == Token(Minus, i + 1)
  {
  }

  lemma StepNumber(src: string, i: nat, out: seq<Tok>, t: Tok)
    requires IsNumber(t) && Writable(t) && !Misplaced(t, out)
    requires At(src, i, Text(t)) && i + |Text(t)| < |src| && src[i + |Text(t)|] == ' '
    ensures Step(src, i, out) == Token(t, i + |Text(t)|)
  {
    var a, negative := NumberParts(t);
    SignAllowed(out);
    StepText(src, i, out, a, negative, t);
  }

  lemma NumberParts(t: Tok) returns (a: string, negative: bool)
    requires IsNumber(t) && Writable(t)
    ensures negative == IsNegative(t) && Text(t) == Signed(a, negative)
    ensures NumberText(a) && NumberTok(Signed(a, negative)) == Some(t)
  {
    a, negative := Magnitude(t), IsNegative(t);
    NumberSpelled(t);
  }

  lemma SignAllowed(out: seq<Tok>)
    ensures AllowsSign(out) <==> out == [] || PrecedesSign(out[|out| - 1])
  {
  }

  lemma StepText(src: string, i: nat, out: seq<Tok>, a: string, negative: bool, t: Tok)
    requires NumberText(a) && (negative ==> AllowsSign(out)) && NumberTok(Signed(a, negative)) == Some(t)
    requires At(src, i, Signed(a, negative)) && i + |Signed(a, negative)| < |src| && src[i + |Signed(a, negative)|] == ' '
    ensures Step(src, i, out) == Token(t, i + |Signed(a, negative)|)
  {
    AtEach(src, i, Signed(a, negative));
    NumberFound(src, i, out, a, negative);
    StepAtNumber(src, i, out);
  }

  lemma NumberFound(src: string, i: nat, out: seq<Tok>, a: string, negative: bool)
    requires NumberText(a) && (negative ==> AllowsSign(out))
    requires At(src, i, Signed(a, negative)) && i + |Signed(a, negative)| < |src| && src[i + |Signed(a, negative)|] == ' '
    ensures StartsNumber(src, i, out) && NumEnd(src, i + 1) == i + |Signed(a, negative)|
  {
    if negative {
      SignFirst(src, i, a);
      NumberEnds(src, i + 1, a);
    } else {
      NumberEnds(src, i, a);
    }
  }

  /** A misplaced minus sign is lexed as an operator, and then, if at all, a number. */
  lemma MisplacedText(src: string, i: nat, out: seq<Tok>, a: string)
    requires NumberText(a) && !AllowsSign(out)
    requires At(src, i, "-" + a) && i + |a| + 1 < |src| && src[i + |a| + 1] == ' '
    ensures Step(src, i, out) == Token(Minus, i + 1)
    ensures var r := Step(src, i + 1, out + [Minus]); r.Bad? || (r.Token? && r.next == i + |a| + 1)
  {
    SignFirst(src, i, a);
    NumberEnds(src, i + 1, a);
    StepAtMinus(src, i, out);
    StepAtNumber(src, i + 1, out + [Minus]);
  }

  // ---------- one token ----------

  lemma StepIdent(src: string, i: nat, out: seq<Tok>, s: string)
    requires Writable(Ident(s)) && At(src, i, s) && i + |s| < |src| && src[i + |s|] == ' '
    ensures Step(src, i, out) == Token(Ident(s), i + |s|)
  {
    AtEach(src, i, s);
    IdEndAt(src, i + 1, i + |s|);
  }

  lemma StepQuote(src: string, i: nat, out: seq<Tok>, s: string, e: nat)
    requires i < |src| && src[i] == '\"' && StrBody(src, i + 1) == Some((s, e))
    ensures Step(src, i, out) == Token(StrTok(s), e + 1)
  {
  }

  lemma QuoteBody(src: string, i: nat, body: string)
    requires At(src, i, "\"" + body + "\"")
    ensures src[i] == '\"' && At(src, i + 1, body + "\"")
  {
    assert "\"" + body + "\"" == "\"" + (body + "\"");
    AtConcat(src, i, "\"", body + "\"");
    AtEach(src, i, "\"");
  }

  lemma StepString(src: string, i: nat, out: seq<Tok>, s: string)
    requires Writable(StrTok(s)) && At(src, i, Text(StrTok(s)))
    ensures Step(src, i, out) == Token(StrTok(s), i + |Text(StrTok(s))|)
  {
    QuoteBody(src, i, EscapeSource(s));
    StrBodyAt(src, i + 1, s);
    StepQuote(src, i, out, s, i + 1 + |EscapeSource(s)|);
  }

  predicate IsSymbol(t: Tok) { !t.Ident? && !IsNumber(t) && !t.StrTok? }

  lemma SymbolReads(t: Tok)
    requires IsSymbol(t)
    ensures var a := Symbol(t);
      1 <= |a| <= 2 && !IsWs(a[0]) && !IsIdPart(a[0]) && a[0] != '#' && a[0] != '\"' && (|a| == 2 ==> a[0] != '-')
    ensures var a := Symbol(t);
      Some(t) == if |a| == 2 then Operator2(a[0], a[1]) else Operator1(a[0])
  {
  }

  lemma StepOperator(src: string, i: nat, out: seq<Tok>, t: Tok, n: nat)
    requires 1 <= n <= 2 && i + n < |src| && (n == 1 ==> src[i + 1] == ' ') && (n == 2 ==> src[i] != '-')
    requires !IsWs(src[i]) && !IsIdPart(src[i]) && src[i] != '#' && src[i] != '\"'
    requires Some(t) == if n == 2 then Operator2(src[i], src[i + 1]) else Operator1(src[i])
    ensures Step(src, i, out) == Token(t, i + n)
  {
    assert !StartsNumber(src, i, out);
  }

  lemma StepSymbol(src: string, i: nat, out: seq<Tok>, t: Tok)
    requires IsSymbol(t)
    requires At(src, i, Symbol(t)) && i + |Symbol(t)| < |src| && src[i + |Symbol(t)|] == ' '
    ensures Step(src, i, out) == Token(t, i + |Symbol(t)|)
  {
    var a := Symbol(t);
    SymbolReads(t);
    AtEach(src, i, a);
    if |a| == 2 { assert src[i + 1] == a[1]; }
    StepOperator(src, i, out, t, |a|);
  }

  lemma StepToken(src: string, i: nat, out: seq<Tok>, t: Tok)
    requires Writable(t) && !Misplaced(t, out)
    requires At(src, i, Text(t)) && i + |Text(t)| < |src| && src[i + |Text(t)|] == ' '
    ensures Step(src, i, out) == Token(t, i + |Text(t)|)
  {
    match t {
      case Ident(s) => StepIdent(src, i, out, s);
      case IntTok(_) => StepNumber(src, i, out, t);
      case FloatTok(_) => StepNumber(src, i, out, t);
      case StrTok(s) => StepString(src, i, out, s);
      case _ => StepSymbol(src, i, out, t);
    }
  }

  /** At `i` the lexer reads `t` from `a`, or, where its sign is out of place, an operator and then a number if anything. */
  predicate ReadAt(src: string, i: nat, out: seq<Tok>, t: Tok, a: string) {
    var e := i + |a|;
    i + 1 < |src| && i < e < |src| &&
    if Misplaced(t, out) then
      Step(src, i, out) == Token(Minus, i + 1)
      && var r := Step(src, i + 1, out + [Minus]); r.Bad? || (r.Token? && r.next == e)
    else Step(src, i, out) == Token(t, e)
  }

  /** So wherever `a` stands with a space behind it. */
  ghost predicate Reads(a: string, t: Tok) {
    forall src: string, i: nat, out: seq<Tok> | At(src, i, a) && i + |a| < |src| && src[i + |a|] == ' ' :: ReadAt(src, i, out, t, a)
  }

  lemma TextReads(t: Tok)
    requires Writable(t)
    ensures Reads(Text(t), t)
  {
    var a := Text(t);
    forall src: string, i: nat, out: seq<Tok> | At(src, i, a) && i + |a| < |src| && src[i + |a|] == ' '
      ensures ReadAt(src, i, out, t, a)
    {
      TextReadAt(src, i, out, t);
    }
  }

  lemma TextReadAt(src: string, i: nat, out: seq<Tok>, t: Tok)
    requires Writable(t) && At(src, i, Text(t)) && i + |Text(t)| < |src| && src[i + |Text(t)|] == ' '
    ensures ReadAt(src, i, out, t, Text(t))
  {
    if Misplaced(t, out) {
      NumberShaped(t);
      MisplacedText(src, i, out, Magnitude(t));
    } else {
      StepToken(src, i, out, t);
    }
  }

  ghost predicate AllRead(texts: seq<string>, ts: seq<Tok>) {
    |texts| == |ts| && (ts == [] || (Reads(texts[0], ts[0]) && AllRead(texts[1..], ts[1..])))
  }

  lemma {:induction false} TextsRead(ts: seq<Tok>)
    requires AllWritable(ts)
    ensures AllRead(Texts(ts), ts)
  {
    if ts != [] {
      TextReads(ts[0]);
      TextsRead(ts[1..]);
    }
  }

  // ---------- all tokens ----------

  lemma SpacedAt(src: string, i: nat, a: string, r: string)
    requires At(src, i, a + " " + r)
    ensures At(src, i, a) && i + |a| < |src| && src[i + |a|] == ' ' && At(src, i + |a| + 1, r)
  {
    AtConcat(src, i, a + " ", r);
    AtConcat(src, i, a, " ");
    AtEach(src, i + |a|, " ");
  }

  lemma StepSpace(src: string, i: nat, out: seq<Tok>)
    requires i < |src| && src[i] == ' '
    ensures LexFrom(src, i, out) == LexFrom(src, i + 1, out)
  {
  }

  /** More minus signs than `n`, if anything. */
  predicate Extra(r: Option<seq<Tok>>, n: nat) { r.Some? ==> Minuses(r.value) > n }

  lemma LexToken(src: string, i: nat, out: seq<Tok>, t: Tok, e: nat)
    requires i < e <= |src| && Step(src, i, out) == Token(t, e)
    ensures LexFrom(src, i, out) == LexFrom(src, e, out + [t])
  {
  }

  lemma TwoSteps(src: string, i: nat, out: seq<Tok>, e: nat) returns (u: Tok)
    requires i + 1 < e < |src| && src[e] == ' ' && Step(src, i, out) == Token(Minus, i + 1)
    requires var r := Step(src, i + 1, out + [Minus]); r.Bad? || (r.Token? && r.next == e)
    ensures LexFrom(src, i, out).None? || LexFrom(src, i, out) == LexFrom(src, e + 1, out + [Minus] + [u])
  {
    LexToken(src, i, out, Minus, i + 1);
    var s := Step(src, i + 1, out + [Minus]);
    u := if s.Token? then s.tok else Minus;
    if s.Token? {
      LexToken(src, i + 1, out + [Minus], u, e);
      StepSpace(src, e, out + [Minus] + [u]);
    }
  }

  lemma SpacedReads(src: string, i: nat, out: seq<Tok>, t: Tok, a: string, r: string)
    requires Reads(a, t) && At(src, i, a + " " + r)
    ensures ReadAt(src, i, out, t, a) && src[i + |a|] == ' ' && At(src, i + |a| + 1, r)
  {
    SpacedAt(src, i, a, r);
  }

  lemma LexPlaced(src: string, i: nat, out: seq<Tok>, t: Tok, a: string)
    requires !Misplaced(t, out) && ReadAt(src, i, out, t, a) && src[i + |a|] == ' '
    ensures LexFrom(src, i, out) == LexFrom(src, i + |a| + 1, out + [t])
  {
    LexToken(src, i, out, t, i + |a|);
    StepSpace(src, i + |a|, out + [t]);
  }

  lemma LexMisplaced(src: string, i: nat, out: seq<Tok>, t: Tok, a: string) returns (u: Tok)
    requires Misplaced(t, out) && ReadAt(src, i, out, t, a) && src[i + |a|] == ' ' && |a| > 1
    ensures LexFrom(src, i, out).None? || LexFrom(src, i, out) == LexFrom(src, i + |a| + 1, out + [Minus] + [u])
  {
    u := TwoSteps(src, i, out, i + |a|);
  }

  /** `out` and all of `ts` exactly, or more minus signs than they have. */
  predicate Relexed(r: Option<seq<Tok>>, out: seq<Tok>, ts: seq<Tok>) {
    if SignsPlaced(out, ts) then r == Some(out + ts) else Extra(r, Minuses(out) + Minuses(ts))
  }

  lemma MinusesSnoc(out: seq<Tok>, t: Tok)
    ensures Minuses(out + [t]) == Minuses(out) + if t == Minus then 1 else 0
  {
    CountConcat(Minus, out, [t]);
    One(t);
  }

  lemma {:induction false} LexTexts(src: string, i: nat, out: seq<Tok>, texts: seq<string>, ts: seq<Tok>)
    requires AllRead(texts, ts) && At(src, i, Spaced(texts)) && i + |Spaced(texts)| == |src|
    ensures Relexed(LexFrom(src, i, out), out, ts)
    decreases |ts|
  {
    if ts == [] {
      assert out + ts == out;
    } else {
      var t, a := ts[0], texts[0];
      var e := i + |a| + 1;
      SpacedReads(src, i, out, t, a, Spaced(texts[1..]));
      if Misplaced(t, out) {
        var u := LexMisplaced(src, i, out, t, a);
        LexTexts(src, e, out + [Minus] + [u], texts[1..], ts[1..]);
        OneExtra(LexFrom(src, e, out + [Minus] + [u]), out, u, ts);
      } else {
        LexPlaced(src, i, out, t, a);
        LexTexts(src, e, out + [t], texts[1..], ts[1..]);
        OnePlaced(LexFrom(src, e, out + [t]), out, ts);
      }
    }
  }

  lemma OnePlaced(r: Option<seq<Tok>>, out: seq<Tok>, ts: seq<Tok>)
    requires ts != [] && Relexed(r, out + [ts[0]], ts[1..]) && !Misplaced(ts[0], out)
    ensures Relexed(r, out, ts)
  {
    assert out + [ts[0]] + ts[1..] == out + ts;
    MinusesSnoc(out, ts[0]);
  }

  /** A minus sign and a number in place of a negative number. */
  lemma OneExtra(r: Option<seq<Tok>>, out: seq<Tok>, u: Tok, ts: seq<Tok>)
    requires ts != [] && Misplaced(ts[0], out) && Relexed(r, out + [Minus] + [u], ts[1..])
    ensures Relexed(None, out, ts) && Relexed(r, out, ts)
  {
    MinusesSnoc(out, Minus);
    MinusesSnoc(out + [Minus], u);
    CountConcat(Minus, out + [Minus] + [u], ts[1..]);
  }

  lemma RenderedLexes(ts: seq<Tok>)
    requires AllWritable(ts)
    ensures SignsPlaced([], ts) ==> Lex(Render(ts)) == Some(ts)
    ensures !SignsPlaced([], ts) ==> Extra(Lex(Render(ts)), Minuses(ts))
  {
    AtStart(Render(ts));
    TextsRead(ts);
    LexTexts(Render(ts), 0, [], Texts(ts), ts);
    assert [] + ts == ts;
  }

  /**
   * Rendered tokens lex back to themselves exactly when every negative number stands where the
   * lexer takes a minus sign for a sign: first, or after an opening bracket, a comma, a colon
   * or an assignment.
   */
  lemma LexUndoesRender(ts: seq<Tok>)
    requires AllWritable(ts)
    ensures Lex(Render(ts)) == Some(ts) <==> SignsPlaced([], ts)
  {
    RenderedLexes(ts);
  }

  /** Source text, lexed and parsed, is the program it was written from exactly under the same condition. */
  lemma SourceRoundTrip(ss: seq<Stmt>)
    requires PrintableStmts(ss) && AllWritable(PrintStmts(ss))
    ensures var toks := Lex(Render(PrintStmts(ss)));
            (toks.Some? && ParseProgram(toks.value) == Some(Program(ss, UsesBelief(ss))))
            <==> SignsPlaced([], PrintStmts(ss))
  {
    var ts := PrintStmts(ss);
    var toks := Lex(Render(ts));
    RenderedLexes(ts);
    ParsingUndoesPrinting(ss);
    if toks.Some? && ParseProgram(toks.value) == Some(Program(ss, UsesBelief(ss))) {
      SameMinuses(toks.value);
    }
  }
}
