/** Exactly which token sequences the lexer can produce from ASCII source. */
module ChimeraLexable {
  import opened Common
  import opened Decimals
  import opened ChimeraSyntax
  import opened ChimeraLexer
  import opened ChimeraSource

  // ---------- every token read is writable ----------

  lemma {:induction false} WordParts(src: string, i: nat)
    requires i <= |src|
    ensures forall k :: i <= k < IdEnd(src, i) ==> IsIdPart(src[k])
    decreases |src| - i
  {
    if i < |src| && IsIdPart(src[i]) { WordParts(src, i + 1); }
  }

  lemma {:induction false} BodyAscii(src: string, i: nat)
    requires Ascii(src) && i <= |src| && StrBody(src, i).Some?
    ensures Ascii(StrBody(src, i).value.0)
    decreases |src| - i
  {
    if src[i] != '\"' {
      assert src[i] in src;
      if src[i] == '\\' && i + 1 < |src| {
        assert src[i + 1] in src;
        BodyAscii(src, i + 2);
      } else {
        BodyAscii(src, i + 1);
      }
    }
  }

  lemma WholeTen(f: real)
    requires Whole(f)
    ensures Whole(f * 10.0)
  {
    var n := f.Floor;
    assert f * 10.0 == (10 * n) as real;
    assert (f * 10.0).Floor == 10 * n;
  }

  lemma {:induction false} FitsMore(f: real, k: nat)
    requires Fits(f, k)
    ensures Fits(f, k + 1)
    decreases k
  {
    if k > 0 {
      FitsMore(f * 10.0, k - 1);
    } else {
      WholeTen(f);
      assert Fits(f * 10.0, 0);
    }
  }

  lemma {:induction false} FractionFits(digits: string)
    requires AllDigits(digits)
    ensures Fits(FractionValue(digits), |digits|) && FractionValue(digits) >= 0.0
  {
    if digits != [] {
      FractionFits(digits[1..]);
      var f := FractionValue(digits[1..]);
      FitsLess(f, -DigitValue(digits[0]), |digits| - 1);
      assert FractionValue(digits) * 10.0 == f - (-DigitValue(digits[0])) as real;
    } else {
      assert (0.0 as real).Floor == 0;
    }
  }

  lemma PointFinite(a: string, b: string)
    requires AllDigits(a) && AllDigits(b)
    ensures FiniteDecimal(PointValue(a, b)) && PointValue(a, b) >= 0.0
  {
    FractionFits(b);
    var n: int := DigitsValue(a);
    FitsLess(FractionValue(b), -n, |b|);
    FitsMore(PointValue(a, b), |b|);
    assert |b| + 1 > 0 && Fits(PointValue(a, b), |b| + 1);
  }

  lemma FractionWritable(text: string)
    requires ParseDecimal(text).Some?
    ensures var f := ParseDecimal(text).value; FiniteDecimal(Abs(f)) && (f < 0.0 ==> text != [] && text[0] == '-')
  {
    var u := Unsigned(text);
    var d := DotAt(u);
    PointFinite(u[..d], u[d + 1..]);
  }

  lemma NumberWritable(text: string)
    requires NumberTok(text).Some?
    ensures var t := NumberTok(text).value; Writable(t) && (IsNegative(t) ==> text != [] && text[0] == '-')
  {
    if '.' in text { FractionWritable(text); }
  }

  lemma StepWord(src: string, i: nat)
    requires i < |src| && IsIdStart(src[i])
    ensures IsWord(src[i..IdEnd(src, i + 1)])
  {
    WordParts(src, i + 1);
  }

  lemma StepNumberTok(src: string, i: nat, out: seq<Tok>, e: nat)
    requires i < e <= |src| && StartsNumber(src, i, out) && NumberTok(src[i..e]).Some?
    ensures var t := NumberTok(src[i..e]).value; Writable(t) && !Misplaced(t, out)
  {
    NumberWritable(src[i..e]);
  }

  /** A step yields a token that has a spelling, with any sign in its place. */
  lemma StepYields(src: string, i: nat, out: seq<Tok>)
    requires Ascii(src) && i < |src| && Step(src, i, out).Token?
    ensures var t := Step(src, i, out).tok; Writable(t) && !Misplaced(t, out)
  {
    if IsIdStart(src[i]) {
      StepWord(src, i);
    } else if StartsNumber(src, i, out) {
      StepNumberTok(src, i, out, NumEnd(src, i + 1));
    } else if src[i] == '\"' {
      BodyAscii(src, i + 1);
    } else {
      StepSign(src, i, out);
    }
  }

  lemma StepSign(src: string, i: nat, out: seq<Tok>)
    requires i < |src| && !IsIdStart(src[i]) && !StartsNumber(src, i, out) && src[i] != '\"' && Step(src, i, out).Token?
    ensures IsSymbol(Step(src, i, out).tok)
  {
  }

  /** What any output of the lexer is. */
  ghost predicate Lexable(ts: seq<Tok>) { AllWritable(ts) && SignsPlaced([], ts) }

  lemma {:induction false} WritableSnoc(ts: seq<Tok>, t: Tok)
    requires AllWritable(ts) && Writable(t)
    ensures AllWritable(ts + [t])
  {
    if ts == [] {
      assert [t][1..] == [];
    } else {
      WritableSnoc(ts[1..], t);
      assert (ts + [t])[1..] == ts[1..] + [t];
    }
  }

  lemma {:induction false} PlacedSnoc(before: seq<Tok>, ts: seq<Tok>, t: Tok)
    requires SignsPlaced(before, ts) && !Misplaced(t, before + ts)
    ensures SignsPlaced(before, ts + [t])
    decreases |ts|
  {
    if ts == [] {
      assert before + ts == before && [t][1..] == [];
    } else {
      assert before + [ts[0]] + ts[1..] == before + ts;
      PlacedSnoc(before + [ts[0]], ts[1..], t);
      assert (ts + [t])[1..] == ts[1..] + [t];
    }
  }

  lemma {:induction false} LexesLexable(src: string, i: nat, out: seq<Tok>)
    requires Ascii(src) && i <= |src| && Lexable(out) && LexFrom(src, i, out).Some?
    ensures Lexable(LexFrom(src, i, out).value)
    decreases |src| - i
  {
    if i < |src| {
      match Step(src, i, out) {
        case Bad =>
        case Skipped(n) => LexesLexable(src, n, out);
        case Token(t, n) =>
          StepYields(src, i, out);
          WritableSnoc(out, t);
          assert [] + out == out;
          PlacedSnoc([], out, t);
          LexesLexable(src, n, out + [t]);
      }
    }
  }

  // ---------- every writable token has an ASCII text ----------

  lemma {:induction false} DecimalAscii(n: nat)
    ensures Ascii(Decimal(n))
  {
    DecimalParses(n);
  }

  lemma {:induction false} PlacesAscii(f: real, k: nat)
    requires 0.0 <= f < 1.0
    ensures Ascii(Places(f, k))
    decreases k
  {
    if k > 0 { PlacesAscii(f * 10.0 - (f * 10.0).Floor as real, k - 1); }
  }

  lemma PointAscii(f: real, k: nat)
    requires f >= 0.0
    ensures Ascii(PointText(f, k))
  {
    DecimalAscii(f.Floor);
    PlacesAscii(f - f.Floor as real, k);
  }

  lemma {:induction false} EscapeAscii(s: string)
    requires Ascii(s)
    ensures Ascii(EscapeSource(s))
  {
    if s != [] {
      assert s[0] in s && forall c | c in s[1..] :: c in s;
      EscapeAscii(s[1..]);
    }
  }

  lemma MagnitudeAscii(t: Tok)
    requires IsNumber(t) && Writable(t)
    ensures Ascii(Magnitude(t))
  {
    if t.IntTok? {
      DecimalAscii(if t.n < 0 then -t.n else t.n);
    } else {
      var k: nat :| k > 0 && Fits(Abs(t.f), k) && Magnitude(t) == PointText(Abs(t.f), k);
      PointAscii(Abs(t.f), k);
    }
  }

  lemma TextAscii(t: Tok)
    requires Writable(t)
    ensures Ascii(Text(t))
  {
    if IsNumber(t) {
      MagnitudeAscii(t);
    } else if t.StrTok? {
      EscapeAscii(t.s);
    }
  }

  lemma {:induction false} RenderAscii(ts: seq<Tok>)
    requires AllWritable(ts)
    ensures Ascii(Render(ts))
  {
    if ts != [] {
      TextAscii(ts[0]);
      RenderAscii(ts[1..]);
      assert Texts(ts)[1..] == Texts(ts[1..]);
    }
  }

  // ---------- the range of the lexer ----------

  /**
   * A token sequence is the lexing of some ASCII source exactly when every token has a spelling
   * and every negative number stands where a minus sign is a sign.
   */
  lemma LexRange(ts: seq<Tok>)
    ensures (exists src :: Ascii(src) && Lex(src) == Some(ts)) <==> Lexable(ts)
  {
    if Lexable(ts) {
      LexUndoesRender(ts);
      RenderAscii(ts);
    }
    if src :| Ascii(src) && Lex(src) == Some(ts) {
      LexesLexable(src, 0, []);
    }
  }

  /** Spacing, comments, escapes and number formats carry nothing: the tokens of a source, rendered, lex the same. */
  lemma RenderingNormalises(src: string)
    requires Ascii(src) && Lex(src).Some?
    ensures AllWritable(Lex(src).value) && Lex(Render(Lex(src).value)) == Lex(src)
  {
    LexesLexable(src, 0, []);
    LexUndoesRender(Lex(src).value);
  }
}
