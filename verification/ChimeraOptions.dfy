/**
 * What the parts of a ChimeraLang source mean that a printed program never has: option blocks in
 * any order and number, absent options, comments, and escaped characters.
 */
module ChimeraOptions {
  import opened Common
  import opened ChimeraSyntax
  import opened ChimeraRoundTrip
  import opened ChimeraLexer

  // ---------- numeric options ----------

  /** `key: value`, with or without a comma behind it. */
  datatype Opt = Opt(key: string, value: Tok, comma: bool)

  function Written(opts: seq<Opt>): seq<Tok> {
    if opts == [] then [] else OneWritten(opts[0]) + Written(opts[1..])
  }

  function OneWritten(o: Opt): seq<Tok> {
    [Ident(o.key), Colon, o.value] + (if o.comma then [Comma] else [])
  }

  predicate Numeric(t: Tok) { t.IntTok? || t.FloatTok? }

  /** A number is an option, a word is passed over. */
  predicate Accepted(o: Opt) { Numeric(o.value) || o.value.Ident? }

  predicate AllAccepted(opts: seq<Opt>) { forall i | 0 <= i < |opts| :: Accepted(opts[i]) }

  function ValueOf(t: Tok): real
    requires Numeric(t)
  {
    if t.IntTok? then t.n as real else t.f
  }

  /** The last number given for this key, or else the default. */
  function Given(opts: seq<Opt>, key: string, default: real): real {
    if opts == [] then default
    else
      var last := opts[|opts| - 1];
      if last.key == key && Numeric(last.value) then ValueOf(last.value) else Given(opts[..|opts| - 1], key, default)
  }

  lemma {:induction false} GivenFirst(opts: seq<Opt>, key: string, default: real)
    requires opts != []
    ensures Given(opts, key, default) ==
      Given(opts[1..], key, if opts[0].key == key && Numeric(opts[0].value) then ValueOf(opts[0].value) else default)
  {
    var init := opts[..|opts| - 1];
    if |opts| > 1 {
      assert opts[1..][..|opts[1..]| - 1] == init[1..];
      GivenFirst(init, key, default);
    }
  }

  /** What one option makes of the block. */
  lemma KvStep(kv: map<string, real>, o: Opt, ts: seq<Tok>)
    requires ts != [] && ts[0] != Comma
    ensures ParseKvs(kv, OneWritten(o) + ts) ==
      if Numeric(o.value) then ParseKvs(kv[o.key := ValueOf(o.value)], ts)
      else if o.value.Ident? then ParseKvs(kv, ts)
      else Fail
  {
    var all := OneWritten(o) + ts;
    assert all[0] == Ident(o.key) && all[1] == Colon && all[2] == o.value;
    assert all[3..] == if o.comma then [Comma] + ts else ts;
    assert SkipComma(all[3..]) == ts;
  }

  lemma NotComma(opts: seq<Opt>, rest: seq<Tok>)
    ensures Written(opts) + ([RBrace] + rest) != [] && (Written(opts) + ([RBrace] + rest))[0] != Comma
  {
  }

  lemma {:induction false} KvsRead(kv: map<string, real>, opts: seq<Opt>, rest: seq<Tok>, key: string, default: real)
    ensures var r := ParseKvs(kv, Written(opts) + ([RBrace] + rest));
      && (r.Got? <==> AllAccepted(opts))
      && (r.Got? ==> r.rest == rest && Lookup(r.value, key, default) == Given(opts, key, Lookup(kv, key, default)))
    decreases |opts|
  {
    if opts == [] {
      assert Written(opts) + ([RBrace] + rest) == [RBrace] + rest;
      Cut([RBrace], rest);
    } else {
      var o, tail := opts[0], Written(opts[1..]) + ([RBrace] + rest);
      NotComma(opts[1..], rest);
      KvStep(kv, o, tail);
      Assoc(OneWritten(o), Written(opts[1..]), [RBrace] + rest);
      AcceptedFirst(opts);
      if Accepted(o) {
        KvsRead(if Numeric(o.value) then kv[o.key := ValueOf(o.value)] else kv, opts[1..], rest, key, default);
        GivenFirst(opts, key, Lookup(kv, key, default));
      }
    }
  }

  lemma AcceptedFirst(opts: seq<Opt>)
    requires opts != []
    ensures AllAccepted(opts) <==> Accepted(opts[0]) && AllAccepted(opts[1..])
  {
    if Accepted(opts[0]) && AllAccepted(opts[1..]) {
      forall i | 0 <= i < |opts|
        ensures Accepted(opts[i])
      {
        if i > 0 { assert opts[i] == opts[1..][i - 1]; }
      }
    }
  }

  function Block(kw: string, x: string, a: string, b: string, opts: seq<Opt>, rest: seq<Tok>): seq<Tok> {
    [Ident(kw), Ident(x), Ident(a), Ident(b), LBrace] + (Written(opts) + ([RBrace] + rest))
  }

  lemma BlockRead(kw: string, x: string, a: string, b: string, opts: seq<Opt>, rest: seq<Tok>, key: string, default: real)
    ensures var ts := Block(kw, x, a, b, opts, rest); var r := OptionBlock(ts, a, b);
      && ts[0] == Ident(kw) && ts[1] == Ident(x) && (r.Got? <==> AllAccepted(opts))
      && (r.Got? ==> r.rest == rest && Lookup(r.value, key, default) == Given(opts, key, default))
  {
    BlockParses(kw, x, a, b, Written(opts) + ([RBrace] + rest));
    KvsRead(map[], opts, rest, key, default);
  }

  lemma BlockParses(kw: string, x: string, a: string, b: string, body: seq<Tok>)
    ensures OptionBlock([Ident(kw), Ident(x), Ident(a), Ident(b), LBrace] + body, a, b) == ParseKvs(map[], body)
  {
    Cut([Ident(kw), Ident(x), Ident(a), Ident(b), LBrace], body);
  }

  /** Truncated toward zero into 32 bits. */
  predicate TruncatesTo(v: real, n: u32) {
    if v < 0.0 then n == 0 else if v >= 4294967296.0 then n == 4294967295 else n as real <= v < n as real + 1.0
  }

  /**
   * `resolve`, `guard` and `evolve` take options in any order: the last number given for the one
   * they know counts, 0.8, 0.2 and 3 if there is none; others and word values mean nothing. A value
   * that is neither number nor word is an error.
   */
  lemma OptionsRead(x: string, opts: seq<Opt>, rest: seq<Tok>)
    ensures ParseStmt(Block("resolve", x, "with", "consensus", opts, rest)) ==
      if AllAccepted(opts) then Got(Resolve(x, Given(opts, "threshold", 0.8)), rest) else Fail
    ensures ParseStmt(Block("guard", x, "against", "hallucination", opts, rest)) ==
      if AllAccepted(opts) then Got(Guard(x, Given(opts, "max_risk", 0.2)), rest) else Fail
    ensures EvolveAs(ParseStmt(Block("evolve", x, "until", "stable", opts, rest)), x, opts, rest)
  {
    ResolveRead(x, opts, rest);
    GuardRead(x, opts, rest);
    EvolveRead(x, opts, rest);
  }

  lemma ResolveRead(x: string, opts: seq<Opt>, rest: seq<Tok>)
    ensures ParseStmt(Block("resolve", x, "with", "consensus", opts, rest)) ==
      if AllAccepted(opts) then Got(Resolve(x, Given(opts, "threshold", 0.8)), rest) else Fail
  {
    BlockRead("resolve", x, "with", "consensus", opts, rest, "threshold", 0.8);
    DispatchOption(Block("resolve", x, "with", "consensus", opts, rest));
  }

  lemma GuardRead(x: string, opts: seq<Opt>, rest: seq<Tok>)
    ensures ParseStmt(Block("guard", x, "against", "hallucination", opts, rest)) ==
      if AllAccepted(opts) then Got(Guard(x, Given(opts, "max_risk", 0.2)), rest) else Fail
  {
    BlockRead("guard", x, "against", "hallucination", opts, rest, "max_risk", 0.2);
    DispatchOption(Block("guard", x, "against", "hallucination", opts, rest));
  }

  predicate EvolveAs(r: Parsed<Stmt>, x: string, opts: seq<Opt>, rest: seq<Tok>) {
    if AllAccepted(opts) then
      r.Got? && r.rest == rest && r.value.Evolve? && r.value.name == x && TruncatesTo(Given(opts, "max_iter", 3.0), r.value.maxIter)
    else r == Fail
  }

  lemma EvolveRead(x: string, opts: seq<Opt>, rest: seq<Tok>)
    ensures EvolveAs(ParseStmt(Block("evolve", x, "until", "stable", opts, rest)), x, opts, rest)
  {
    BlockRead("evolve", x, "until", "stable", opts, rest, "max_iter", 3.0);
    DispatchOption(Block("evolve", x, "until", "stable", opts, rest));
    Truncates(Given(opts, "max_iter", 3.0));
  }

  lemma Truncates(v: real)
    ensures TruncatesTo(v, ToU32(v))
  {
  }

  // ---------- the fields of a belief ----------

  datatype Field = Prompt(s: string) | Agents(names: seq<string>) | Ttl(n: int)

  /** A field and whether a comma follows. */
  type Fields = seq<(Field, bool)>

  function FieldToks(f: Field): seq<Tok> {
    match f
    case Prompt(s) => [Ident("prompt"), Colon, StrTok(s)]
    case Agents(names) => [Ident("agents"), Colon, LBracket] + (PrintAgents(names) + [RBracket])
    case Ttl(n) => [Ident("ttl"), Colon, IntTok(n)]
  }

  function FieldsWritten(fs: Fields): seq<Tok> {
    if fs == [] then [] else FieldToks(fs[0].0) + (if fs[0].1 then [Comma] else []) + FieldsWritten(fs[1..])
  }

  function With(q: Inquiry, f: Field): Inquiry {
    match f
    case Prompt(s) => q.(prompt := s)
    case Agents(names) => q.(agents := q.agents + names)
    case Ttl(n) => q.(ttl := if n < 0 then 0 else n)
  }

  /** The last prompt, the agents of all lists, and the last time to live, which is at least 0. */
  function Meant(q: Inquiry, fs: Fields): Inquiry {
    if fs == [] then q else With(Meant(q, fs[..|fs| - 1]), fs[|fs| - 1].0)
  }

  lemma {:induction false} MeantFirst(q: Inquiry, fs: Fields)
    requires fs != []
    ensures Meant(q, fs) == Meant(With(q, fs[0].0), fs[1..])
  {
    var init := fs[..|fs| - 1];
    if |fs| > 1 {
      assert fs[1..][..|fs[1..]| - 1] == init[1..];
      MeantFirst(q, init);
    }
  }

  /** What one field makes of the block. */
  lemma FieldStep(q: Inquiry, f: Field, comma: bool, ts: seq<Tok>)
    requires ts != [] && ts[0] != Comma
    ensures ParseFields(q, FieldToks(f) + ((if comma then [Comma] else []) + ts)) == ParseFields(With(q, f), ts)
  {
    var after := (if comma then [Comma] else []) + ts;
    assert SkipComma(after) == ts;
    if f.Agents? {
      AgentsStep(q, f.names, after);
    } else {
      ValueStep(q, f, FieldToks(f) + after, after);
    }
  }

  lemma ValueStep(q: Inquiry, f: Field, all: seq<Tok>, after: seq<Tok>)
    requires !f.Agents? && all == FieldToks(f) + after
    ensures ParseFields(q, all) == ParseFields(With(q, f), SkipComma(after))
  {
    assert all[3..] == after;
    assert all[0] == FieldToks(f)[0] && all[1] == Colon && all[2] == FieldToks(f)[2];
  }

  lemma Regrouped(a: seq<Tok>, b: seq<Tok>, c: seq<Tok>, d: seq<Tok>)
    ensures a + (b + c) + d == a + (b + (c + d))
  {
  }

  lemma AgentsStep(q: Inquiry, names: seq<string>, after: seq<Tok>)
    ensures ParseFields(q, FieldToks(Agents(names)) + after) == ParseFields(q.(agents := q.agents + names), SkipComma(after))
  {
    var front, list := [Ident("agents"), Colon, LBracket], PrintAgents(names) + ([RBracket] + after);
    AgentsParse(q.agents, names, after);
    Cut(front, list);
    Regrouped(front, PrintAgents(names), [RBracket], after);
    AgentsField(q, front + list, q.agents + names, after);
  }

  lemma {:induction false} FieldsRead(q: Inquiry, fs: Fields, rest: seq<Tok>)
    ensures ParseFields(q, FieldsWritten(fs) + ([RBrace] + rest)) == Got(Meant(q, fs), rest)
    decreases |fs|
  {
    if fs == [] {
      assert FieldsWritten(fs) + ([RBrace] + rest) == [RBrace] + rest;
      Cut([RBrace], rest);
    } else {
      var tail := FieldsWritten(fs[1..]) + ([RBrace] + rest);
      FieldStep(q, fs[0].0, fs[0].1, tail);
      FieldsRegroup(FieldToks(fs[0].0), if fs[0].1 then [Comma] else [], FieldsWritten(fs[1..]), [RBrace] + rest);
      FieldsRead(With(q, fs[0].0), fs[1..], rest);
      MeantFirst(q, fs);
    }
  }

  lemma FieldsRegroup(a: seq<Tok>, b: seq<Tok>, c: seq<Tok>, d: seq<Tok>)
    ensures a + b + c + d == a + (b + (c + d))
  {
  }

  /** A belief takes its fields in any order and number; lists of agents add up, of the others the last one counts. */
  lemma BeliefRead(x: string, fs: Fields, rest: seq<Tok>)
    ensures var q := Meant(Inquiry("", [], 0), fs);
      ParseStmt([Ident("belief"), Ident(x), ColonAssign, Ident("inquire"), LBrace] + (FieldsWritten(fs) + ([RBrace] + rest))) ==
        Got(Belief(x, q.prompt, q.agents, q.ttl), rest)
  {
    var ts := [Ident("belief"), Ident(x), ColonAssign, Ident("inquire"), LBrace] + (FieldsWritten(fs) + ([RBrace] + rest));
    assert ts[4..][0] == LBrace && ts[4..][1..] == FieldsWritten(fs) + ([RBrace] + rest);
    FieldsRead(Inquiry("", [], 0), fs, rest);
  }

  // ---------- commas in lists ----------

  /** The items of a list, each with or without a comma behind it. */
  function ItemsWritten(items: seq<Expr>, commas: seq<bool>): seq<Tok>
    requires |commas| == |items|
  {
    if items == [] then []
    else Print(0, items[0]) + ((if commas[0] then [Comma] else []) + ItemsWritten(items[1..], commas[1..]))
  }

  /** A token that begins an expression continues none. */
  predicate Begins(t: Tok) { t.IntTok? || t.FloatTok? || t.StrTok? || t.Ident? || t == LParen || t == LBracket }

  lemma {:induction false} PrintBegins(level: nat, e: Expr)
    requires level <= 3
    ensures Print(level, e) != [] && Begins(Print(level, e)[0])
    decreases e, if level > Level(e) then 1 else 0
  {
    if level > Level(e) {
    } else if e.Binary? {
      PrintBegins(OpLevel(e.op), e.lhs);
    } else if e.Member? {
      PrintBegins(3, e.base);
    }
  }

  lemma ItemsBegin(items: seq<Expr>, commas: seq<bool>, rest: seq<Tok>)
    requires |commas| == |items|
    ensures var ts := ItemsWritten(items, commas) + ([RBracket] + rest);
      ts != [] && (if items == [] then ts == [RBracket] + rest else Begins(ts[0]))
  {
    if items != [] { PrintBegins(0, items[0]); }
  }

  lemma CommaStops(comma: bool, more: seq<Tok>)
    requires more != [] && (Begins(more[0]) || more[0] == RBracket)
    ensures var after := (if comma then [Comma] else []) + more; SkipComma(after) == more && Stops(0, after)
  {
  }

  /** All commas of a list may be left out, and one may follow the last item. */
  lemma {:induction false} CommasOptional(items: seq<Expr>, commas: seq<bool>, rest: seq<Tok>)
    requires |commas| == |items| && PrintableItems(items)
    ensures ParseItems(ItemsWritten(items, commas) + ([RBracket] + rest)) == Got(items, rest)
    decreases |items|
  {
    var close := [RBracket] + rest;
    if items == [] {
      assert ItemsWritten(items, commas) + close == close;
      Cut([RBracket], rest);
    } else {
      var e, more := items[0], ItemsWritten(items[1..], commas[1..]) + close;
      var after := (if commas[0] then [Comma] else []) + more;
      ItemsBegin(items[1..], commas[1..], rest);
      PrintBegins(0, e);
      CommaStops(commas[0], more);
      OperandParses(0, e, after);
      CommasOptional(items[1..], commas[1..], rest);
      Regrouped(Print(0, e), if commas[0] then [Comma] else [], ItemsWritten(items[1..], commas[1..]), close);
      ItemStep(Print(0, e) + after, e, after, items[1..], rest);
      assert items == [e] + items[1..];
    }
  }

  // ---------- blanks, comments and escapes ----------

  /** Outside of a token, exactly space, tab, newline, carriage return and form feed are passed over by themselves. */
  lemma BlanksSkipped(src: string, i: nat, out: seq<Tok>)
    requires i < |src| && src[i] != '#'
    ensures Step(src, i, out).Skipped? <==> src[i] as int in {32, 9, 10, 13, 12}
    ensures Step(src, i, out).Skipped? ==> LexFrom(src, i, out) == LexFrom(src, i + 1, out)
  {
  }

  /** A comment is passed over up to the end of its line, whatever is in it. */
  lemma CommentEndsWithLine(src: string, i: nat, n: nat, out: seq<Tok>)
    requires i < n <= |src| && src[i] == '#' && (forall j | i <= j < n :: src[j] != '\n') && (n == |src| || src[n] == '\n')
    ensures LexFrom(src, i, out) == LexFrom(src, n, out)
  {
    LineEndIs(src, i + 1, n);
  }

  lemma {:induction false} LineEndIs(src: string, i: nat, n: nat)
    requires i <= n <= |src| && (forall j | i <= j < n :: src[j] != '\n') && (n == |src| || src[n] == '\n')
    ensures LineEnd(src, i) == n
    decreases n - i
  {
    if i < n { LineEndIs(src, i + 1, n); }
  }

  /** An escaped `n` is a newline, an escaped `t` a tab, and any other escaped character is itself. */
  lemma EscapesMean(c: char)
    ensures Lex(['\"', '\\', c, '\"']) == Some([StrTok([if c == 'n' then '\n' else if c == 't' then '\t' else c])])
  {
    var src := ['\"', '\\', c, '\"'];
    assert StrBody(src, 3) == Some(([], 3)) && [Unescaped(c)] + [] == [Unescaped(c)];
    assert StrBody(src, 1) == Some(([Unescaped(c)], 3));
    assert Step(src, 0, []) == Token(StrTok([Unescaped(c)]), 4);
    var out: seq<Tok> := [];
    assert out + [StrTok([Unescaped(c)])] == [StrTok([Unescaped(c)])];
    assert LexFrom(src, 0, out) == LexFrom(src, 4, out + [StrTok([Unescaped(c)])]);
  }
}
