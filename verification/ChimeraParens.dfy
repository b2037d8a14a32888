/**
 * What a token sequence must have to parse to a program: at least as many opening parentheses as
 * the printed form, so the printer wastes none, and exactly as many minus signs as there are
 * subtractions.
 */
module ChimeraParens {
  import opened Common
  import opened ChimeraSyntax

  function Count(t: Tok, ts: seq<Tok>): nat {
    if ts == [] then 0 else (if ts[0] == t then 1 else 0) + Count(t, ts[1..])
  }

  function Parens(ts: seq<Tok>): nat { Count(LParen, ts) }

  function Minuses(ts: seq<Tok>): nat { Count(Minus, ts) }

  /** Parentheses around an expression where `level` is expected, and inside it. */
  function Need(level: nat, e: Expr): nat
    decreases e, 1
  {
    (if level > Level(e) then 1 else 0) + Inside(e)
  }

  function Inside(e: Expr): nat
    decreases e, 0
  {
    match e
    case List(items) => NeedItems(items)
    case Binary(op, l, r) => Need(OpLevel(op), l) + Need(OpLevel(op) + 1, r)
    case Member(b, _) => Need(3, b)
    case _ => 0
  }

  function NeedItems(items: seq<Expr>): nat {
    if items == [] then 0 else Need(0, items[0]) + NeedItems(items[1..])
  }

  function NeedStmt(s: Stmt): nat {
    match s
    case Val(_, e) => Need(0, e)
    case Emit(e) => Need(0, e)
    case For(_, e, body) => Need(0, e) + NeedStmts(body)
    case _ => 0
  }

  function NeedStmts(ss: seq<Stmt>): nat {
    if ss == [] then 0 else NeedStmt(ss[0]) + NeedStmts(ss[1..])
  }

  /** The subtractions in an expression, and in a program. */
  function Subs(e: Expr): nat
    decreases e
  {
    match e
    case List(items) => SubsItems(items)
    case Binary(op, l, r) => (if op == Sub then 1 else 0) + Subs(l) + Subs(r)
    case Member(b, _) => Subs(b)
    case _ => 0
  }

  function SubsItems(items: seq<Expr>): nat
    decreases items
  {
    if items == [] then 0 else Subs(items[0]) + SubsItems(items[1..])
  }

  function SubsStmt(s: Stmt): nat
    decreases s
  {
    match s
    case Val(_, e) => Subs(e)
    case Emit(e) => Subs(e)
    case For(_, e, body) => Subs(e) + SubsStmts(body)
    case _ => 0
  }

  function SubsStmts(ss: seq<Stmt>): nat
    decreases ss
  {
    if ss == [] then 0 else SubsStmt(ss[0]) + SubsStmts(ss[1..])
  }

  // ---------- what the printer uses ----------

  lemma {:induction false} CountConcat(t: Tok, a: seq<Tok>, b: seq<Tok>)
    ensures Count(t, a + b) == Count(t, a) + Count(t, b)
  {
    if a == [] {
      assert a + b == b;
    } else {
      CountConcat(t, a[1..], b);
      assert (a + b)[1..] == a[1..] + b;
    }
  }

  /** So many parentheses and minus signs. */
  predicate Has(ts: seq<Tok>, parens: nat, minuses: nat) { Parens(ts) == parens && Minuses(ts) == minuses }

  lemma HasConcat(a: seq<Tok>, b: seq<Tok>)
    ensures Has(a + b, Parens(a) + Parens(b), Minuses(a) + Minuses(b))
  {
    CountConcat(LParen, a, b);
    CountConcat(Minus, a, b);
  }

  lemma {:induction false} Words(ts: seq<Tok>)
    requires forall i | 0 <= i < |ts| :: ts[i] != LParen && ts[i] != Minus
    ensures Has(ts, 0, 0)
  {
    if ts != [] { Words(ts[1..]); }
  }

  lemma One(t: Tok)
    ensures Has([t], if t == LParen then 1 else 0, if t == Minus then 1 else 0)
  {
    assert [t][1..] == [];
    assert Count(LParen, []) == 0 && Count(Minus, []) == 0;
  }

  lemma Between(a: Tok, ts: seq<Tok>, b: Tok)
    requires a != Minus && b != LParen && b != Minus
    ensures Has([a] + ts + [b], (if a == LParen then 1 else 0) + Parens(ts), Minuses(ts))
  {
    HasConcat([a] + ts, [b]);
    HasConcat([a], ts);
    One(a);
    One(b);
  }

  lemma Infix(a: seq<Tok>, op: BinOp, b: seq<Tok>)
    ensures Has(a + [OpTok(op)] + b, Parens(a) + Parens(b), (if op == Sub then 1 else 0) + Minuses(a) + Minuses(b))
  {
    HasConcat(a + [OpTok(op)], b);
    HasConcat(a, [OpTok(op)]);
    One(OpTok(op));
  }

  /** The printed form of an expression has exactly the parentheses counted by `Need`, and a minus sign for each subtraction. */
  lemma {:induction false} PrintHas(level: nat, e: Expr)
    requires level <= 3
    ensures Has(Print(level, e), Need(level, e), Subs(e))
    decreases e, if level > Level(e) then 2 else 1
  {
    if level > Level(e) {
      PrintHas(0, e);
      Between(LParen, Print(0, e), RParen);
    } else {
      match e
      case List(items) => ItemsHave(items); Between(LBracket, PrintItems(items), RBracket);
      case Binary(op, l, r) => BinaryHas(level, e);
      case Member(b, f) => MemberHas(level, e);
      case _ => One(Print(level, e)[0]);
    }
  }

  lemma {:induction false} BinaryHas(level: nat, e: Expr)
    requires e.Binary? && level <= Level(e)
    ensures Has(Print(level, e), Need(level, e), Subs(e))
    decreases e, 0
  {
    var n := OpLevel(e.op);
    PrintHas(n, e.lhs);
    PrintHas(n + 1, e.rhs);
    Infix(Print(n, e.lhs), e.op, Print(n + 1, e.rhs));
  }

  lemma {:induction false} MemberHas(level: nat, e: Expr)
    requires e.Member? && level <= 3
    ensures Has(Print(level, e), Need(level, e), Subs(e))
    decreases e, 0
  {
    PrintHas(3, e.base);
    HasConcat(Print(3, e.base), [Dot, Ident(e.field)]);
    Words([Dot, Ident(e.field)]);
  }

  lemma {:induction false} ItemsHave(items: seq<Expr>)
    ensures Has(PrintItems(items), NeedItems(items), SubsItems(items))
    decreases items
  {
    if items != [] {
      PrintHas(0, items[0]);
      ItemsHave(items[1..]);
      if |items| == 1 {
        HasConcat(Print(0, items[0]), []);
      } else {
        HasConcat(Print(0, items[0]), [Comma] + PrintItems(items[1..]));
        HasConcat([Comma], PrintItems(items[1..]));
        One(Comma);
      }
    }
  }

  lemma {:induction false} AgentsHave(agents: seq<string>)
    ensures Has(PrintAgents(agents), 0, 0)
  {
    if agents != [] {
      AgentsHave(agents[1..]);
      One(Ident(agents[0]));
      One(Comma);
      HasConcat([Comma], PrintAgents(agents[1..]));
      HasConcat([Ident(agents[0])], if |agents| == 1 then [] else [Comma] + PrintAgents(agents[1..]));
    }
  }

  lemma HeadHas(head: seq<Tok>, e: Expr)
    requires forall i | 0 <= i < |head| :: head[i] != LParen && head[i] != Minus
    ensures Has(head + Print(0, e), Need(0, e), Subs(e))
  {
    Words(head);
    PrintHas(0, e);
    HasConcat(head, Print(0, e));
  }

  lemma BeliefHas(s: Stmt)
    requires s.Belief?
    ensures Has(PrintStmt(s), 0, 0)
  {
    var front := [Ident("belief"), Ident(s.name), ColonAssign, Ident("inquire"), LBrace,
                  Ident("prompt"), Colon, StrTok(s.prompt), Comma, Ident("agents"), Colon, LBracket];
    var back := [RBracket, Comma, Ident("ttl"), Colon, IntTok(s.ttl), RBrace];
    AgentsHave(s.agents);
    Words(front);
    Words(back);
    HasConcat(front + PrintAgents(s.agents), back);
    HasConcat(front, PrintAgents(s.agents));
  }

  lemma {:induction false} StmtHas(s: Stmt)
    ensures Has(PrintStmt(s), NeedStmt(s), SubsStmt(s))
    decreases s, 1
  {
    match s
    case Val(x, e) => HeadHas([Ident("val"), Ident(x), Assign], e);
    case Emit(e) => HeadHas([Ident("emit")], e);
    case For(_, _, _) => ForHas(s);
    case Belief(_, _, _, _) => BeliefHas(s);
    case _ => Words(PrintStmt(s));
  }

  lemma {:induction false} ForHas(s: Stmt)
    requires s.For?
    ensures Has(PrintStmt(s), NeedStmt(s), SubsStmt(s))
    decreases s, 0
  {
    var head := [Ident("for"), Ident(s.name), Ident("in")];
    HeadHas(head, s.iter);
    StmtsHave(s.body);
    One(Ident("end"));
    HasConcat(head + Print(0, s.iter) + PrintStmts(s.body), [Ident("end")]);
    HasConcat(head + Print(0, s.iter), PrintStmts(s.body));
  }

  lemma {:induction false} StmtsHave(ss: seq<Stmt>)
    ensures Has(PrintStmts(ss), NeedStmts(ss), SubsStmts(ss))
    decreases ss, 2
  {
    if ss != [] {
      StmtHas(ss[0]);
      StmtsHave(ss[1..]);
      HasConcat(PrintStmt(ss[0]), PrintStmts(ss[1..]));
    }
  }

  // ---------- what the parser needs ----------

  /** Between these two points at least so many parentheses were read, and exactly so many minus signs. */
  predicate Spent(ts: seq<Tok>, rest: seq<Tok>, parens: int, minuses: int) {
    Parens(ts) >= parens + Parens(rest) && Minuses(ts) == minuses + Minuses(rest)
  }

  lemma {:induction false} LevelSpends(level: nat, ts: seq<Tok>)
    requires level <= 3 && ParseLevel(level, ts).Got?
    ensures var r := ParseLevel(level, ts); Spent(ts, r.rest, Need(level, r.value), Subs(r.value))
    decreases |ts|, 10 - level
  {
    if level == 3 {
      PrimarySpends(ts);
      var r := ParsePrimary(ts);
      MembersSpend(r.value, r.rest);
      Then(ts, r.rest, Members(r.value, r.rest).rest, Need(3, r.value), Subs(r.value));
    } else {
      LevelSpends(level + 1, ts);
      var r := ParseLevel(level + 1, ts);
      ChainSpends(level, r.value, r.rest);
      Then(ts, r.rest, Chain(level, r.value, r.rest).rest, Need(level + 1, r.value), Subs(r.value));
      NeedFalls(level, r.value);
    }
  }

  lemma NeedFalls(level: nat, e: Expr)
    ensures Need(level, e) <= Need(level + 1, e)
  {
  }

  lemma {:induction false} ChainSpends(level: nat, lhs: Expr, ts: seq<Tok>)
    requires level < 3 && Chain(level, lhs, ts).Got?
    ensures var r := Chain(level, lhs, ts); Spent(ts, r.rest, Need(level, r.value) - Need(level, lhs), Subs(r.value) - Subs(lhs))
    decreases |ts|, 10
  {
    if ts != [] && OpAt(level, ts[0]).Some? {
      LevelSpends(level + 1, ts[1..]);
      var r := ParseLevel(level + 1, ts[1..]);
      var e := Binary(OpAt(level, ts[0]).value, lhs, r.value);
      OperatorSpends(level, lhs, ts, r.value, r.rest);
      ChainSpends(level, e, r.rest);
      Then(ts, r.rest, Chain(level, e, r.rest).rest, Need(level, e) - Need(level, lhs), Subs(e) - Subs(lhs));
    } else {
      Nothing(ts);
    }
  }

  lemma Nothing(ts: seq<Tok>)
    ensures Spent(ts, ts, 0, 0)
  {
  }

  /** Spending adds up. */
  lemma Then(ts: seq<Tok>, mid: seq<Tok>, rest: seq<Tok>, parens: int, minuses: int)
    requires Spent(ts, mid, parens, minuses)
    ensures forall p, m :: Spent(mid, rest, p, m) ==> Spent(ts, rest, parens + p, minuses + m)
  {
  }

  lemma OperatorSpends(level: nat, lhs: Expr, ts: seq<Tok>, rhs: Expr, rest: seq<Tok>)
    requires level < 3 && ts != [] && OpAt(level, ts[0]).Some?
    requires Spent(ts[1..], rest, Need(level + 1, rhs), Subs(rhs))
    ensures var e := Binary(OpAt(level, ts[0]).value, lhs, rhs);
      Spent(ts, rest, Need(level, e) - Need(level, lhs), Subs(e) - Subs(lhs))
  {
    OperatorNeeds(level, ts[0], lhs, rhs);
  }

  lemma OperatorNeeds(level: nat, t: Tok, lhs: Expr, rhs: Expr)
    requires level < 3 && OpAt(level, t).Some?
    ensures t != LParen && Need(level, Binary(OpAt(level, t).value, lhs, rhs)) == Need(level, lhs) + Need(level + 1, rhs)
    ensures t == Minus <==> OpAt(level, t).value == Sub
  {
    assert OpLevel(OpAt(level, t).value) == level;
  }

  lemma {:induction false} MembersSpend(e: Expr, ts: seq<Tok>)
    requires Members(e, ts).Got?
    ensures var r := Members(e, ts); Spent(ts, r.rest, Need(3, r.value) - Need(3, e), Subs(r.value) - Subs(e))
    decreases |ts|, 0
  {
    if Starts(ts, Dot) {
      var m := Member(e, ts[1].name);
      MembersSpend(m, ts[2..]);
      Passed(ts, 2);
      Then(ts, ts[2..], Members(m, ts[2..]).rest, 0, 0);
      assert Need(3, m) == Need(3, e) && Subs(m) == Subs(e);
    }
  }

  lemma {:induction false} PrimarySpends(ts: seq<Tok>)
    requires ParsePrimary(ts).Got?
    ensures var r := ParsePrimary(ts); Spent(ts, r.rest, Need(3, r.value), Subs(r.value))
    decreases |ts|, 0
  {
    if ts[0] == LParen {
      LevelSpends(0, ts[1..]);
      Enclosed(ts);
    } else if ts[0] == LBracket {
      ItemsSpend(ts[1..]);
      Listed(ts);
    } else {
      Leaf(ts);
    }
  }

  /** Parentheses allow any expression where a primary one is expected. */
  lemma Enclosed(ts: seq<Tok>)
    requires Starts(ts, LParen) && ParsePrimary(ts).Got?
    requires var r := ParseLevel(0, ts[1..]); Spent(ts[1..], r.rest, Need(0, r.value), Subs(r.value))
    ensures var r := ParsePrimary(ts); Spent(ts, r.rest, Need(3, r.value), Subs(r.value))
  {
    var r := ParseLevel(0, ts[1..]);
    CloseSkipped(r.rest);
    NeedAtMostOneMore(r.value);
  }

  lemma CloseSkipped(ts: seq<Tok>)
    requires Starts(ts, RParen)
    ensures Spent(ts, ts[1..], 0, 0)
  {
  }

  lemma NeedAtMostOneMore(e: Expr)
    ensures Need(3, e) <= 1 + Need(0, e)
  {
  }

  lemma Listed(ts: seq<Tok>)
    requires Starts(ts, LBracket) && ParsePrimary(ts).Got?
    requires var r := ParseItems(ts[1..]); Spent(ts[1..], r.rest, NeedItems(r.value), SubsItems(r.value))
    ensures var r := ParsePrimary(ts); Spent(ts, r.rest, Need(3, r.value), Subs(r.value))
  {
  }

  lemma Leaf(ts: seq<Tok>)
    requires ParsePrimary(ts).Got? && ts[0] != LParen && ts[0] != LBracket
    ensures var r := ParsePrimary(ts); Spent(ts, r.rest, Need(3, r.value), Subs(r.value))
  {
  }

  lemma {:induction false} ItemsSpend(ts: seq<Tok>)
    requires ParseItems(ts).Got?
    ensures var r := ParseItems(ts); Spent(ts, r.rest, NeedItems(r.value), SubsItems(r.value))
    decreases |ts|, 11
  {
    if !Starts(ts, RBracket) {
      LevelSpends(0, ts);
      var e := ParseLevel(0, ts);
      CommaSkipped(e.rest);
      ItemsSpend(SkipComma(e.rest));
      var es := ParseItems(SkipComma(e.rest));
      assert ([e.value] + es.value)[1..] == es.value;
    }
  }

  lemma CommaSkipped(ts: seq<Tok>)
    ensures Spent(ts, SkipComma(ts), 0, 0)
  {
  }

  /** Tokens that are neither parentheses nor minus signs cost nothing. */
  lemma {:induction false} Passed(ts: seq<Tok>, n: nat)
    requires n <= |ts| && forall i | 0 <= i < n :: ts[i] != Minus
    ensures Spent(ts, ts[n..], 0, 0)
  {
    if n > 0 {
      Passed(ts[1..], n - 1);
      assert ts[1..][n - 1..] == ts[n..];
    }
  }

  lemma {:induction false} StmtSpends(ts: seq<Tok>)
    requires ParseStmt(ts).Got?
    ensures var r := ParseStmt(ts); Spent(ts, r.rest, NeedStmt(r.value), SubsStmt(r.value))
    decreases |ts|, 2
  {
    if StartsKw(ts, "val") {
      ValSpends(ts);
    } else if StartsKw(ts, "for") {
      ForSpends(ts);
    } else if StartsKw(ts, "belief") {
      BeliefSpends(ts);
    } else if StartsKw(ts, "emit") {
      EmitSpends(ts);
    } else {
      BlockSpends(ts);
    }
  }

  lemma EmitSpends(ts: seq<Tok>)
    requires StartsKw(ts, "emit") && ParseEmit(ts).Got?
    ensures var r := ParseEmit(ts); Spent(ts, r.rest, NeedStmt(r.value), SubsStmt(r.value))
  {
    LevelSpends(0, ts[1..]);
  }

  lemma ValSpends(ts: seq<Tok>)
    requires StartsKw(ts, "val") && ParseVal(ts).Got?
    ensures var r := ParseVal(ts); Spent(ts, r.rest, NeedStmt(r.value), SubsStmt(r.value))
  {
    Passed(ts, 3);
    LevelSpends(0, ts[3..]);
  }

  /** The three statements that are a block of options. */
  lemma BlockSpends(ts: seq<Tok>)
    requires ts != [] && ts[0].Ident?
    ensures ParseResolve(ts).Got? ==> BlockIn(ts, ParseResolve(ts))
    ensures ParseGuard(ts).Got? ==> BlockIn(ts, ParseGuard(ts))
    ensures ParseEvolve(ts).Got? ==> BlockIn(ts, ParseEvolve(ts))
  {
    OptionSpends(ts, "with", "consensus");
    OptionSpends(ts, "against", "hallucination");
    OptionSpends(ts, "until", "stable");
  }

  predicate BlockIn(ts: seq<Tok>, r: Parsed<Stmt>)
    requires r.Got?
  {
    NeedStmt(r.value) == 0 && SubsStmt(r.value) == 0 && Spent(ts, r.rest, 0, 0)
  }

  lemma BeliefSpends(ts: seq<Tok>)
    requires StartsKw(ts, "belief") && ParseBelief(ts).Got?
    ensures var r := ParseBelief(ts); Spent(ts, r.rest, NeedStmt(r.value), SubsStmt(r.value))
  {
    Passed(ts, 4);
    Passed(ts[4..], 1);
    FieldsSpend(Inquiry("", [], 0), ts[4..][1..]);
  }

  lemma OptionSpends(ts: seq<Tok>, a: string, b: string)
    requires ts != [] && ts[0].Ident?
    ensures var r := OptionBlock(ts, a, b); r.Got? ==> Spent(ts, r.rest, 0, 0)
  {
    if OptionBlock(ts, a, b).Got? {
      Passed(ts, 5);
      KvsSpend(map[], ts[5..]);
    }
  }

  lemma {:induction false} ForSpends(ts: seq<Tok>)
    requires StartsKw(ts, "for") && ParseFor(ts).Got?
    ensures var r := ParseFor(ts); Spent(ts, r.rest, NeedStmt(r.value), SubsStmt(r.value))
    decreases |ts|, 0
  {
    Passed(ts, 3);
    LevelSpends(0, ts[3..]);
    BodySpends(ParseLevel(0, ts[3..]).rest);
  }

  lemma {:induction false} BodySpends(ts: seq<Tok>)
    requires ParseBody(ts).Got?
    ensures var r := ParseBody(ts); Spent(ts, r.rest, NeedStmts(r.value), SubsStmts(r.value))
    decreases |ts|, 3
  {
    if !StartsKw(ts, "end") {
      StmtSpends(ts);
      var s := ParseStmt(ts);
      BodySpends(s.rest);
      var body := ParseBody(s.rest);
      assert ([s.value] + body.value)[1..] == body.value;
    }
  }

  lemma {:induction false} KvsSpend(kv: map<string, real>, ts: seq<Tok>)
    requires ParseKvs(kv, ts).Got?
    ensures Spent(ts, ParseKvs(kv, ts).rest, 0, 0)
    decreases |ts|
  {
    if !Starts(ts, RBrace) {
      Passed(ts, 3);
      CommaSkipped(ts[3..]);
      match ts[2]
      case FloatTok(f) => KvsSpend(kv[ts[0].name := f], SkipComma(ts[3..]));
      case IntTok(n) => KvsSpend(kv[ts[0].name := n as real], SkipComma(ts[3..]));
      case Ident(_) => KvsSpend(kv, SkipComma(ts[3..]));
    }
  }

  lemma {:induction false} FieldsSpend(q: Inquiry, ts: seq<Tok>)
    requires ParseFields(q, ts).Got?
    ensures Spent(ts, ParseFields(q, ts).rest, 0, 0)
    decreases |ts|
  {
    if !Starts(ts, RBrace) {
      Passed(ts, 3);
      CommaSkipped(ts[3..]);
      if ts[0].name == "prompt" {
        FieldsSpend(q.(prompt := ts[2].s), SkipComma(ts[3..]));
      } else if ts[0].name == "agents" {
        AgentsSpend(q.agents, ts[3..]);
        var r := ParseAgents(q.agents, ts[3..]);
        CommaSkipped(r.rest);
        FieldsSpend(q.(agents := r.value), SkipComma(r.rest));
      } else {
        FieldsSpend(q.(ttl := if ts[2].n < 0 then 0 else ts[2].n), SkipComma(ts[3..]));
      }
    }
  }

  lemma {:induction false} AgentsSpend(agents: seq<string>, ts: seq<Tok>)
    requires ParseAgents(agents, ts).Got?
    ensures Spent(ts, ParseAgents(agents, ts).rest, 0, 0)
    decreases |ts|
  {
    if !Starts(ts, RBracket) {
      CommaSkipped(ts[1..]);
      AgentsSpend(agents + [ts[0].name], SkipComma(ts[1..]));
    }
  }

  lemma {:induction false} ProgramSpends(stmts: seq<Stmt>, uses: bool, ts: seq<Tok>)
    requires ParseProgramFrom(stmts, uses, ts).Some?
    ensures var ss := ParseProgramFrom(stmts, uses, ts).value.stmts;
      Spent(ts, [], NeedStmts(ss) - NeedStmts(stmts), SubsStmts(ss) - SubsStmts(stmts))
    decreases |ts|
  {
    if ts != [] {
      StmtSpends(ts);
      var s := ParseStmt(ts);
      ProgramSpends(stmts + [s.value], uses || IsBelief(s.value), s.rest);
      StmtsSnoc(stmts, s.value);
    }
  }

  lemma {:induction false} StmtsSnoc(ss: seq<Stmt>, s: Stmt)
    ensures NeedStmts(ss + [s]) == NeedStmts(ss) + NeedStmt(s) && SubsStmts(ss + [s]) == SubsStmts(ss) + SubsStmt(s)
  {
    if ss == [] {
      assert ss + [s] == [s];
      assert [s][1..] == [];
    } else {
      StmtsSnoc(ss[1..], s);
      assert (ss + [s])[1..] == ss[1..] + [s];
    }
  }

  /** No source of the same program gets by with fewer parentheses than the printed one. */
  lemma FewestParentheses(ts: seq<Tok>)
    requires ParseProgram(ts).Some?
    ensures Parens(PrintStmts(ParseProgram(ts).value.stmts)) <= Parens(ts)
  {
    ProgramSpends([], false, ts);
    StmtsHave(ParseProgram(ts).value.stmts);
  }

  /** And each has exactly its minus signs: the parser reads every one as a subtraction. */
  lemma SameMinuses(ts: seq<Tok>)
    requires ParseProgram(ts).Some?
    ensures Minuses(PrintStmts(ParseProgram(ts).value.stmts)) == Minuses(ts)
  {
    ProgramSpends([], false, ts);
    StmtsHave(ParseProgram(ts).value.stmts);
  }
}
