/** Parsing undoes printing, for every ChimeraLang program. */
module ChimeraRoundTrip {
  import opened Common
  import opened ChimeraSyntax

  /** Nothing that continues an expression of this level or a tighter one. */
  predicate Stops(level: nat, ts: seq<Tok>) {
    ts == [] || (ts[0] != Dot && forall l | level <= l < 3 :: OpAt(l, ts[0]).None?)
  }

  // ---------- one step of the grammar at a time ----------

  lemma Cut(a: seq<Tok>, b: seq<Tok>)
    ensures (a + b)[|a|..] == b && (a + b)[..|a|] == a
  {
  }

  /** A bracketed stretch of tokens, regrouped so that the grammar can take it from the left. */
  lemma Wrap(a: seq<Tok>, b: seq<Tok>, c: seq<Tok>, rest: seq<Tok>)
    ensures a + b + c + rest == a + (b + (c + rest))
  {
  }

  lemma Assoc(a: seq<Tok>, b: seq<Tok>, rest: seq<Tok>)
    ensures a + b + rest == a + (b + rest)
  {
  }

  lemma ChainStops(level: nat, e: Expr, ts: seq<Tok>)
    requires level < 3 && Stops(level, ts)
    ensures Chain(level, e, ts) == Got(e, ts)
  {
  }

  lemma ChainStep(level: nat, lhs: Expr, op: BinOp, ts: seq<Tok>, rhs: Expr, rest: seq<Tok>)
    requires level < 3 && level == OpLevel(op) && ParseLevel(level + 1, ts) == Got(rhs, rest)
    ensures Chain(level, lhs, [OpTok(op)] + ts) == Chain(level, Binary(op, lhs, rhs), rest)
  {
    Cut([OpTok(op)], ts);
    assert OpAt(level, OpTok(op)) == Some(op);
    ChainHead(level, lhs, [OpTok(op)] + ts, rhs, rest);
  }

  lemma ChainHead(level: nat, lhs: Expr, ts: seq<Tok>, rhs: Expr, rest: seq<Tok>)
    requires level < 3 && ts != [] && OpAt(level, ts[0]).Some? && ParseLevel(level + 1, ts[1..]) == Got(rhs, rest)
    ensures Chain(level, lhs, ts) == Chain(level, Binary(OpAt(level, ts[0]).value, lhs, rhs), rest)
  {
  }

  lemma MemberStep(e: Expr, field: string, rest: seq<Tok>)
    ensures Members(e, [Dot, Ident(field)] + rest) == Members(Member(e, field), rest)
  {
    Cut([Dot, Ident(field)], rest);
  }

  lemma ParenStep(ts: seq<Tok>, e: Expr, rest: seq<Tok>)
    requires ParseLevel(0, ts) == Got(e, [RParen] + rest)
    ensures ParseLevel(3, [LParen] + ts) == Members(e, rest)
  {
    Cut([LParen], ts);
    Cut([RParen], rest);
    assert ParsePrimary([LParen] + ts) == Got(e, rest);
  }

  lemma ListStep(ts: seq<Tok>, items: seq<Expr>, rest: seq<Tok>)
    requires ParseItems(ts) == Got(items, rest)
    ensures ParseLevel(3, [LBracket] + ts) == Members(List(items), rest)
  {
    Cut([LBracket], ts);
    assert ParsePrimary([LBracket] + ts) == Got(List(items), rest);
  }

  lemma AtomStep(e: Expr, rest: seq<Tok>)
    requires Printable(e) && !e.Binary? && !e.Member? && !e.List?
    ensures ParseLevel(3, Print(3, e) + rest) == Members(e, rest)
  {
    var t := Print(3, e)[0];
    assert Print(3, e) == [t];
    Cut([t], rest);
    assert ParsePrimary([t] + rest) == Got(e, rest);
  }

  lemma ItemStep(ts: seq<Tok>, e: Expr, after: seq<Tok>, es: seq<Expr>, rest: seq<Tok>)
    requires !Starts(ts, RBracket) && ParseLevel(0, ts) == Got(e, after) && ParseItems(SkipComma(after)) == Got(es, rest)
    ensures ParseItems(ts) == Got([e] + es, rest)
  {
  }

  // ---------- expressions ----------

  /** Orders the proofs about one expression: levels up to its own, then, once in parentheses, from 0 again. */
  function Rank(level: nat, e: Expr): nat
    requires level <= 3
  {
    if level > Level(e) then 40 - 2 * level else 6 - 2 * level
  }

  /**
   * Reading a printed expression at its level gives the expression and then whatever the chain
   * makes of the tokens after it: so it can be the left operand of what follows.
   */
  lemma {:induction false} ParseLevelPrint(level: nat, e: Expr, rest: seq<Tok>)
    requires level < 3 && Printable(e) && Stops(level + 1, rest)
    ensures ParseLevel(level, Print(level, e) + rest) == Chain(level, e, rest)
    decreases e, Rank(level, e)
  {
    if level == Level(e) {
      var tail := [OpTok(e.op)] + (Print(level + 1, e.rhs) + rest);
      OperandParses(level + 1, e.rhs, rest);
      ChainStep(level, e.lhs, e.op, Print(level + 1, e.rhs) + rest, e.rhs, rest);
      ParseLevelPrint(level, e.lhs, tail);
      BinaryTokens(e, rest);
    } else {
      PrintLevelUp(level, e);
      OperandParses(level + 1, e, rest);
    }
  }

  lemma BinaryTokens(e: Expr, rest: seq<Tok>)
    requires e.Binary?
    ensures var level := OpLevel(e.op);
            Print(level, e) + rest == Print(level, e.lhs) + ([OpTok(e.op)] + (Print(level + 1, e.rhs) + rest))
  {
  }

  lemma PrintLevelUp(level: nat, e: Expr)
    requires level < 3 && level != Level(e)
    ensures Print(level, e) == Print(level + 1, e)
  {
  }

  /** A printed expression followed by something that does not continue it is read back whole. */
  lemma {:induction false} OperandParses(level: nat, e: Expr, rest: seq<Tok>)
    requires level <= 3 && Printable(e) && Stops(level, rest)
    ensures ParseLevel(level, Print(level, e) + rest) == Got(e, rest)
    decreases e, Rank(level, e) + 1
  {
    if level < 3 {
      ParseLevelPrint(level, e, rest);
      ChainStops(level, e, rest);
    } else {
      PostfixPrint(e, rest);
    }
  }

  /** At the tightest level, members that follow are read as members of the printed expression. */
  lemma {:induction false} PostfixPrint(e: Expr, rest: seq<Tok>)
    requires Printable(e)
    ensures ParseLevel(3, Print(3, e) + rest) == Members(e, rest)
    decreases e, Rank(3, e)
  {
    if Level(e) < 3 {
      OperandParses(0, e, [RParen] + rest);
      ParenStep(Print(0, e) + ([RParen] + rest), e, rest);
      Wrap([LParen], Print(0, e), [RParen], rest);
    } else if e.Member? {
      PostfixPrint(e.base, [Dot, Ident(e.field)] + rest);
      MemberStep(e.base, e.field, rest);
      Assoc(Print(3, e.base), [Dot, Ident(e.field)], rest);
    } else if e.List? {
      ItemsParse(e, e.items, rest);
      ListStep(PrintItems(e.items) + ([RBracket] + rest), e.items, rest);
      Wrap([LBracket], PrintItems(e.items), [RBracket], rest);
    } else {
      AtomStep(e, rest);
    }
  }

  /** What follows the first item of a list: the comma and the other items, or the closing bracket. */
  function AfterFirst(more: seq<Tok>, last: bool, close: seq<Tok>): seq<Tok> {
    if last then close else [Comma] + (more + close)
  }

  lemma ItemsTokens(items: seq<Expr>, close: seq<Tok>)
    requires items != [] && close != [] && close[0] == RBracket
    ensures PrintItems(items) + close == Print(0, items[0]) + AfterFirst(PrintItems(items[1..]), |items| == 1, close)
    ensures SkipComma(AfterFirst(PrintItems(items[1..]), |items| == 1, close)) == PrintItems(items[1..]) + close
  {
    AfterFirstSkips(Print(0, items[0]), PrintItems(items[1..]), |items| == 1, close);
  }

  lemma {:induction false} ItemsParse(list: Expr, items: seq<Expr>, rest: seq<Tok>)
    requires PrintableItems(items) && forall i :: 0 <= i < |items| ==> items[i] < list
    ensures ParseItems(PrintItems(items) + ([RBracket] + rest)) == Got(items, rest)
    decreases list, 0, |items|
  {
    var close := [RBracket] + rest;
    if items == [] {
      Cut([RBracket], rest);
      assert PrintItems(items) + close == close;
    } else {
      var e, es := items[0], items[1..];
      var after := AfterFirst(PrintItems(es), |items| == 1, close);
      ItemsTokens(items, close);
      PrintStartsExpr(0, e);
      OperandParses(0, e, after);
      ItemsParse(list, es, rest);
      ItemStep(Print(0, e) + after, e, after, es, rest);
      assert items == [e] + es;
    }
  }

  lemma {:induction false} PrintStartsExpr(level: nat, e: Expr)
    requires level <= 3
    ensures Print(level, e) != [] && Print(level, e)[0] != RBracket
    decreases e, if level > Level(e) then 1 else 0
  {
    if level > Level(e) {
    } else if e.Binary? {
      PrintStartsExpr(OpLevel(e.op), e.lhs);
    } else if e.Member? {
      PrintStartsExpr(3, e.base);
    }
  }

  // ---------- statements ----------

  /** The end of the source, or a word: what can follow a statement. */
  predicate Ends(ts: seq<Tok>) { ts == [] || ts[0].Ident? }

  lemma ExprParses(e: Expr, rest: seq<Tok>)
    requires Printable(e) && Ends(rest)
    ensures ParseLevel(0, Print(0, e) + rest) == Got(e, rest)
  {
    OperandParses(0, e, rest);
  }

  lemma AgentStep(got: seq<string>, a: string, ts: seq<Tok>)
    ensures ParseAgents(got, [Ident(a)] + ts) == ParseAgents(got + [a], SkipComma(ts))
  {
    Cut([Ident(a)], ts);
  }

  lemma AfterFirstSkips(first: seq<Tok>, more: seq<Tok>, last: bool, close: seq<Tok>)
    requires close != [] && close[0] == RBracket && (last ==> more == [])
    ensures first + (if last then [] else [Comma] + more) + close == first + AfterFirst(more, last, close)
    ensures SkipComma(AfterFirst(more, last, close)) == more + close
  {
    if last {
      assert more + close == close;
      assert first + [] == first;
    } else {
      Assoc(first, [Comma] + more, close);
      Assoc([Comma], more, close);
      Cut([Comma], more + close);
    }
  }

  lemma AgentsTokens(agents: seq<string>, close: seq<Tok>)
    requires agents != [] && close != [] && close[0] == RBracket
    ensures PrintAgents(agents) + close == [Ident(agents[0])] + AfterFirst(PrintAgents(agents[1..]), |agents| == 1, close)
    ensures SkipComma(AfterFirst(PrintAgents(agents[1..]), |agents| == 1, close)) == PrintAgents(agents[1..]) + close
  {
    AfterFirstSkips([Ident(agents[0])], PrintAgents(agents[1..]), |agents| == 1, close);
  }

  lemma SnocNames(got: seq<string>, names: seq<string>)
    requires names != []
    ensures got + [names[0]] + names[1..] == got + names
  {
  }

  lemma {:induction false} AgentsParse(got: seq<string>, agents: seq<string>, rest: seq<Tok>)
    ensures ParseAgents(got, PrintAgents(agents) + ([RBracket] + rest)) == Got(got + agents, rest)
    decreases |agents|
  {
    var close := [RBracket] + rest;
    if agents == [] {
      Cut([RBracket], rest);
      assert PrintAgents(agents) + close == close && got + agents == got;
    } else {
      var more := agents[1..];
      AgentsTokens(agents, close);
      AgentStep(got, agents[0], AfterFirst(PrintAgents(more), |agents| == 1, close));
      AgentsParse(got + [agents[0]], more, rest);
      SnocNames(got, agents);
    }
  }

  lemma FieldsEnd(q: Inquiry, n: nat, rest: seq<Tok>)
    ensures ParseFields(q, [Ident("ttl"), Colon, IntTok(n), RBrace] + rest) == Got(q.(ttl := n), rest)
  {
    var ts := [Ident("ttl"), Colon, IntTok(n), RBrace] + rest;
    assert ts[3..] == [RBrace] + rest;
    Cut([RBrace], rest);
    assert SkipComma(ts[3..]) == ts[3..];
    assert ParseFields(q.(ttl := n), [RBrace] + rest) == Got(q.(ttl := n), rest);
  }

  lemma AgentsField(q: Inquiry, ts: seq<Tok>, agents: seq<string>, after: seq<Tok>)
    requires |ts| > 2 && ts[0] == Ident("agents") && ts[1] == Colon && ts[2] == LBracket
    requires ParseAgents(q.agents, ts[3..]) == Got(agents, after)
    ensures ParseFields(q, ts) == ParseFields(q.(agents := agents), SkipComma(after))
  {
  }

  lemma FieldAgents(q: Inquiry, agents: seq<string>, ts: seq<Tok>)
    requires q.agents == []
    ensures ParseFields(q, [Ident("agents"), Colon, LBracket] + (PrintAgents(agents) + ([RBracket] + ([Comma] + ts))))
            == ParseFields(q.(agents := agents), ts)
  {
    AgentsParse([], agents, [Comma] + ts);
    assert [] + agents == agents;
    var body := PrintAgents(agents) + ([RBracket] + ([Comma] + ts));
    Cut([Ident("agents"), Colon, LBracket], body);
    Cut([Comma], ts);
    AgentsField(q, [Ident("agents"), Colon, LBracket] + body, agents, [Comma] + ts);
  }

  lemma FieldPrompt(q: Inquiry, prompt: string, ts: seq<Tok>)
    ensures ParseFields(q, [Ident("prompt"), Colon, StrTok(prompt)] + ([Comma] + ts)) == ParseFields(q.(prompt := prompt), ts)
  {
    Cut([Ident("prompt"), Colon, StrTok(prompt)], [Comma] + ts);
    Cut([Comma], ts);
  }

  lemma BeliefTokens(s: Stmt, rest: seq<Tok>)
    requires s.Belief?
    ensures PrintStmt(s) + rest
            == [Ident("belief"), Ident(s.name), ColonAssign, Ident("inquire")] + ([LBrace]
               + ([Ident("prompt"), Colon, StrTok(s.prompt)] + ([Comma]
               + ([Ident("agents"), Colon, LBracket] + (PrintAgents(s.agents) + ([RBracket] + ([Comma]
               + ([Ident("ttl"), Colon, IntTok(s.ttl), RBrace] + rest))))))))
  {
  }

  lemma DispatchBelief(ts: seq<Tok>)
    requires StartsKw(ts, "belief")
    ensures ParseStmt(ts) == ParseBelief(ts)
  {
  }

  lemma InquireStep(ts: seq<Tok>, name: string, fields: seq<Tok>, q: Inquiry, rest: seq<Tok>)
    requires |ts| > 3 && ts[1] == Ident(name) && ts[2] == ColonAssign && ts[3] == Ident("inquire") && ts[4..] == [LBrace] + fields
    requires ParseFields(Inquiry("", [], 0), fields) == Got(q, rest)
    ensures ParseBelief(ts) == Got(Belief(name, q.prompt, q.agents, q.ttl), rest)
  {
    Cut([LBrace], fields);
  }

  lemma BeliefParses(s: Stmt, rest: seq<Tok>)
    requires s.Belief?
    ensures ParseStmt(PrintStmt(s) + rest) == Got(s, rest)
  {
    var ttl := [Ident("ttl"), Colon, IntTok(s.ttl), RBrace] + rest;
    var agents := [Ident("agents"), Colon, LBracket] + (PrintAgents(s.agents) + ([RBracket] + ([Comma] + ttl)));
    FieldPrompt(Inquiry("", [], 0), s.prompt, agents);
    FieldAgents(Inquiry(s.prompt, [], 0), s.agents, ttl);
    FieldsEnd(Inquiry(s.prompt, s.agents, 0), s.ttl, rest);
    var fields := [Ident("prompt"), Colon, StrTok(s.prompt)] + ([Comma] + agents);
    var front := [Ident("belief"), Ident(s.name), ColonAssign, Ident("inquire")];
    Cut(front, [LBrace] + fields);
    DispatchBelief(front + ([LBrace] + fields));
    InquireStep(front + ([LBrace] + fields), s.name, fields, Inquiry(s.prompt, s.agents, s.ttl), rest);
    BeliefTokens(s, rest);
  }

  lemma KvParses(key: string, v: Tok, rest: seq<Tok>)
    requires v.FloatTok? || v.IntTok?
    ensures ParseKvs(map[], [Ident(key), Colon, v, RBrace] + rest)
            == Got(map[key := if v.FloatTok? then v.f else v.n as real], rest)
  {
    var opts := [Ident(key), Colon, v, RBrace] + rest;
    assert opts[3..] == [RBrace] + rest;
    Cut([RBrace], rest);
    assert SkipComma(opts[3..]) == opts[3..];
    var kv := map[][key := if v.FloatTok? then v.f else v.n as real];
    assert ParseKvs(kv, [RBrace] + rest) == Got(kv, rest);
  }

  lemma OptionParses(kw: string, x: string, a: string, b: string, key: string, v: Tok, rest: seq<Tok>)
    requires v.FloatTok? || v.IntTok?
    ensures OptionBlock(PrintOption(kw, x, a, b, key, v) + rest, a, b)
            == Got(map[key := if v.FloatTok? then v.f else v.n as real], rest)
  {
    var front, opts := [Ident(kw), Ident(x), Ident(a), Ident(b), LBrace], [Ident(key), Colon, v, RBrace] + rest;
    assert PrintOption(kw, x, a, b, key, v) + rest == front + opts;
    Cut(front, opts);
    KvParses(key, v, rest);
  }

  lemma StmtStartsWithWord(s: Stmt)
    ensures PrintStmt(s) != [] && PrintStmt(s)[0].Ident? && PrintStmt(s)[0] != Ident("end")
  {
  }

  lemma BodyStartsWithWord(body: seq<Stmt>, rest: seq<Tok>)
    requires Ends(rest)
    ensures Ends(PrintStmts(body) + rest)
  {
    if body != [] {
      StmtStartsWithWord(body[0]);
    } else {
      assert PrintStmts(body) + rest == rest;
    }
  }

  lemma ValStep(x: string, ts: seq<Tok>, e: Expr, rest: seq<Tok>)
    requires ParseLevel(0, ts) == Got(e, rest)
    ensures ParseStmt([Ident("val"), Ident(x), Assign] + ts) == Got(Val(x, e), rest)
  {
    Cut([Ident("val"), Ident(x), Assign], ts);
  }

  lemma EmitStep(ts: seq<Tok>, e: Expr, rest: seq<Tok>)
    requires ParseLevel(0, ts) == Got(e, rest)
    ensures ParseStmt([Ident("emit")] + ts) == Got(Emit(e), rest)
  {
    Cut([Ident("emit")], ts);
  }

  lemma ForStep(x: string, ts: seq<Tok>, e: Expr, after: seq<Tok>, body: seq<Stmt>, rest: seq<Tok>)
    requires ParseLevel(0, ts) == Got(e, after) && ParseBody(after) == Got(body, rest)
    ensures ParseStmt([Ident("for"), Ident(x), Ident("in")] + ts) == Got(For(x, e, body), rest)
  {
    Cut([Ident("for"), Ident(x), Ident("in")], ts);
  }

  lemma ForTokens(x: string, e: seq<Tok>, body: seq<Tok>, rest: seq<Tok>)
    ensures [Ident("for"), Ident(x), Ident("in")] + e + body + [Ident("end")] + rest
            == [Ident("for"), Ident(x), Ident("in")] + (e + (body + ([Ident("end")] + rest)))
  {
  }

  lemma DispatchOption(ts: seq<Tok>)
    requires ts != []
    ensures ts[0] == Ident("resolve") ==> ParseStmt(ts) == ParseResolve(ts)
    ensures ts[0] == Ident("guard") ==> ParseStmt(ts) == ParseGuard(ts)
    ensures ts[0] == Ident("evolve") ==> ParseStmt(ts) == ParseEvolve(ts)
  {
  }

  lemma ResolveStep(ts: seq<Tok>, x: string, r: real, rest: seq<Tok>)
    requires |ts| > 1 && ts[1] == Ident(x) && OptionBlock(ts, "with", "consensus") == Got(map["threshold" := r], rest)
    ensures ParseResolve(ts) == Got(Resolve(x, r), rest)
  {
  }

  lemma GuardStep(ts: seq<Tok>, x: string, r: real, rest: seq<Tok>)
    requires |ts| > 1 && ts[1] == Ident(x) && OptionBlock(ts, "against", "hallucination") == Got(map["max_risk" := r], rest)
    ensures ParseGuard(ts) == Got(Guard(x, r), rest)
  {
  }

  lemma EvolveStep(ts: seq<Tok>, x: string, n: u32, rest: seq<Tok>)
    requires |ts| > 1 && ts[1] == Ident(x) && OptionBlock(ts, "until", "stable") == Got(map["max_iter" := n as real], rest)
    ensures ParseEvolve(ts) == Got(Evolve(x, n), rest)
  {
    assert Lookup(map["max_iter" := n as real], "max_iter", 3.0) == n as real;
  }

  lemma OptionStarts(kw: string, x: string, a: string, b: string, key: string, v: Tok, rest: seq<Tok>)
    ensures var ts := PrintOption(kw, x, a, b, key, v) + rest; |ts| > 1 && ts[0] == Ident(kw) && ts[1] == Ident(x)
  {
  }

  lemma OptionStmtParses(s: Stmt, rest: seq<Tok>)
    requires s.Resolve? || s.Guard? || s.Evolve?
    ensures ParseStmt(PrintStmt(s) + rest) == Got(s, rest)
  {
    var ts := PrintStmt(s) + rest;
    DispatchOption(ts);
    match s {
      case Resolve(x, r) =>
        OptionParses("resolve", x, "with", "consensus", "threshold", FloatTok(r), rest);
        OptionStarts("resolve", x, "with", "consensus", "threshold", FloatTok(r), rest);
        ResolveStep(ts, x, r, rest);
      case Guard(x, r) =>
        OptionParses("guard", x, "against", "hallucination", "max_risk", FloatTok(r), rest);
        OptionStarts("guard", x, "against", "hallucination", "max_risk", FloatTok(r), rest);
        GuardStep(ts, x, r, rest);
      case Evolve(x, n) =>
        OptionParses("evolve", x, "until", "stable", "max_iter", IntTok(n), rest);
        OptionStarts("evolve", x, "until", "stable", "max_iter", IntTok(n), rest);
        EvolveStep(ts, x, n, rest);
    }
  }

  lemma {:induction false} StmtParses(s: Stmt, rest: seq<Tok>)
    requires PrintableStmt(s) && Ends(rest)
    ensures ParseStmt(PrintStmt(s) + rest) == Got(s, rest)
    decreases s
  {
    match s {
      case Val(x, e) =>
        ExprParses(e, rest);
        ValStep(x, Print(0, e) + rest, e, rest);
        Assoc([Ident("val"), Ident(x), Assign], Print(0, e), rest);
      case Emit(e) =>
        ExprParses(e, rest);
        EmitStep(Print(0, e) + rest, e, rest);
        Assoc([Ident("emit")], Print(0, e), rest);
      case For(x, e, body) =>
        var tail := PrintStmts(body) + ([Ident("end")] + rest);
        BodyStartsWithWord(body, [Ident("end")] + rest);
        ExprParses(e, tail);
        BodyParses(s, body, rest);
        ForStep(x, Print(0, e) + tail, e, tail, body, rest);
        ForTokens(x, Print(0, e), PrintStmts(body), rest);
      case Belief(_, _, _, _) => BeliefParses(s, rest);
      case _ => OptionStmtParses(s, rest);
    }
  }

  lemma BodyStep(ts: seq<Tok>, s: Stmt, after: seq<Tok>, more: seq<Stmt>, rest: seq<Tok>)
    requires ts != [] && !StartsKw(ts, "end") && ParseStmt(ts) == Got(s, after) && ParseBody(after) == Got(more, rest)
    ensures ParseBody(ts) == Got([s] + more, rest)
  {
  }

  lemma {:induction false} BodyParses(loop: Stmt, body: seq<Stmt>, rest: seq<Tok>)
    requires PrintableStmts(body) && forall i :: 0 <= i < |body| ==> body[i] < loop
    ensures ParseBody(PrintStmts(body) + ([Ident("end")] + rest)) == Got(body, rest)
    decreases loop, |body|
  {
    var close := [Ident("end")] + rest;
    Cut([Ident("end")], rest);
    if body == [] {
      assert PrintStmts(body) + close == close;
    } else {
      var s, more := body[0], body[1..];
      var tail := PrintStmts(more) + close;
      Assoc(PrintStmt(s), PrintStmts(more), close);
      StmtStartsWithWord(s);
      BodyStartsWithWord(more, close);
      StmtParses(s, tail);
      BodyParses(loop, more, rest);
      BodyStep(PrintStmt(s) + tail, s, tail, more, rest);
      assert body == [s] + more;
    }
  }

  // ---------- programs ----------

  predicate UsesBelief(ss: seq<Stmt>) {
    ss != [] && (!(ss[0].Val? || ss[0].Emit? || ss[0].For?) || UsesBelief(ss[1..]))
  }

  lemma ProgramStep(got: seq<Stmt>, uses: bool, ts: seq<Tok>, s: Stmt, rest: seq<Tok>)
    requires ts != [] && ParseStmt(ts) == Got(s, rest)
    ensures ParseProgramFrom(got, uses, ts) == ParseProgramFrom(got + [s], uses || IsBelief(s), rest)
  {
  }

  lemma FirstStmtParses(ss: seq<Stmt>)
    requires ss != [] && PrintableStmt(ss[0])
    ensures PrintStmts(ss) != [] && ParseStmt(PrintStmts(ss)) == Got(ss[0], PrintStmts(ss[1..]))
  {
    var rest := PrintStmts(ss[1..]);
    StmtStartsWithWord(ss[0]);
    BodyStartsWithWord(ss[1..], []);
    assert rest + [] == rest;
    StmtParses(ss[0], rest);
  }

  lemma {:induction false} ProgramParsesFrom(got: seq<Stmt>, uses: bool, ss: seq<Stmt>, ts: seq<Tok>)
    requires PrintableStmts(ss) && ts == PrintStmts(ss)
    ensures ParseProgramFrom(got, uses, ts) == Some(Program(got + ss, uses || UsesBelief(ss)))
    decreases |ss|
  {
    if ss == [] {
      assert got + ss == got;
    } else {
      var s, more := ss[0], ss[1..];
      FirstStmtParses(ss);
      ProgramStep(got, uses, ts, s, PrintStmts(more));
      ProgramParsesFrom(got + [s], uses || IsBelief(s), more, PrintStmts(more));
      Snoc(got, ss);
    }
  }

  lemma Snoc(got: seq<Stmt>, ss: seq<Stmt>)
    requires ss != []
    ensures got + [ss[0]] + ss[1..] == got + ss
  {
  }

  /**
   * For every program, parsing its printed tokens returns that program, consumes exactly those
   * tokens, and routes it to the belief runtime exactly when a top-level statement is a belief one.
   */
  lemma ParsingUndoesPrinting(ss: seq<Stmt>)
    requires PrintableStmts(ss)
    ensures ParseProgram(PrintStmts(ss)) == Some(Program(ss, UsesBelief(ss)))
  {
    ProgramParsesFrom([], false, ss, PrintStmts(ss));
    assert [] + ss == ss;
  }

  /** Printing loses nothing: different programs print differently. */
  lemma PrintingIsInjective(ss: seq<Stmt>, ts: seq<Stmt>)
    requires PrintableStmts(ss)
    requires PrintableStmts(ts)
    ensures PrintStmts(ss) == PrintStmts(ts) <==> ss == ts
  {
    ParsingUndoesPrinting(ss);
    ParsingUndoesPrinting(ts);
  }
}
