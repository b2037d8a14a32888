/**
 * The recursive-descent parser as the program runs it: a cursor over the tokens, one method
 * per production, loops for operator chains and lists. Each method is proved to answer what
 * the grammar in ChimeraSyntax answers on the remaining tokens, and to stop where it stops;
 * every method terminates because the remaining tokens shrink.
 */
module ChimeraParser {
  import opened Common
  import opened ChimeraSyntax

  function NextOp(level: nat, ts: seq<Tok>): Option<BinOp> { if ts == [] then None else OpAt(level, ts[0]) }

  /** A chain ends where no operator follows; otherwise it goes on behind the operand of the next one. */
  lemma ChainOn(level: nat, lhs: Expr, ts: seq<Tok>)
    requires level < 3
    ensures match NextOp(level, ts)
      case None => Chain(level, lhs, ts) == Got(lhs, ts)
      case Some(op) =>
        match ParseLevel(level + 1, ts[1..])
        case Fail => Chain(level, lhs, ts) == Fail
        case Got(rhs, rest) => Chain(level, lhs, ts) == Chain(level, Binary(op, lhs, rhs), rest)
  {
  }

  lemma MembersOn(e: Expr, ts: seq<Tok>)
    requires Starts(ts, Dot)
    ensures Members(e, ts) == if |ts| < 2 || !ts[1].Ident? then Fail else Members(Member(e, ts[1].name), ts[1..][1..])
  {
    if |ts| >= 2 { assert ts[1..][1..] == ts[2..]; }
  }

  /** The options after one more; an option with a name for its value changes nothing. */
  function Kept(kv: map<string, real>, key: string, v: Tok): Option<map<string, real>> {
    match v
    case FloatTok(f) => Some(kv[key := f])
    case IntTok(n) => Some(kv[key := n as real])
    case Ident(_) => Some(kv)
    case _ => None
  }

  lemma KvsOn(kv: map<string, real>, ts: seq<Tok>)
    requires !Starts(ts, RBrace)
    ensures ParseKvs(kv, ts) ==
      if |ts| < 3 || !ts[0].Ident? || ts[1] != Colon || Kept(kv, ts[0].name, ts[2]).None? then Fail
      else ParseKvs(Kept(kv, ts[0].name, ts[2]).value, SkipComma(ts[3..]))
  {
  }

  class Parser {
    const toks: seq<Tok>
    var pos: nat

    constructor (toks: seq<Tok>)
      ensures this.toks == toks && pos == 0
    {
      this.toks, pos := toks, 0;
    }

    ghost predicate Valid()
      reads this
    {
      pos <= |toks|
    }

    ghost function Rest(): seq<Tok>
      requires Valid()
      reads this
    {
      toks[pos..]
    }

    /** The answer `r` and the cursor agree with the grammar; on failure the cursor does not matter. */
    ghost predicate Agrees<T>(spec: Parsed<T>, r: Option<T>)
      reads this
    {
      Valid() &&
      match spec
      case Fail => r == None
      case Got(v, rest) => r == Some(v) && Rest() == rest
    }

    /** The operator of this level that comes next, if one does. */
    method PeekOp(level: nat) returns (op: Option<BinOp>)
      requires Valid()
      ensures op == NextOp(level, Rest())
    {
      op := if pos < |toks| then OpAt(level, toks[pos]) else None;
    }

    method NextTok() returns (t: Option<Tok>)
      requires Valid()
      modifies this
      ensures Valid()
      ensures old(Rest()) == [] ==> t == None && Rest() == []
      ensures old(Rest()) != [] ==> t == Some(old(Rest())[0]) && Rest() == old(Rest())[1..] && pos == old(pos) + 1
    {
      if pos == |toks| { return None; }
      t := Some(toks[pos]);
      pos := pos + 1;
    }

    method Eat(want: Tok) returns (ok: bool)
      requires Valid()
      modifies this
      ensures Valid() && (ok <==> Starts(old(Rest()), want))
      ensures ok ==> Rest() == old(Rest())[1..] && pos == old(pos) + 1
      ensures !ok ==> pos == old(pos)
    {
      if pos < |toks| && toks[pos] == want {
        pos := pos + 1;
        return true;
      }
      return false;
    }

    method Name() returns (name: Option<string>)
      requires Valid()
      modifies this
      ensures Valid() && pos >= old(pos)
      ensures name.Some? <==> old(Rest()) != [] && old(Rest())[0].Ident?
      ensures name.Some? ==> name.value == old(Rest())[0].name && Rest() == old(Rest())[1..] && pos == old(pos) + 1
    {
      var t := NextTok();
      if t.Some? && t.value.Ident? { return Some(t.value.name); }
      return None;
    }

    method SkipOptionalComma()
      requires Valid()
      modifies this
      ensures Valid() && Rest() == SkipComma(old(Rest())) && pos >= old(pos)
    {
      var _ := Eat(Comma);
    }

    // ---------- expressions ----------

    method ParseExpr() returns (r: Option<Expr>)
      requires Valid()
      modifies this
      ensures Agrees(ParseLevel(0, old(Rest())), r) && (r.Some? ==> pos > old(pos))
      decreases |toks| - pos, 5
    {
      r := ParseCmp();
    }

    method ParseCmp() returns (r: Option<Expr>)
      requires Valid()
      modifies this
      ensures Agrees(ParseLevel(0, old(Rest())), r) && (r.Some? ==> pos > old(pos))
      decreases |toks| - pos, 4
    {
      r := ParseAdd();
      if r.None? { return; }
      var lhs := r.value;
      while true
        invariant Valid() && pos > old(pos)
        invariant ParseLevel(0, old(Rest())) == Chain(0, lhs, Rest())
        decreases |toks| - pos
      {
        var op := PeekOp(0);
        ChainOn(0, lhs, Rest());
        if op.None? { return Some(lhs); }
        pos := pos + 1;
        var rhs := ParseAdd();
        if rhs.None? { return None; }
        lhs := Binary(op.value, lhs, rhs.value);
      }
    }

    method ParseAdd() returns (r: Option<Expr>)
      requires Valid()
      modifies this
      ensures Agrees(ParseLevel(1, old(Rest())), r) && (r.Some? ==> pos > old(pos))
      decreases |toks| - pos, 3
    {
      r := ParseMul();
      if r.None? { return; }
      var lhs := r.value;
      while true
        invariant Valid() && pos > old(pos)
        invariant ParseLevel(1, old(Rest())) == Chain(1, lhs, Rest())
        decreases |toks| - pos
      {
        var op := PeekOp(1);
        ChainOn(1, lhs, Rest());
        if op.None? { return Some(lhs); }
        pos := pos + 1;
        var rhs := ParseMul();
        if rhs.None? { return None; }
        lhs := Binary(op.value, lhs, rhs.value);
      }
    }

    method ParseMul() returns (r: Option<Expr>)
      requires Valid()
      modifies this
      ensures Agrees(ParseLevel(2, old(Rest())), r) && (r.Some? ==> pos > old(pos))
      decreases |toks| - pos, 2
    {
      r := ParsePostfix();
      if r.None? { return; }
      var lhs := r.value;
      while true
        invariant Valid() && pos > old(pos)
        invariant ParseLevel(2, old(Rest())) == Chain(2, lhs, Rest())
        decreases |toks| - pos
      {
        var op := PeekOp(2);
        ChainOn(2, lhs, Rest());
        if op.None? { return Some(lhs); }
        pos := pos + 1;
        var rhs := ParsePostfix();
        if rhs.None? { return None; }
        lhs := Binary(op.value, lhs, rhs.value);
      }
    }

    method ParsePostfix() returns (r: Option<Expr>)
      requires Valid()
      modifies this
      ensures Agrees(ParseLevel(3, old(Rest())), r) && (r.Some? ==> pos > old(pos))
      decreases |toks| - pos, 1
    {
      r := ParsePrimaryExpr();
      if r.None? { return; }
      var e := r.value;
      while pos < |toks| && toks[pos] == Dot
        invariant Valid() && pos > old(pos)
        invariant ParseLevel(3, old(Rest())) == Members(e, Rest())
        decreases |toks| - pos
      {
        MembersOn(e, Rest());
        pos := pos + 1;
        var field := Name();
        if field.None? { return None; }
        e := Member(e, field.value);
      }
      r := Some(e);
    }

    method ParsePrimaryExpr() returns (r: Option<Expr>)
      requires Valid()
      modifies this
      ensures Agrees(ParsePrimary(old(Rest())), r) && (r.Some? ==> pos > old(pos))
      decreases |toks| - pos, 0
    {
      var t := NextTok();
      if t.None? { return None; }
      match t.value {
        case IntTok(n) => r := Some(Int(n));
        case FloatTok(f) => r := Some(Float(f));
        case StrTok(s) => r := Some(Str(s));
        case Ident(s) =>
          r := Some(if s == "true" then Bool(true) else if s == "false" then Bool(false) else ChimeraSyntax.Name(s));
        case LParen =>
          r := ParseExpr();
          if r.None? { return; }
          var ok := Eat(RParen);
          if !ok { return None; }
        case LBracket =>
          var items := ParseList();
          if items.None? { return None; }
          r := Some(List(items.value));
        case _ => r := None;
      }
    }

    method ParseList() returns (r: Option<seq<Expr>>)
      requires Valid() && pos > 0
      modifies this
      ensures Agrees(ParseItems(old(Rest())), r) && (r.Some? ==> pos > old(pos))
      decreases |toks| - pos, 6
    {
      var items: seq<Expr> := [];
      PrependNothing(ParseItems(Rest()));
      while !(pos < |toks| && toks[pos] == RBracket)
        invariant Valid() && pos >= old(pos)
        invariant ParseItems(old(Rest())) == Prepend(items, ParseItems(Rest()))
        decreases |toks| - pos
      {
        ghost var ts := Rest();
        var e := ParseExpr();
        if e.None? { return None; }
        ghost var after := Rest();
        SkipOptionalComma();
        ItemsUnfold(ts, e.value, after);
        PrependMore(items, e.value, ParseItems(Rest()));
        items := items + [e.value];
      }
      assert Rest()[0] == RBracket;
      var _ := Eat(RBracket);
      assert items + [] == items;
      r := Some(items);
    }

    // ---------- statements ----------

    method IsKw(kw: string) returns (b: bool)
      requires Valid()
      ensures b <==> StartsKw(Rest(), kw)
    {
      b := pos < |toks| && toks[pos] == Ident(kw);
    }

    method Statement() returns (r: Option<Stmt>)
      requires Valid()
      modifies this
      ensures Agrees(ParseStmt(old(Rest())), r) && (r.Some? ==> pos > old(pos))
      decreases |toks| - pos, 1
    {
      var kw := IsKw("val");
      if kw { r := ValStmt(); return; }
      kw := IsKw("for");
      if kw { r := ForStmt(); return; }
      kw := IsKw("belief");
      if kw { r := BeliefStmt(); return; }
      kw := IsKw("resolve");
      if kw { r := ResolveStmt(); return; }
      kw := IsKw("guard");
      if kw { r := GuardStmt(); return; }
      kw := IsKw("evolve");
      if kw { r := EvolveStmt(); return; }
      kw := IsKw("emit");
      if kw { r := EmitStmt(); return; }
      return None;
    }

    method ValStmt() returns (r: Option<Stmt>)
      requires Valid() && Rest() != []
      modifies this
      ensures Agrees(ParseVal(old(Rest())), r) && (r.Some? ==> pos > old(pos))
    {
      ghost var ts := Rest();
      pos := pos + 1;
      var name := Name();
      if name.None? { return None; }
      assert Rest() == ts[2..];
      var ok := Eat(Assign);
      if !ok { return None; }
      assert Rest() == ts[3..];
      var e := ParseExpr();
      if e.None? { return None; }
      r := Some(Val(name.value, e.value));
    }

    method EmitStmt() returns (r: Option<Stmt>)
      requires Valid() && Rest() != []
      modifies this
      ensures Agrees(ParseEmit(old(Rest())), r) && (r.Some? ==> pos > old(pos))
    {
      pos := pos + 1;
      var e := ParseExpr();
      if e.None? { return None; }
      r := Some(Emit(e.value));
    }

    method ForStmt() returns (r: Option<Stmt>)
      requires Valid() && Rest() != []
      modifies this
      ensures Agrees(ParseFor(old(Rest())), r) && (r.Some? ==> pos > old(pos))
      decreases |toks| - pos, 0
    {
      ghost var ts := Rest();
      pos := pos + 1;
      var name := Name();
      if name.None? { return None; }
      assert Rest() == ts[2..];
      var ok := Eat(Ident("in"));
      if !ok { return None; }
      assert Rest() == ts[3..];
      var iter := ParseExpr();
      if iter.None? { return None; }
      var body := Body();
      if body.None? { return None; }
      r := Some(For(name.value, iter.value, body.value));
    }

    method Body() returns (r: Option<seq<Stmt>>)
      requires Valid()
      modifies this
      ensures Agrees(ParseBody(old(Rest())), r) && (r.Some? ==> pos > old(pos))
      decreases |toks| - pos, 2
    {
      var body: seq<Stmt> := [];
      PrependNothing(ParseBody(Rest()));
      while !(pos < |toks| && toks[pos] == Ident("end"))
        invariant Valid() && pos >= old(pos)
        invariant ParseBody(old(Rest())) == Prepend(body, ParseBody(Rest()))
        decreases |toks| - pos
      {
        if pos == |toks| { return None; }
        ghost var ts := Rest();
        var s := Statement();
        if s.None? { return None; }
        BodyUnfold(ts, s.value, Rest());
        PrependMore(body, s.value, ParseBody(Rest()));
        body := body + [s.value];
      }
      assert Rest()[0] == Ident("end");
      var _ := Eat(Ident("end"));
      assert body + [] == body;
      r := Some(body);
    }

    method Options(a: string, b: string) returns (name: string, r: Option<map<string, real>>)
      requires Valid() && Rest() != []
      modifies this
      ensures Agrees(OptionBlock(old(Rest()), a, b), r) && (r.Some? ==> pos > old(pos))
      ensures r.Some? ==> name == old(Rest())[1].name
    {
      ghost var ts := Rest();
      pos := pos + 1;
      name := "";
      var n := Name();
      if n.None? { return name, None; }
      name := n.value;
      assert Rest() == ts[2..];
      var ok := Eat(Ident(a));
      if !ok { return name, None; }
      assert Rest() == ts[3..];
      ok := Eat(Ident(b));
      if !ok { return name, None; }
      assert Rest() == ts[4..];
      ok := Eat(LBrace);
      if !ok { return name, None; }
      assert Rest() == ts[5..];
      r := BraceKvs();
    }

    /** `key : token`. */
    method KeyAndToken() returns (r: Option<(string, Tok)>)
      requires Valid()
      modifies this
      ensures Valid() && pos >= old(pos)
      ensures r.Some? <==> |old(Rest())| >= 3 && old(Rest())[0].Ident? && old(Rest())[1] == Colon
      ensures r.Some? ==> r.value == (old(Rest())[0].name, old(Rest())[2]) && Rest() == old(Rest())[3..] && pos > old(pos)
    {
      ghost var ts := Rest();
      var key := Name();
      if key.None? { return None; }
      assert Rest() == ts[1..];
      var ok := Eat(Colon);
      if !ok { return None; }
      assert Rest() == ts[2..];
      var v := NextTok();
      if v.None? { return None; }
      assert Rest() == ts[3..];
      r := Some((key.value, v.value));
    }

    method BraceKvs() returns (r: Option<map<string, real>>)
      requires Valid()
      modifies this
      ensures Agrees(ParseKvs(map[], old(Rest())), r) && (r.Some? ==> pos > old(pos))
    {
      var kv: map<string, real> := map[];
      while !(pos < |toks| && toks[pos] == RBrace)
        invariant Valid() && pos >= old(pos)
        invariant ParseKvs(map[], old(Rest())) == ParseKvs(kv, Rest())
        decreases |toks| - pos
      {
        KvsOn(kv, Rest());
        var entry := KeyAndToken();
        if entry.None? { return None; }
        var (key, v) := entry.value;
        var more := Kept(kv, key, v);
        if more.None? { return None; }
        kv := more.value;
        SkipOptionalComma();
      }
      var _ := Eat(RBrace);
      r := Some(kv);
    }

    method ResolveStmt() returns (r: Option<Stmt>)
      requires Valid() && Rest() != []
      modifies this
      ensures Agrees(ParseResolve(old(Rest())), r) && (r.Some? ==> pos > old(pos))
    {
      var name, kv := Options("with", "consensus");
      if kv.None? { return None; }
      r := Some(Resolve(name, Lookup(kv.value, "threshold", 0.8)));
    }

    method GuardStmt() returns (r: Option<Stmt>)
      requires Valid() && Rest() != []
      modifies this
      ensures Agrees(ParseGuard(old(Rest())), r) && (r.Some? ==> pos > old(pos))
    {
      var name, kv := Options("against", "hallucination");
      if kv.None? { return None; }
      r := Some(Guard(name, Lookup(kv.value, "max_risk", 0.2)));
    }

    method EvolveStmt() returns (r: Option<Stmt>)
      requires Valid() && Rest() != []
      modifies this
      ensures Agrees(ParseEvolve(old(Rest())), r) && (r.Some? ==> pos > old(pos))
    {
      var name, kv := Options("until", "stable");
      if kv.None? { return None; }
      r := Some(Evolve(name, ToU32(Lookup(kv.value, "max_iter", 3.0))));
    }

    method BeliefStmt() returns (r: Option<Stmt>)
      requires Valid() && Rest() != []
      modifies this
      ensures Agrees(ParseBelief(old(Rest())), r) && (r.Some? ==> pos > old(pos))
    {
      ghost var ts := Rest();
      pos := pos + 1;
      var name := Name();
      if name.None? { return None; }
      assert Rest() == ts[2..];
      var ok := Eat(ColonAssign);
      if !ok { return None; }
      assert Rest() == ts[3..];
      ok := Eat(Ident("inquire"));
      if !ok { return None; }
      assert Rest() == ts[4..];
      ok := Eat(LBrace);
      if !ok { return None; }
      var q := Fields();
      if q.None? { return None; }
      r := Some(Belief(name.value, q.value.prompt, q.value.agents, q.value.ttl));
    }

    method Fields() returns (r: Option<Inquiry>)
      requires Valid()
      modifies this
      ensures Agrees(ParseFields(Inquiry("", [], 0), old(Rest())), r) && (r.Some? ==> pos > old(pos))
    {
      var q := Inquiry("", [], 0);
      while !(pos < |toks| && toks[pos] == RBrace)
        invariant Valid() && pos >= old(pos)
        invariant ParseFields(Inquiry("", [], 0), old(Rest())) == ParseFields(q, Rest())
        decreases |toks| - pos
      {
        var entry := KeyAndToken();
        if entry.None? { return None; }
        var (key, v) := entry.value;
        if key == "prompt" {
          if !v.StrTok? { return None; }
          q := q.(prompt := v.s);
        } else if key == "agents" {
          if v != LBracket { return None; }
          var agents := Agents(q.agents);
          if agents.None? { return None; }
          q := q.(agents := agents.value);
        } else if key == "ttl" {
          if !v.IntTok? { return None; }
          q := q.(ttl := if v.n < 0 then 0 else v.n);
        } else {
          return None;
        }
        SkipOptionalComma();
      }
      var _ := Eat(RBrace);
      r := Some(q);
    }

    method Agents(before: seq<string>) returns (r: Option<seq<string>>)
      requires Valid()
      modifies this
      ensures Agrees(ParseAgents(before, old(Rest())), r) && (r.Some? ==> pos > old(pos))
    {
      var agents := before;
      while !(pos < |toks| && toks[pos] == RBracket)
        invariant Valid() && pos >= old(pos)
        invariant ParseAgents(before, old(Rest())) == ParseAgents(agents, Rest())
        decreases |toks| - pos
      {
        var a := Name();
        if a.None? { return None; }
        agents := agents + [a.value];
        SkipOptionalComma();
      }
      var _ := Eat(RBracket);
      r := Some(agents);
    }

    // ---------- programs ----------

    method ParseAll() returns (r: Option<Program>)
      requires pos == 0
      modifies this
      ensures r == ParseProgram(toks)
    {
      var stmts: seq<Stmt> := [];
      var uses := false;
      while pos < |toks|
        invariant Valid()
        invariant ParseProgram(toks) == ParseProgramFrom(stmts, uses, Rest())
        decreases |toks| - pos
      {
        var s := Statement();
        if s.None? { return None; }
        if IsBelief(s.value) { uses := true; }
        stmts := stmts + [s.value];
      }
      r := Some(Program(stmts, uses));
    }
  }

  /** What has been collected so far, in front of what the grammar still has to say. */
  ghost function Prepend<T>(got: seq<T>, p: Parsed<seq<T>>): Parsed<seq<T>> {
    match p
    case Fail => Fail
    case Got(v, rest) => Got(got + v, rest)
  }

  lemma PrependNothing<T>(p: Parsed<seq<T>>)
    ensures Prepend([], p) == p
  {
    if p.Got? {
      assert [] + p.value == p.value;
    }
  }

  lemma PrependMore<T>(got: seq<T>, x: T, p: Parsed<seq<T>>)
    ensures Prepend(got, Prepend([x], p)) == Prepend(got + [x], p)
  {
    if p.Got? {
      assert got + ([x] + p.value) == got + [x] + p.value;
    }
  }

  lemma ItemsUnfold(ts: seq<Tok>, e: Expr, after: seq<Tok>)
    requires !Starts(ts, RBracket) && ParseLevel(0, ts) == Got(e, after)
    ensures ParseItems(ts) == Prepend([e], ParseItems(SkipComma(after)))
  {
  }

  lemma BodyUnfold(ts: seq<Tok>, s: Stmt, after: seq<Tok>)
    requires ts != [] && !StartsKw(ts, "end") && ParseStmt(ts) == Got(s, after)
    ensures ParseBody(ts) == Prepend([s], ParseBody(after))
  {
  }
}
