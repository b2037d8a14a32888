/**
 * ChimeraLang: tokens, syntax trees, the grammar as functions on token sequences, and a
 * printer with parentheses only where precedence or left associativity calls for them.
 */
module ChimeraSyntax {
  import opened Common

  datatype Tok =
    | Ident(name: string)
    | IntTok(n: int)
    | FloatTok(f: real)
    | StrTok(s: string)
    | Assign | ColonAssign | Colon | Comma | Dot
    | LParen | RParen | LBracket | RBracket | LBrace | RBrace
    | Plus | Minus | Star | Slash
    | Lt | Gt | Le | Ge | EqEq | Ne

  datatype BinOp = Add | Sub | Mul | Div | Less | Greater | AtMost | AtLeast | Eq | NotEq

  datatype Expr =
    | Int(n: int)
    | Float(f: real)
    | Str(s: string)
    | Bool(b: bool)
    | Name(name: string)
    | List(items: seq<Expr>)
    | Binary(op: BinOp, lhs: Expr, rhs: Expr)
    | Member(base: Expr, field: string)

  type u32 = n: int | 0 <= n < 0x1_0000_0000

  datatype Stmt =
    | Val(name: string, value: Expr)
    | Emit(e: Expr)
    | For(name: string, iter: Expr, body: seq<Stmt>)
    | Belief(name: string, prompt: string, agents: seq<string>, ttl: nat)
    | Resolve(name: string, threshold: real)
    | Guard(name: string, maxRisk: real)
    | Evolve(name: string, maxIter: u32)

  datatype Program = Program(stmts: seq<Stmt>, usesBelief: bool)

  datatype Parsed<T> = Fail | Got(value: T, rest: seq<Tok>)

  // ---------- operators and levels ----------

  /** 0 comparison, 1 additive, 2 multiplicative. */
  function OpLevel(op: BinOp): nat {
    match op
    case Add => 1
    case Sub => 1
    case Mul => 2
    case Div => 2
    case _ => 0
  }

  function OpTok(op: BinOp): Tok {
    match op
    case Add => Plus
    case Sub => Minus
    case Mul => Star
    case Div => Slash
    case Less => Lt
    case Greater => Gt
    case AtMost => Le
    case AtLeast => Ge
    case Eq => EqEq
    case NotEq => Ne
  }

  /** The operator that this token is at this level, if it is one. */
  function OpAt(level: nat, t: Tok): Option<BinOp> {
    match (level, t)
    case (0, Lt) => Some(Less)
    case (0, Gt) => Some(Greater)
    case (0, Le) => Some(AtMost)
    case (0, Ge) => Some(AtLeast)
    case (0, EqEq) => Some(Eq)
    case (0, Ne) => Some(NotEq)
    case (1, Plus) => Some(Add)
    case (1, Minus) => Some(Sub)
    case (2, Star) => Some(Mul)
    case (2, Slash) => Some(Div)
    case _ => None
  }

  predicate Starts(ts: seq<Tok>, t: Tok) { ts != [] && ts[0] == t }

  predicate StartsKw(ts: seq<Tok>, kw: string) { ts != [] && ts[0].Ident? && ts[0].name == kw }

  // ---------- expressions ----------

  /** A chain of operators of one level over the next level; level 3 is postfix. */
  function ParseLevel(level: nat, ts: seq<Tok>): (r: Parsed<Expr>)
    requires level <= 3
    ensures r.Got? ==> |r.rest| < |ts|
    decreases |ts|, 10 - level
  {
    if level == 3 then
      match ParsePrimary(ts)
      case Fail => Fail
      case Got(e, rest) => Members(e, rest)
    else
      match ParseLevel(level + 1, ts)
      case Fail => Fail
      case Got(e, rest) => Chain(level, e, rest)
  }

  function Chain(level: nat, lhs: Expr, ts: seq<Tok>): (r: Parsed<Expr>)
    requires level < 3
    ensures r.Got? ==> |r.rest| <= |ts|
    decreases |ts|, 10
  {
    if ts == [] || OpAt(level, ts[0]).None? then Got(lhs, ts)
    else
      match ParseLevel(level + 1, ts[1..])
      case Fail => Fail
      case Got(rhs, rest) => Chain(level, Binary(OpAt(level, ts[0]).value, lhs, rhs), rest)
  }

  function Members(e: Expr, ts: seq<Tok>): (r: Parsed<Expr>)
    ensures r.Got? ==> |r.rest| <= |ts|
    decreases |ts|, 0
  {
    if !Starts(ts, Dot) then Got(e, ts)
    else if |ts| < 2 || !ts[1].Ident? then Fail
    else Members(Member(e, ts[1].name), ts[2..])
  }

  function ParsePrimary(ts: seq<Tok>): (r: Parsed<Expr>)
    ensures r.Got? ==> |r.rest| < |ts|
    decreases |ts|, 0
  {
    if ts == [] then Fail
    else match ts[0]
      case IntTok(n) => Got(Int(n), ts[1..])
      case FloatTok(f) => Got(Float(f), ts[1..])
      case StrTok(s) => Got(Str(s), ts[1..])
      case Ident(s) => Got(if s == "true" then Bool(true) else if s == "false" then Bool(false) else Name(s), ts[1..])
      case LParen =>
        (match ParseLevel(0, ts[1..])
         case Fail => Fail
         case Got(e, rest) => if Starts(rest, RParen) then Got(e, rest[1..]) else Fail)
      case LBracket =>
        (match ParseItems(ts[1..])
         case Fail => Fail
         case Got(items, rest) => Got(List(items), rest))
      case _ => Fail
  }

  /** List items up to and including the closing bracket; the comma after an item is optional. */
  function ParseItems(ts: seq<Tok>): (r: Parsed<seq<Expr>>)
    ensures r.Got? ==> |r.rest| < |ts|
    decreases |ts|, 11
  {
    if Starts(ts, RBracket) then Got([], ts[1..])
    else
      match ParseLevel(0, ts)
      case Fail => Fail
      case Got(e, rest) =>
        match ParseItems(SkipComma(rest))
        case Fail => Fail
        case Got(es, rest') => Got([e] + es, rest')
  }

  function SkipComma(ts: seq<Tok>): (r: seq<Tok>)
    ensures |r| <= |ts|
  {
    if Starts(ts, Comma) then ts[1..] else ts
  }

  // ---------- statements ----------

  function ParseStmt(ts: seq<Tok>): (r: Parsed<Stmt>)
    ensures r.Got? ==> |r.rest| < |ts|
    decreases |ts|, 2
  {
    if StartsKw(ts, "val") then ParseVal(ts)
    else if StartsKw(ts, "for") then ParseFor(ts)
    else if StartsKw(ts, "belief") then ParseBelief(ts)
    else if StartsKw(ts, "resolve") then ParseResolve(ts)
    else if StartsKw(ts, "guard") then ParseGuard(ts)
    else if StartsKw(ts, "evolve") then ParseEvolve(ts)
    else if StartsKw(ts, "emit") then ParseEmit(ts)
    else Fail
  }

  function ParseVal(ts: seq<Tok>): (r: Parsed<Stmt>)
    ensures r.Got? ==> |r.rest| < |ts|
  {
    if |ts| < 3 || !ts[1].Ident? || ts[2] != Assign then Fail
    else match ParseLevel(0, ts[3..])
      case Fail => Fail
      case Got(e, rest) => Got(Val(ts[1].name, e), rest)
  }

  function ParseEmit(ts: seq<Tok>): (r: Parsed<Stmt>)
    ensures r.Got? ==> |r.rest| < |ts|
  {
    if ts == [] then Fail
    else match ParseLevel(0, ts[1..])
      case Fail => Fail
      case Got(e, rest) => Got(Emit(e), rest)
  }

  function ParseFor(ts: seq<Tok>): (r: Parsed<Stmt>)
    ensures r.Got? ==> |r.rest| < |ts|
    decreases |ts|, 0
  {
    if |ts| < 3 || !ts[1].Ident? || ts[2] != Ident("in") then Fail
    else match ParseLevel(0, ts[3..])
      case Fail => Fail
      case Got(e, rest) =>
        match ParseBody(rest)
        case Fail => Fail
        case Got(body, rest') => Got(For(ts[1].name, e, body), rest')
  }

  function ParseBelief(ts: seq<Tok>): (r: Parsed<Stmt>)
    ensures r.Got? ==> |r.rest| < |ts|
  {
    if |ts| < 4 || !ts[1].Ident? || ts[2] != ColonAssign || ts[3] != Ident("inquire") then Fail
    else ParseInquire(ts[1].name, ts[4..])
  }

  function ParseResolve(ts: seq<Tok>): (r: Parsed<Stmt>)
    ensures r.Got? ==> |r.rest| < |ts|
  {
    match OptionBlock(ts, "with", "consensus")
    case Fail => Fail
    case Got(kv, rest) => Got(Resolve(ts[1].name, Lookup(kv, "threshold", 0.8)), rest)
  }

  function ParseGuard(ts: seq<Tok>): (r: Parsed<Stmt>)
    ensures r.Got? ==> |r.rest| < |ts|
  {
    match OptionBlock(ts, "against", "hallucination")
    case Fail => Fail
    case Got(kv, rest) => Got(Guard(ts[1].name, Lookup(kv, "max_risk", 0.2)), rest)
  }

  function ParseEvolve(ts: seq<Tok>): (r: Parsed<Stmt>)
    ensures r.Got? ==> |r.rest| < |ts|
  {
    match OptionBlock(ts, "until", "stable")
    case Fail => Fail
    case Got(kv, rest) => Got(Evolve(ts[1].name, ToU32(Lookup(kv, "max_iter", 3.0))), rest)
  }

  /** Statements up to and including `end`. */
  function ParseBody(ts: seq<Tok>): (r: Parsed<seq<Stmt>>)
    ensures r.Got? ==> |r.rest| < |ts|
    decreases |ts|, 3
  {
    if StartsKw(ts, "end") then Got([], ts[1..])
    else if ts == [] then Fail
    else
      match ParseStmt(ts)
      case Fail => Fail
      case Got(s, rest) =>
        match ParseBody(rest)
        case Fail => Fail
        case Got(body, rest') => Got([s] + body, rest')
  }

  /** `kw NAME a b { ... }`: the options. */
  function OptionBlock(ts: seq<Tok>, a: string, b: string): (r: Parsed<map<string, real>>)
    ensures r.Got? ==> |r.rest| < |ts| && |ts| > 1 && ts[1].Ident?
  {
    if |ts| < 5 || !ts[1].Ident? || ts[2] != Ident(a) || ts[3] != Ident(b) || ts[4] != LBrace then Fail
    else ParseKvs(map[], ts[5..])
  }

  /** Numeric options are kept, identifier-valued ones accepted and ignored; the last of a key wins. */
  function ParseKvs(kv: map<string, real>, ts: seq<Tok>): (r: Parsed<map<string, real>>)
    ensures r.Got? ==> |r.rest| < |ts|
    decreases |ts|
  {
    if Starts(ts, RBrace) then Got(kv, ts[1..])
    else if |ts| < 3 || !ts[0].Ident? || ts[1] != Colon then Fail
    else match ts[2]
      case FloatTok(f) => ParseKvs(kv[ts[0].name := f], SkipComma(ts[3..]))
      case IntTok(n) => ParseKvs(kv[ts[0].name := n as real], SkipComma(ts[3..]))
      case Ident(_) => ParseKvs(kv, SkipComma(ts[3..]))
      case _ => Fail
  }

  function Lookup(kv: map<string, real>, key: string, default: real): real {
    if key in kv then kv[key] else default
  }

  /** A saturating cast that truncates. */
  function ToU32(r: real): u32 {
    if r <= 0.0 then 0 else if r >= 4294967295.0 then 4294967295 else r.Floor
  }

  datatype Inquiry = Inquiry(prompt: string, agents: seq<string>, ttl: nat)

  function ParseInquire(name: string, ts: seq<Tok>): (r: Parsed<Stmt>)
    ensures r.Got? ==> |r.rest| < |ts|
  {
    if !Starts(ts, LBrace) then Fail
    else match ParseFields(Inquiry("", [], 0), ts[1..])
      case Fail => Fail
      case Got(q, rest) => Got(Belief(name, q.prompt, q.agents, q.ttl), rest)
  }

  function ParseFields(q: Inquiry, ts: seq<Tok>): (r: Parsed<Inquiry>)
    ensures r.Got? ==> |r.rest| < |ts|
    decreases |ts|
  {
    if Starts(ts, RBrace) then Got(q, ts[1..])
    else if |ts| < 3 || !ts[0].Ident? || ts[1] != Colon then Fail
    else if ts[0].name == "prompt" then
      if ts[2].StrTok? then ParseFields(q.(prompt := ts[2].s), SkipComma(ts[3..])) else Fail
    else if ts[0].name == "agents" then
      if ts[2] != LBracket then Fail
      else match ParseAgents(q.agents, ts[3..])
        case Fail => Fail
        case Got(agents, rest) => ParseFields(q.(agents := agents), SkipComma(rest))
    else if ts[0].name == "ttl" then
      if ts[2].IntTok? then ParseFields(q.(ttl := if ts[2].n < 0 then 0 else ts[2].n), SkipComma(ts[3..])) else Fail
    else Fail
  }

  function ParseAgents(agents: seq<string>, ts: seq<Tok>): (r: Parsed<seq<string>>)
    ensures r.Got? ==> |r.rest| < |ts|
    decreases |ts|
  {
    if Starts(ts, RBracket) then Got(agents, ts[1..])
    else if ts == [] || !ts[0].Ident? then Fail
    else ParseAgents(agents + [ts[0].name], SkipComma(ts[1..]))
  }

  predicate IsBelief(s: Stmt) { s.Belief? || s.Resolve? || s.Guard? || s.Evolve? }

  function ParseProgramFrom(stmts: seq<Stmt>, usesBelief: bool, ts: seq<Tok>): Option<Program>
    decreases |ts|
  {
    if ts == [] then Some(Program(stmts, usesBelief))
    else match ParseStmt(ts)
      case Fail => None
      case Got(s, rest) => ParseProgramFrom(stmts + [s], usesBelief || IsBelief(s), rest)
  }

  function ParseProgram(ts: seq<Tok>): Option<Program> {
    ParseProgramFrom([], false, ts)
  }

  // ---------- printer ----------

  function Level(e: Expr): nat {
    if e.Binary? then OpLevel(e.op) else 3
  }

  /** `e` where a `level` expression is expected: in parentheses only if it binds more loosely. */
  function Print(level: nat, e: Expr): seq<Tok>
    requires level <= 3
    decreases e, if level > Level(e) then 1 else 0
  {
    if level > Level(e) then [LParen] + Print(0, e) + [RParen]
    else match e
      case Int(n) => [IntTok(n)]
      case Float(f) => [FloatTok(f)]
      case Str(s) => [StrTok(s)]
      case Bool(b) => [Ident(if b then "true" else "false")]
      case Name(s) => [Ident(s)]
      case List(items) => [LBracket] + PrintItems(items) + [RBracket]
      case Binary(op, l, r) => Print(OpLevel(op), l) + [OpTok(op)] + Print(OpLevel(op) + 1, r)
      case Member(b, f) => Print(3, b) + [Dot, Ident(f)]
  }

  function PrintItems(items: seq<Expr>): seq<Tok> {
    if items == [] then []
    else Print(0, items[0]) + (if |items| == 1 then [] else [Comma] + PrintItems(items[1..]))
  }

  function PrintStmt(s: Stmt): seq<Tok> {
    match s
    case Val(x, e) => [Ident("val"), Ident(x), Assign] + Print(0, e)
    case Emit(e) => [Ident("emit")] + Print(0, e)
    case For(x, e, body) => [Ident("for"), Ident(x), Ident("in")] + Print(0, e) + PrintStmts(body) + [Ident("end")]
    case Belief(x, prompt, agents, ttl) =>
      [Ident("belief"), Ident(x), ColonAssign, Ident("inquire"), LBrace,
       Ident("prompt"), Colon, StrTok(prompt), Comma, Ident("agents"), Colon, LBracket]
      + PrintAgents(agents) + [RBracket, Comma, Ident("ttl"), Colon, IntTok(ttl), RBrace]
    case Resolve(x, r) => PrintOption("resolve", x, "with", "consensus", "threshold", FloatTok(r))
    case Guard(x, r) => PrintOption("guard", x, "against", "hallucination", "max_risk", FloatTok(r))
    case Evolve(x, n) => PrintOption("evolve", x, "until", "stable", "max_iter", IntTok(n))
  }

  function PrintOption(kw: string, x: string, a: string, b: string, key: string, v: Tok): seq<Tok> {
    [Ident(kw), Ident(x), Ident(a), Ident(b), LBrace, Ident(key), Colon, v, RBrace]
  }

  function PrintAgents(agents: seq<string>): seq<Tok> {
    if agents == [] then []
    else [Ident(agents[0])] + (if |agents| == 1 then [] else [Comma] + PrintAgents(agents[1..]))
  }

  function PrintStmts(ss: seq<Stmt>): seq<Tok> {
    if ss == [] then [] else PrintStmt(ss[0]) + PrintStmts(ss[1..])
  }

  /** Names in expressions that the grammar reads back as names rather than as booleans. */
  predicate Printable(e: Expr) {
    match e
    case Name(s) => s != "true" && s != "false"
    case List(items) => PrintableItems(items)
    case Binary(_, l, r) => Printable(l) && Printable(r)
    case Member(b, _) => Printable(b)
    case _ => true
  }

  predicate PrintableStmt(s: Stmt) {
    match s
    case Val(_, e) => Printable(e)
    case Emit(e) => Printable(e)
    case For(_, e, body) => Printable(e) && PrintableStmts(body)
    case _ => true
  }

  predicate PrintableItems(items: seq<Expr>) {
    items == [] || (Printable(items[0]) && PrintableItems(items[1..]))
  }

  predicate PrintableStmts(ss: seq<Stmt>) {
    ss == [] || (PrintableStmt(ss[0]) && PrintableStmts(ss[1..]))
  }
}
