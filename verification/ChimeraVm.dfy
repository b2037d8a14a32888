/**
 * Running ChimeraLang programs without beliefs: values that carry a confidence, expression
 * evaluation, and the statement machine. Floats are those of ChimeraFloats.
 */
module ChimeraVm {
  import opened Common
  import opened Decimals
  import opened ChimeraSyntax
  import opened ChimeraFloats

  datatype Value = IntV(n: int) | FloatV(f: F64) | StrV(s: string) | BoolV(b: bool) | ListV(items: seq<CValue>)

  datatype CValue = CValue(value: Value, confidence: real)

  type Env = map<string, CValue>

  datatype RunError =
    | Undefined(name: string)
    | UnknownMember(field: string)
    | ArithmeticNeedsNumbers
    | ComparisonNeedsNumbers
    | CannotIterate(v: Value)
    | BeliefOnVm
    | UnknownBelief(name: string)

  datatype Outcome<+T> = Ok(value: T) | Err(error: RunError)

  /** Either a plain value or, on the belief path, the mean of a belief with its answer. */
  datatype Emission = Text(s: string) | Told(name: string, answer: string, mean: real)

  datatype Vm = Vm(env: Env, emitted: seq<Emission>)

  function Min(a: real, b: real): real { if b < a then b else a }

  function Abs(x: real): real { if x < 0.0 then 0.0 - x else x }

  function Sure(v: Value): CValue { CValue(v, 1.0) }

  // ---------- display ----------

  function IntText(n: int): string {
    if n < 0 then "-" + Decimal(0 - n) else Decimal(n)
  }

  function Display(v: CValue, fl: Floats): string
    decreases v
  {
    match v.value
    case IntV(n) => IntText(n)
    case FloatV(f) => fl.show(f)
    case StrV(s) => s
    case BoolV(b) => if b then "true" else "false"
    case ListV(items) => "[" + Joined(items, fl) + "]"
  }

  function Joined(items: seq<CValue>, fl: Floats): string
    decreases items
  {
    if items == [] then ""
    else Display(items[0], fl) + (if |items| == 1 then "" else ", " + Joined(items[1..], fl))
  }

  // ---------- expressions ----------

  function Number(v: Value, fl: Floats): Option<F64> {
    match v
    case IntV(n) => Some(fl.round(n as real))
    case FloatV(f) => Some(f)
    case _ => None
  }

  function Arithmetic(a: Value, b: Value, f: (F64, F64) -> F64, fl: Floats): Outcome<Value> {
    if Number(a, fl).Some? && Number(b, fl).Some? then Ok(FloatV(f(Number(a, fl).value, Number(b, fl).value)))
    else Err(ArithmeticNeedsNumbers)
  }

  function Compared(op: BinOp, x: F64, y: F64): bool {
    match op
    case Less => LessThan(x, y)
    case Greater => LessThan(y, x)
    case AtMost => Leq(x, y)
    case _ => Leq(y, x)
  }

  function ValuesEq(a: Value, b: Value, fl: Floats): bool {
    match (a, b)
    case (IntV(x), IntV(y)) => x == y
    case (FloatV(x), FloatV(y)) => Close(x, y, fl)
    case (IntV(x), FloatV(y)) => Close(fl.round(x as real), y, fl)
    case (FloatV(y), IntV(x)) => Close(fl.round(x as real), y, fl)
    case (StrV(x), StrV(y)) => x == y
    case (BoolV(x), BoolV(y)) => x == y
    case _ => false
  }

  function EvalBinop(op: BinOp, a: Value, b: Value, fl: Floats): Outcome<Value> {
    match op
    case Add =>
      if a.StrV? then Ok(StrV(a.s + Display(Sure(b), fl)))
      else if b.StrV? then Ok(StrV(Display(Sure(a), fl) + b.s))
      else if a.IntV? && b.IntV? then Ok(IntV(a.n + b.n))
      else Arithmetic(a, b, (x, y) => Sum(x, y, fl), fl)
    case Sub => if a.IntV? && b.IntV? then Ok(IntV(a.n - b.n)) else Arithmetic(a, b, (x, y) => Difference(x, y, fl), fl)
    case Mul => if a.IntV? && b.IntV? then Ok(IntV(a.n * b.n)) else Arithmetic(a, b, (x, y) => Product(x, y, fl), fl)
    case Div => Arithmetic(a, b, fl.div, fl)
    case Eq => Ok(BoolV(ValuesEq(a, b, fl)))
    case NotEq => Ok(BoolV(!ValuesEq(a, b, fl)))
    case _ =>
      if Number(a, fl).Some? && Number(b, fl).Some? then Ok(BoolV(Compared(op, Number(a, fl).value, Number(b, fl).value)))
      else Err(ComparisonNeedsNumbers)
  }

  function Least(xs: seq<CValue>): real {
    if xs == [] then 1.0 else Min(Least(xs[..|xs| - 1]), xs[|xs| - 1].confidence)
  }

  function Eval(e: Expr, env: Env, fl: Floats): Outcome<CValue>
    decreases e
  {
    match e
    case Int(n) => Ok(Sure(IntV(n)))
    case Float(f) => Ok(Sure(FloatV(fl.round(f))))
    case Str(s) => Ok(Sure(StrV(s)))
    case Bool(b) => Ok(Sure(BoolV(b)))
    case Name(x) => if x in env then Ok(env[x]) else Err(Undefined(x))
    case List(items) =>
      (match EvalAll(items, env, fl)
       case Err(x) => Err(x)
       case Ok(xs) => Ok(CValue(ListV(xs), Least(xs))))
    case Member(base, field) =>
      (match Eval(base, env, fl)
       case Err(x) => Err(x)
       case Ok(b) =>
         if field == "confidence" then Ok(Sure(FloatV(fl.round(b.confidence))))
         else if field == "raw" then Ok(CValue(b.value, 1.0))
         else Err(UnknownMember(field)))
    case Binary(op, lhs, rhs) =>
      (match Eval(lhs, env, fl)
       case Err(x) => Err(x)
       case Ok(a) =>
         match Eval(rhs, env, fl)
         case Err(x) => Err(x)
         case Ok(c) =>
           match EvalBinop(op, a.value, c.value, fl)
           case Err(x) => Err(x)
           case Ok(v) => Ok(CValue(v, Min(a.confidence, c.confidence))))
  }

  function EvalAll(items: seq<Expr>, env: Env, fl: Floats): Outcome<seq<CValue>>
    decreases items
  {
    if items == [] then Ok([])
    else
      match EvalAll(items[..|items| - 1], env, fl)
      case Err(x) => Err(x)
      case Ok(xs) =>
        match Eval(items[|items| - 1], env, fl)
        case Err(x) => Err(x)
        case Ok(v) => Ok(xs + [v])
  }

  // ---------- statements ----------

  function Letters(s: string): seq<CValue> {
    seq(|s|, i requires 0 <= i < |s| => Sure(StrV([s[i]])))
  }

  function Iterated(v: Value): Outcome<seq<CValue>> {
    match v
    case ListV(xs) => Ok(xs)
    case StrV(s) => Ok(Letters(s))
    case _ => Err(CannotIterate(v))
  }

  function Exec(s: Stmt, vm: Vm, fl: Floats): Outcome<Vm>
    decreases s, 3, 0
  {
    match s
    case Val(name, e) =>
      (match Eval(e, vm.env, fl)
       case Err(x) => Err(x)
       case Ok(v) => Ok(vm.(env := vm.env[name := v])))
    case Emit(e) =>
      (match Eval(e, vm.env, fl)
       case Err(x) => Err(x)
       case Ok(v) => Ok(vm.(emitted := vm.emitted + [Text(Display(v, fl))])))
    case For(name, iter, body) =>
      (match Eval(iter, vm.env, fl)
       case Err(x) => Err(x)
       case Ok(v) =>
         match Iterated(v.value)
         case Err(x) => Err(x)
         case Ok(items) => ExecItems(name, items, body, vm, fl))
    case _ => Err(BeliefOnVm)
  }

  function ExecAll(ss: seq<Stmt>, vm: Vm, fl: Floats): Outcome<Vm>
    decreases ss, 1, 0
  {
    if ss == [] then Ok(vm)
    else
      match Exec(ss[0], vm, fl)
      case Err(x) => Err(x)
      case Ok(next) => ExecAll(ss[1..], next, fl)
  }

  function ExecItems(name: string, items: seq<CValue>, body: seq<Stmt>, vm: Vm, fl: Floats): Outcome<Vm>
    decreases body, 2, |items|
  {
    if items == [] then Ok(vm)
    else
      match ExecAll(body, vm.(env := vm.env[name := items[0]]), fl)
      case Err(x) => Err(x)
      case Ok(next) => ExecItems(name, items[1..], body, next, fl)
  }

  /** The environment and output that statements change step by step. */
  class Machine {
    var env: Env
    var emitted: seq<Emission>

    constructor ()
      ensures env == map[] && emitted == []
    {
      env, emitted := map[], [];
    }

    ghost function State(): Vm
      reads this
    {
      Vm(env, emitted)
    }

    method Run(s: Stmt, fl: Floats) returns (failure: Option<RunError>)
      modifies this
      ensures failure.None? ==> Exec(s, old(State()), fl) == Ok(State())
      ensures failure.Some? ==> Exec(s, old(State()), fl) == Err(failure.value)
      decreases s, 3, 0
    {
      match s
      case Val(name, e) =>
        match Eval(e, env, fl) {
          case Err(x) => return Some(x);
          case Ok(v) => env := env[name := v];
        }
        return None;
      case Emit(e) =>
        match Eval(e, env, fl) {
          case Err(x) => return Some(x);
          case Ok(v) => emitted := emitted + [Text(Display(v, fl))];
        }
        return None;
      case For(name, iter, body) =>
        var v := Eval(iter, env, fl);
        if v.Err? { return Some(v.error); }
        var items := Iterated(v.value.value);
        if items.Err? { return Some(items.error); }
        failure := RunItems(name, items.value, body, fl);
      case _ =>
        return Some(BeliefOnVm);
    }

    method RunItems(name: string, items: seq<CValue>, body: seq<Stmt>, fl: Floats) returns (failure: Option<RunError>)
      modifies this
      ensures failure.None? ==> ExecItems(name, items, body, old(State()), fl) == Ok(State())
      ensures failure.Some? ==> ExecItems(name, items, body, old(State()), fl) == Err(failure.value)
      decreases body, 2, 0
    {
      var i := 0;
      while i < |items|
        invariant 0 <= i <= |items|
        invariant ExecItems(name, items, body, old(State()), fl) == ExecItems(name, items[i..], body, State(), fl)
      {
        env := env[name := items[i]];
        failure := RunBody(body, fl);
        if failure.Some? { return; }
        assert items[i..][1..] == items[i + 1..];
        i := i + 1;
      }
      return None;
    }

    method RunBody(ss: seq<Stmt>, fl: Floats) returns (failure: Option<RunError>)
      modifies this
      ensures failure.None? ==> ExecAll(ss, old(State()), fl) == Ok(State())
      ensures failure.Some? ==> ExecAll(ss, old(State()), fl) == Err(failure.value)
      decreases ss, 1, 0
    {
      var i := 0;
      while i < |ss|
        invariant 0 <= i <= |ss|
        invariant ExecAll(ss, old(State()), fl) == ExecAll(ss[i..], State(), fl)
      {
        failure := Run(ss[i], fl);
        if failure.Some? { return; }
        assert ss[i..][1..] == ss[i + 1..];
        i := i + 1;
      }
      return None;
    }
  }

  // ---------- confidence ----------

  /** The variables whose confidence reaches the value of an expression: `.confidence` and `.raw` cut it off. */
  function Uses(e: Expr): set<string>
    decreases e
  {
    match e
    case Name(x) => {x}
    case List(items) => UsesAll(items)
    case Binary(_, lhs, rhs) => Uses(lhs) + Uses(rhs)
    case _ => {}
  }

  function UsesAll(items: seq<Expr>): set<string>
    decreases items
  {
    if items == [] then {} else UsesAll(items[..|items| - 1]) + Uses(items[|items| - 1])
  }

  predicate UnitConfidence(env: Env) { forall x | x in env :: env[x].confidence <= 1.0 }

  /** `c` is the least of 1 and the confidences of these variables. */
  predicate LeastOf(c: real, names: set<string>, env: Env) {
    && c <= 1.0
    && (forall x | x in names :: x in env && c <= env[x].confidence)
    && (c == 1.0 || exists x :: x in names && x in env && c == env[x].confidence)
  }

  lemma LeastOfBoth(a: real, b: real, xs: set<string>, ys: set<string>, env: Env)
    requires LeastOf(a, xs, env) && LeastOf(b, ys, env)
    ensures LeastOf(Min(a, b), xs + ys, env)
  {
    if Min(a, b) != 1.0 {
      var x :| if b < a then x in ys && x in env && b == env[x].confidence else x in xs && x in env && a == env[x].confidence;
      assert x in xs + ys;
    }
  }

  /** A value is exactly as trustworthy as the least trusted variable that reaches it. */
  lemma {:induction false} ConfidenceIsLeast(e: Expr, env: Env, fl: Floats)
    requires UnitConfidence(env) && Eval(e, env, fl).Ok?
    ensures LeastOf(Eval(e, env, fl).value.confidence, Uses(e), env)
    decreases e
  {
    match e
    case List(items) => ConfidencesAreLeast(items, env, fl);
    case Binary(op, lhs, rhs) =>
      ConfidenceIsLeast(lhs, env, fl);
      ConfidenceIsLeast(rhs, env, fl);
      LeastOfBoth(Eval(lhs, env, fl).value.confidence, Eval(rhs, env, fl).value.confidence, Uses(lhs), Uses(rhs), env);
    case _ =>
  }

  lemma {:induction false} ConfidencesAreLeast(items: seq<Expr>, env: Env, fl: Floats)
    requires UnitConfidence(env) && EvalAll(items, env, fl).Ok?
    ensures LeastOf(Least(EvalAll(items, env, fl).value), UsesAll(items), env)
    decreases items
  {
    if items != [] {
      var init, last := items[..|items| - 1], items[|items| - 1];
      ConfidencesAreLeast(init, env, fl);
      ConfidenceIsLeast(last, env, fl);
      var xs, v := EvalAll(init, env, fl).value, Eval(last, env, fl).value;
      assert (xs + [v])[..|xs + [v]| - 1] == xs;
      LeastOfBoth(Least(xs), v.confidence, UsesAll(init), Uses(last), env);
    }
  }

  // ---------- no run ever doubts a value ----------

  /** Confidence 1 at every depth. */
  predicate Certain(v: CValue)
    decreases v
  {
    v.confidence == 1.0 && (v.value.ListV? ==> AllCertain(v.value.items))
  }

  predicate AllCertain(xs: seq<CValue>)
    decreases xs
  {
    xs == [] || (AllCertain(xs[..|xs| - 1]) && Certain(xs[|xs| - 1]))
  }

  predicate CertainEnv(env: Env) { forall x | x in env :: Certain(env[x]) }

  lemma {:induction false} AllCertainAt(xs: seq<CValue>, i: nat)
    requires AllCertain(xs) && i < |xs|
    ensures Certain(xs[i])
  {
    if i < |xs| - 1 { AllCertainAt(xs[..|xs| - 1], i); }
  }

  lemma {:induction false} AllCertainTail(xs: seq<CValue>)
    requires AllCertain(xs) && xs != []
    ensures Certain(xs[0]) && AllCertain(xs[1..])
  {
    AllCertainAt(xs, 0);
    if |xs| > 1 {
      AllCertainTail(xs[..|xs| - 1]);
      assert xs[1..][..|xs[1..]| - 1] == xs[..|xs| - 1][1..];
    }
  }

  lemma {:induction false} LettersCertain(s: string)
    ensures AllCertain(Letters(s))
  {
    if s != [] {
      LettersCertain(s[..|s| - 1]);
      assert Letters(s)[..|s| - 1] == Letters(s[..|s| - 1]);
    }
  }

  lemma {:induction false} LeastOfCertain(xs: seq<CValue>)
    requires AllCertain(xs)
    ensures Least(xs) == 1.0
  {
    if xs != [] { LeastOfCertain(xs[..|xs| - 1]); }
  }

  lemma BinopFlat(op: BinOp, a: Value, b: Value, fl: Floats)
    requires EvalBinop(op, a, b, fl).Ok?
    ensures !EvalBinop(op, a, b, fl).value.ListV?
  {
  }

  lemma {:induction false} EvalCertain(e: Expr, env: Env, fl: Floats)
    requires CertainEnv(env) && Eval(e, env, fl).Ok?
    ensures Certain(Eval(e, env, fl).value)
    decreases e
  {
    match e
    case List(items) =>
      EvalAllCertain(items, env, fl);
      LeastOfCertain(EvalAll(items, env, fl).value);
    case Member(base, field) => EvalCertain(base, env, fl);
    case Binary(op, lhs, rhs) =>
      EvalCertain(lhs, env, fl);
      EvalCertain(rhs, env, fl);
      BinopFlat(op, Eval(lhs, env, fl).value.value, Eval(rhs, env, fl).value.value, fl);
    case _ =>
  }

  lemma {:induction false} EvalAllCertain(items: seq<Expr>, env: Env, fl: Floats)
    requires CertainEnv(env) && EvalAll(items, env, fl).Ok?
    ensures AllCertain(EvalAll(items, env, fl).value)
    decreases items
  {
    if items != [] {
      EvalAllCertain(items[..|items| - 1], env, fl);
      EvalCertain(items[|items| - 1], env, fl);
      var xs := EvalAll(items[..|items| - 1], env, fl).value;
      var r := EvalAll(items, env, fl).value;
      assert r[..|r| - 1] == xs;
    }
  }

  /**
   * From an environment of certain values every value a statement binds is certain again: no run,
   * which starts without variables, ever brings in doubt.
   */
  lemma {:induction false} ExecKeepsCertain(s: Stmt, vm: Vm, fl: Floats)
    requires CertainEnv(vm.env) && Exec(s, vm, fl).Ok?
    ensures CertainEnv(Exec(s, vm, fl).value.env)
    decreases s, 3, 0
  {
    match s
    case Val(name, e) => EvalCertain(e, vm.env, fl);
    case Emit(e) =>
    case For(name, iter, body) =>
      EvalCertain(iter, vm.env, fl);
      var v := Eval(iter, vm.env, fl).value.value;
      if v.StrV? { LettersCertain(v.s); }
      ItemsKeepCertain(name, Iterated(v).value, body, vm, fl);
  }

  lemma {:induction false} AllKeepCertain(ss: seq<Stmt>, vm: Vm, fl: Floats)
    requires CertainEnv(vm.env) && ExecAll(ss, vm, fl).Ok?
    ensures CertainEnv(ExecAll(ss, vm, fl).value.env)
    decreases ss, 1, 0
  {
    if ss != [] {
      ExecKeepsCertain(ss[0], vm, fl);
      AllKeepCertain(ss[1..], Exec(ss[0], vm, fl).value, fl);
    }
  }

  lemma {:induction false} ItemsKeepCertain(name: string, items: seq<CValue>, body: seq<Stmt>, vm: Vm, fl: Floats)
    requires CertainEnv(vm.env) && AllCertain(items) && ExecItems(name, items, body, vm, fl).Ok?
    ensures CertainEnv(ExecItems(name, items, body, vm, fl).value.env)
    decreases body, 2, |items|
  {
    if items != [] {
      AllCertainTail(items);
      var bound := vm.(env := vm.env[name := items[0]]);
      AllKeepCertain(body, bound, fl);
      ItemsKeepCertain(name, items[1..], body, ExecAll(body, bound, fl).value, fl);
    }
  }

  // ---------- equality ----------

  /**
   * `==` is symmetric, and a value equals itself exactly when it is neither a list nor an infinity nor
   * NaN. Without floats and lists it is identity. `!=` is its negation.
   */
  lemma EqualityLaws(a: Value, b: Value, fl: Floats)
    requires Rounds(fl)
    ensures ValuesEq(a, b, fl) == ValuesEq(b, a, fl)
    ensures ValuesEq(a, a, fl) <==> !a.ListV? && (a.FloatV? ==> a.f.Finite?)
    ensures !a.FloatV? && !b.FloatV? && !a.ListV? ==> (ValuesEq(a, b, fl) <==> a == b)
    ensures EvalBinop(Eq, a, b, fl) == Ok(BoolV(ValuesEq(a, b, fl))) && EvalBinop(NotEq, a, b, fl) == Ok(BoolV(!ValuesEq(a, b, fl)))
  {
    if a.FloatV? && b.FloatV? { CloseIsSymmetric(a.f, b.f, fl); }
    if a.FloatV? { CloseToItself(a.f, fl); }
  }

  /** A value that the program can hold: an integer of 64 bits, a representable float. */
  ghost predicate Held(v: Value) {
    (v.IntV? ==> -0x8000_0000_0000_0000 <= v.n < 0x8000_0000_0000_0000)
    && (v.FloatV? && v.f.Finite? ==> Representable(v.f.r))
  }

  /** `==` passes through `b`: whatever equals it on either side is equal. */
  ghost predicate Transits(b: Value, fl: Floats) {
    forall a, c | Held(a) && Held(c) :: ValuesEq(a, b, fl) && ValuesEq(b, c, fl) ==> ValuesEq(a, c, fl)
  }

  /** No two 64-bit integers are converted to this float. */
  ghost predicate OneInteger(x: real, fl: Floats) {
    forall n, m | Held(IntV(n)) && Held(IntV(m)) && fl.round(n as real) == Finite(x) == fl.round(m as real) :: n == m
  }

  /** Below `2^53` that is so: integers up to there are converted to themselves. */
  lemma SmallOneInteger(x: real, fl: Floats)
    requires Rounds(fl) && Size(x) < 9007199254740992.0
    ensures OneInteger(x, fl)
  {
    forall n, m | Held(IntV(n)) && Held(IntV(m)) && fl.round(n as real) == Finite(x) == fl.round(m as real)
      ensures n == m
    {
      SmallInteger(n, x, fl);
      SmallInteger(m, x, fl);
    }
  }

  lemma SmallInteger(n: int, x: real, fl: Floats)
    requires Rounds(fl) && Size(x) < 9007199254740992.0 && fl.round(n as real) == Finite(x)
    ensures n as real == x
  {
    var top, bottom := 9007199254740992.0, -9007199254740992.0;
    assert Dyadic(top, 1, 53) && Dyadic(bottom, -1, 53) by { Powers(); }
    assert Representable(top) && Representable(bottom);
    assert n as real >= top ==> Leq(fl.round(top), fl.round(n as real));
    assert n as real <= bottom ==> Leq(fl.round(n as real), fl.round(bottom));
    assert Dyadic(n as real, n, 0);
  }

  /**
   * `==` is transitive through every integer but 0, and through a finite float exactly when its size
   * is at least 1 and no two integers are converted to it. Nothing equals an infinity or NaN.
   */
  lemma EqualityTransitsIff(b: Value, fl: Floats)
    requires Rounds(fl) && Held(b)
    ensures Transits(b, fl) <==>
      match b
      case IntV(n) => n != 0
      case FloatV(Finite(x)) => Size(x) >= 1.0 && OneInteger(x, fl)
      case _ => true
  {
    match b
    case IntV(n) => IntegerTransits(n, fl);
    case FloatV(x) => FloatTransits(x, fl);
    case _ =>
  }

  lemma StoppedBy(a: Value, b: Value, c: Value, fl: Floats)
    requires Held(a) && Held(c) && ValuesEq(a, b, fl) && ValuesEq(b, c, fl) && !ValuesEq(a, c, fl)
    ensures !Transits(b, fl)
  {
  }

  lemma IntegerTransits(n: int, fl: Floats)
    requires Rounds(fl)
    ensures Transits(IntV(n), fl) <==> n != 0
  {
    if n == 0 {
      AroundZero(fl);
    } else {
      forall a, c | Held(a) && Held(c) && ValuesEq(a, IntV(n), fl) && ValuesEq(IntV(n), c, fl)
        ensures ValuesEq(a, c, fl)
      {
        ThroughInteger(a, n, c, fl);
      }
    }
  }

  lemma AroundZero(fl: Floats)
    requires Rounds(fl)
    ensures !Transits(IntV(0), fl)
  {
    RoundedInteger(0, fl);
    RoundKeeps(0.0, 0, fl);
    GridPoint(0.0, 0);
    var x, y := ApartAround(0.0, fl);
    CloseIsSymmetric(Finite(x), Finite(0.0), fl);
    StoppedBy(FloatV(Finite(x)), IntV(0), FloatV(Finite(y)), fl);
  }

  lemma ThroughInteger(a: Value, n: int, c: Value, fl: Floats)
    requires Rounds(fl) && n != 0 && Held(a) && Held(c) && ValuesEq(a, IntV(n), fl) && ValuesEq(IntV(n), c, fl)
    ensures ValuesEq(a, c, fl)
  {
    if a.FloatV? && c.FloatV? {
      RoundedInteger(n, fl);
      CloseIsSymmetric(fl.round(n as real), a.f, fl);
      CloseThrough(a.f, fl.round(n as real), c.f, fl);
    }
  }

  lemma FloatTransits(x: F64, fl: Floats)
    requires Rounds(fl) && Held(FloatV(x))
    ensures Transits(FloatV(x), fl) <==> (x.Finite? ==> Size(x.r) >= 1.0 && OneInteger(x.r, fl))
  {
    if x.Finite? && Size(x.r) < 1.0 {
      var y, z := ApartAround(x.r, fl);
      StoppedBy(FloatV(Finite(y)), FloatV(x), FloatV(Finite(z)), fl);
    } else if x.Finite? && !OneInteger(x.r, fl) {
      TwoIntegers(x.r, fl);
    } else {
      forall a, c | Held(a) && Held(c) && ValuesEq(a, FloatV(x), fl) && ValuesEq(FloatV(x), c, fl)
        ensures ValuesEq(a, c, fl)
      {
        ThroughFloat(a, x, c, fl);
      }
    }
  }

  lemma TwoIntegers(x: real, fl: Floats)
    requires Rounds(fl) && !OneInteger(x, fl)
    ensures !Transits(FloatV(Finite(x)), fl)
  {
    var n, m :| Held(IntV(n)) && Held(IntV(m)) && fl.round(n as real) == Finite(x) == fl.round(m as real) && n != m;
    CloseToItself(Finite(x), fl);
    StoppedBy(IntV(n), FloatV(Finite(x)), IntV(m), fl);
  }

  lemma ThroughFloat(a: Value, x: F64, c: Value, fl: Floats)
    requires Rounds(fl) && Held(a) && Held(FloatV(x)) && Held(c)
    requires x.Finite? ==> Size(x.r) >= 1.0 && OneInteger(x.r, fl)
    requires ValuesEq(a, FloatV(x), fl) && ValuesEq(FloatV(x), c, fl)
    ensures ValuesEq(a, c, fl)
  {
    var y, z := Number(a, fl).value, Number(c, fl).value;
    CloseIsSymmetric(x, z, fl);
    CloseFinite(y, x, fl);
    CloseFinite(x, z, fl);
    if a.IntV? { IntegerCloseTo(a.n, x.r, fl); }
    if c.IntV? { IntegerCloseTo(c.n, x.r, fl); }
    CloseThrough(y, x, z, fl);
    CloseIsSymmetric(y, z, fl);
  }

  /** An integer close to a float of size one or more is converted to it. */
  lemma IntegerCloseTo(n: int, x: real, fl: Floats)
    requires Rounds(fl) && Representable(x) && Size(x) >= 1.0 && Close(fl.round(n as real), Finite(x), fl)
    ensures fl.round(n as real) == Finite(x)
  {
    RoundedInteger(n, fl);
    CloseFinite(fl.round(n as real), Finite(x), fl);
    CloseIsNear(fl.round(n as real).r, x, fl);
    NearFromOne(fl.round(n as real).r, x);
  }

  // ---------- comparisons ----------

  /**
   * Comparisons fail exactly on what is not a number; on numbers other than NaN they are one total
   * order, mixed or not, in which integers stand where their conversions do: that of the reals.
   */
  lemma ComparisonLaws(a: Value, b: Value, fl: Floats)
    ensures Number(a, fl).Some? && Number(b, fl).Some? && Number(a, fl).value.Finite? && Number(b, fl).value.Finite? ==>
      EvalBinop(Less, a, b, fl) == Ok(BoolV(Number(a, fl).value.r < Number(b, fl).value.r))
    ensures EvalBinop(Less, a, b, fl) == EvalBinop(Greater, b, a, fl) && EvalBinop(AtMost, a, b, fl) == EvalBinop(AtLeast, b, a, fl)
    ensures EvalBinop(Less, a, b, fl).Ok? <==> Number(a, fl).Some? && Number(b, fl).Some?
    ensures Number(a, fl).Some? && Number(b, fl).Some? && Number(a, fl) != Some(NaN) && Number(b, fl) != Some(NaN) ==>
      EvalBinop(AtMost, a, b, fl) == Ok(BoolV(EvalBinop(Greater, a, b, fl) != Ok(BoolV(true))))
    ensures Number(a, fl).Some? && Number(b, fl) == Some(NaN) ==>
      EvalBinop(AtMost, a, b, fl) == EvalBinop(Greater, a, b, fl) == Ok(BoolV(false))
  {
  }

  // ---------- loops ----------

  /** A loop over two runs of items is the loop over the first followed by the loop over the second. */
  lemma {:induction false} LoopSplits(name: string, a: seq<CValue>, b: seq<CValue>, body: seq<Stmt>, vm: Vm, fl: Floats)
    ensures ExecItems(name, a + b, body, vm, fl) ==
      match ExecItems(name, a, body, vm, fl)
      case Err(x) => Err(x)
      case Ok(next) => ExecItems(name, b, body, next, fl)
    decreases |a|
  {
    if a == [] {
      assert a + b == b;
    } else {
      var r := ExecAll(body, vm.(env := vm.env[name := a[0]]), fl);
      if r.Ok? { LoopSplits(name, a[1..], b, body, r.value, fl); }
      assert (a + b)[1..] == a[1..] + b;
    }
  }

  // ---------- arithmetic ----------

  /** An expression of integer literals and integer variables with `+`, `-` and `*`. */
  predicate IntegerTerm(e: Expr, env: Env)
    decreases e
  {
    match e
    case Int(_) => true
    case Name(x) => x in env && env[x].value.IntV?
    case Binary(op, lhs, rhs) => (op == Add || op == Sub || op == Mul) && IntegerTerm(lhs, env) && IntegerTerm(rhs, env)
    case _ => false
  }

  /** The integer that it denotes. */
  function Denoted(e: Expr, env: Env): int
    requires IntegerTerm(e, env)
    decreases e
  {
    match e
    case Int(n) => n
    case Name(x) => env[x].value.n
    case Binary(op, lhs, rhs) =>
      var a, b := Denoted(lhs, env), Denoted(rhs, env);
      if op == Add then a + b else if op == Sub then a - b else a * b
  }

  lemma {:induction false} TermsDenote(e: Expr, env: Env, fl: Floats)
    requires IntegerTerm(e, env)
    ensures Eval(e, env, fl).Ok? && Eval(e, env, fl).value.value == IntV(Denoted(e, env))
    decreases e
  {
    if e.Binary? {
      TermsDenote(e.lhs, env, fl);
      TermsDenote(e.rhs, env, fl);
    }
  }

  /**
   * The machine computes with integers exactly: emitting a term prints the integer it denotes, and
   * so subtracting and adding back, or distributing a product, prints the same.
   */
  lemma IntegersAreExact(e: Expr, f: Expr, g: Expr, vm: Vm, fl: Floats)
    requires IntegerTerm(e, vm.env) && IntegerTerm(f, vm.env) && IntegerTerm(g, vm.env)
    ensures Exec(Emit(e), vm, fl) == Ok(vm.(emitted := vm.emitted + [Text(IntText(Denoted(e, vm.env)))]))
    ensures Exec(Emit(Binary(Add, Binary(Sub, e, f), f)), vm, fl) == Exec(Emit(e), vm, fl)
    ensures Exec(Emit(Binary(Mul, e, Binary(Sub, f, g))), vm, fl) == Exec(Emit(Binary(Sub, Binary(Mul, e, f), Binary(Mul, e, g))), vm, fl)
  {
    Prints(e, vm, fl);
    Prints(Binary(Add, Binary(Sub, e, f), f), vm, fl);
    Distributes(e, f, g, vm, fl);
  }

  lemma Prints(e: Expr, vm: Vm, fl: Floats)
    requires IntegerTerm(e, vm.env)
    ensures Exec(Emit(e), vm, fl) == Ok(vm.(emitted := vm.emitted + [Text(IntText(Denoted(e, vm.env)))]))
  {
    TermsDenote(e, vm.env, fl);
  }

  lemma Distributes(e: Expr, f: Expr, g: Expr, vm: Vm, fl: Floats)
    requires IntegerTerm(e, vm.env) && IntegerTerm(f, vm.env) && IntegerTerm(g, vm.env)
    ensures Exec(Emit(Binary(Mul, e, Binary(Sub, f, g))), vm, fl) == Exec(Emit(Binary(Sub, Binary(Mul, e, f), Binary(Mul, e, g))), vm, fl)
  {
    Prints(Binary(Mul, e, Binary(Sub, f, g)), vm, fl);
    Prints(Binary(Sub, Binary(Mul, e, f), Binary(Mul, e, g)), vm, fl);
    Distribute(Denoted(e, vm.env), Denoted(f, vm.env), Denoted(g, vm.env));
  }

  lemma Distribute(a: int, b: int, c: int)
    ensures a * (b - c) == a * b - a * c
  {
  }

  /** What the machine prints for an expression. */
  function Printed(e: Expr, env: Env, fl: Floats): Outcome<string> {
    match Eval(e, env, fl)
    case Err(x) => Err(x)
    case Ok(v) => Ok(Display(v, fl))
  }

  /**
   * A sum with a string on either side prints what its sides print, one after the other; without one
   * it fails exactly if a side is not a number.
   */
  lemma TextsJoin(e: Expr, f: Expr, env: Env, fl: Floats)
    requires Eval(e, env, fl).Ok? && Eval(f, env, fl).Ok?
    ensures var a, b := Eval(e, env, fl).value.value, Eval(f, env, fl).value.value;
      if a.StrV? || b.StrV? then
        Printed(Binary(Add, e, f), env, fl) == Ok(Printed(e, env, fl).value + Printed(f, env, fl).value)
      else
        Printed(Binary(Add, e, f), env, fl).Ok? <==> Number(a, fl).Some? && Number(b, fl).Some?
  {
    var a, b := Eval(e, env, fl).value, Eval(f, env, fl).value;
    assert Display(a, fl) == Display(Sure(a.value), fl) && Display(b, fl) == Display(Sure(b.value), fl);
  }

  /** Numbers of which one is a float: sums, differences and products are the true ones, rounded once, of what is compared. */
  lemma FloatsAreRounded(a: Value, b: Value, fl: Floats)
    requires a.FloatV? || b.FloatV?
    requires Number(a, fl).Some? && Number(a, fl).value.Finite? && Number(b, fl).Some? && Number(b, fl).value.Finite?
    ensures var x, y := Number(a, fl).value.r, Number(b, fl).value.r;
      && EvalBinop(Add, a, b, fl) == Ok(FloatV(fl.round(x + y)))
      && EvalBinop(Sub, a, b, fl) == Ok(FloatV(fl.round(x - y)))
      && EvalBinop(Mul, a, b, fl) == Ok(FloatV(fl.round(x * y)))
    ensures EvalBinop(Add, a, b, fl) == EvalBinop(Add, b, a, fl) && EvalBinop(Mul, a, b, fl) == EvalBinop(Mul, b, a, fl)
  {
    var x, y := Number(a, fl).value, Number(b, fl).value;
    FiniteProduct(x, y, fl);
    assert EvalBinop(Mul, a, b, fl) == Ok(FloatV(Product(x, y, fl)));
    assert EvalBinop(Mul, b, a, fl) == Ok(FloatV(Product(y, x, fl)));
  }

  lemma FiniteProduct(x: F64, y: F64, fl: Floats)
    requires x.Finite? && y.Finite?
    ensures Product(x, y, fl) == Product(y, x, fl) == fl.round(x.r * y.r)
  {
    assert Times(x.r, y.r) == Times(y.r, x.r);
  }

  // ---------- what is printed ----------

  lemma TwoStatements(s: Stmt, t: Stmt, vm: Vm, fl: Floats)
    ensures ExecAll([s, t], vm, fl) == if Exec(s, vm, fl).Ok? then Exec(t, Exec(s, vm, fl).value, fl) else Exec(s, vm, fl)
  {
    assert [s, t][1..] == [t] && [t][1..] == [];
    if Exec(s, vm, fl).Ok? { OneStatement(t, Exec(s, vm, fl).value, fl); }
  }

  lemma OneStatement(s: Stmt, vm: Vm, fl: Floats)
    ensures ExecAll([s], vm, fl) == Exec(s, vm, fl)
  {
    assert [s][1..] == [];
    assert forall next :: ExecAll([], next, fl) == Ok(next);
  }

  /** Binding an expression and emitting the name prints what emitting the expression prints, and binds nothing else. */
  lemma BoundIsPrinted(name: string, e: Expr, vm: Vm, fl: Floats)
    requires Eval(e, vm.env, fl).Ok?
    ensures Exec(Emit(e), vm, fl).Ok?
    ensures ExecAll([Val(name, e), Emit(Name(name))], vm, fl) ==
      Ok(Vm(vm.env[name := Eval(e, vm.env, fl).value], Exec(Emit(e), vm, fl).value.emitted))
  {
    Emits(e, vm, fl);
    TwoStatements(Val(name, e), Emit(Name(name)), vm, fl);
    NameEmits(name, Eval(e, vm.env, fl).value, vm, fl);
  }

  lemma NameEmits(name: string, v: CValue, vm: Vm, fl: Floats)
    ensures var bound := Vm(vm.env[name := v], vm.emitted);
      Exec(Emit(Name(name)), bound, fl) == Ok(Vm(bound.env, vm.emitted + [Text(Display(v, fl))]))
  {
    var bound := Vm(vm.env[name := v], vm.emitted);
    assert Eval(Name(name), bound.env, fl) == Ok(v);
    Emits(Name(name), bound, fl);
  }

  lemma Emits(e: Expr, vm: Vm, fl: Floats)
    requires Eval(e, vm.env, fl).Ok?
    ensures Exec(Emit(e), vm, fl) == Ok(Vm(vm.env, vm.emitted + [Text(Display(Eval(e, vm.env, fl).value, fl))]))
  {
  }

  /** `.confidence` prints the least confidence of the variables that reach the value, `.raw` the value; there is no other member. */
  lemma MembersPrinted(e: Expr, field: string, env: Env, fl: Floats)
    requires UnitConfidence(env) && Eval(e, env, fl).Ok?
    ensures Printed(Member(e, field), env, fl).Ok? <==> field == "confidence" || field == "raw"
    ensures field == "raw" ==> Printed(Member(e, field), env, fl) == Printed(e, env, fl)
    ensures field == "confidence" ==> exists c: real :: LeastOf(c, Uses(e), env) && Printed(Member(e, field), env, fl) == Ok(fl.show(fl.round(c)))
  {
    ConfidenceIsLeast(e, env, fl);
    MemberPrinted(e, field, env, fl);
  }

  lemma MemberPrinted(e: Expr, field: string, env: Env, fl: Floats)
    requires Eval(e, env, fl).Ok?
    ensures Printed(Member(e, field), env, fl) ==
      if field == "confidence" then Ok(fl.show(fl.round(Eval(e, env, fl).value.confidence)))
      else if field == "raw" then Printed(e, env, fl)
      else Err(UnknownMember(field))
  {
  }

  /** A list holds the values of its items in their order, and fails only as one of them does. */
  lemma {:induction false} ListsInOrder(items: seq<Expr>, env: Env, fl: Floats, i: nat)
    requires i < |items|
    ensures var r := EvalAll(items, env, fl);
      if r.Ok? then |r.value| == |items| && Eval(items[i], env, fl) == Ok(r.value[i])
      else exists j: nat :: j < |items| && Eval(items[j], env, fl) == Err(r.error)
  {
    var n := |items| - 1;
    if n > 0 { ListsInOrder(items[..n], env, fl, if i < n then i else 0); }
  }

  /**
   * Strings print as they are, booleans as in the source, a list in brackets, and each further item
   * of a list behind a comma and a blank.
   */
  lemma DisplayForms(items: seq<CValue>, v: CValue, text: string, b: bool, c: real, fl: Floats)
    ensures Display(CValue(StrV(text), c), fl) == text && Display(CValue(BoolV(b), c), fl) == if b then "true" else "false"
    ensures Display(CValue(ListV([]), c), fl) == "[]" && Display(CValue(ListV([v]), c), fl) == "[" + Display(v, fl) + "]"
    ensures items != [] ==>
      Display(CValue(ListV(items + [v]), c), fl) == DropLast(Display(CValue(ListV(items), c), fl)) + ", " + Display(v, fl) + "]"
  {
    assert Joined([v], fl) == Display(v, fl);
    if items != [] { ListGrows(items, v, c, fl); }
  }

  lemma ListGrows(items: seq<CValue>, v: CValue, c: real, fl: Floats)
    requires items != []
    ensures Display(CValue(ListV(items + [v]), c), fl) == DropLast(Display(CValue(ListV(items), c), fl)) + ", " + Display(v, fl) + "]"
  {
    JoinedSnoc(items, v, fl);
    Bracketed(Joined(items, fl), Display(v, fl));
  }

  lemma Bracketed(x: string, y: string)
    ensures DropLast("[" + x + "]") == "[" + x && "[" + (x + ", " + y) + "]" == "[" + x + ", " + y + "]"
  {
  }

  function DropLast(s: string): string { if s == "" then "" else s[..|s| - 1] }

  lemma {:induction false} JoinedSnoc(items: seq<CValue>, v: CValue, fl: Floats)
    requires items != []
    ensures Joined(items + [v], fl) == Joined(items, fl) + ", " + Display(v, fl)
    decreases |items|
  {
    assert (items + [v])[1..] == items[1..] + [v];
    if |items| > 1 {
      JoinedSnoc(items[1..], v, fl);
    } else {
      assert items[1..] + [v] == [v];
    }
  }

  // ---------- what a loop prints ----------

  /** The texts of these values, in their order. */
  function Texts(items: seq<CValue>, fl: Floats): seq<Emission> {
    seq(|items|, i requires 0 <= i < |items| => Text(Display(items[i], fl)))
  }

  lemma {:induction false} ItemsPrint(name: string, items: seq<CValue>, vm: Vm, fl: Floats)
    ensures ExecItems(name, items, [Emit(Name(name))], vm, fl).Ok?
    ensures ExecItems(name, items, [Emit(Name(name))], vm, fl).value.emitted == vm.emitted + Texts(items, fl)
    decreases |items|
  {
    if items != [] {
      var body := [Emit(Name(name))];
      var bound := vm.(env := vm.env[name := items[0]]);
      var next := bound.(emitted := bound.emitted + [Text(Display(items[0], fl))]);
      assert body[1..] == [] && ExecAll(body, bound, fl) == ExecAll([], next, fl);
      ItemsPrint(name, items[1..], next, fl);
      assert Texts(items, fl) == [Text(Display(items[0], fl))] + Texts(items[1..], fl);
    }
  }

  /** The characters of a text, one by one. */
  function Characters(s: string): seq<Emission> {
    seq(|s|, i requires 0 <= i < |s| => Text([s[i]]))
  }

  predicate PrintsInOrder(v: Value, before: seq<Emission>, r: Outcome<Vm>, fl: Floats) {
    match v
    case ListV(xs) => r.Ok? && r.value.emitted == before + Texts(xs, fl)
    case StrV(s) => r.Ok? && r.value.emitted == before + Characters(s)
    case _ => r == Err(CannotIterate(v))
  }

  /** Looping over a list prints its items in order, over a string its characters; anything else cannot be looped over. */
  lemma LoopsInOrder(name: string, iter: Expr, vm: Vm, fl: Floats)
    requires Eval(iter, vm.env, fl).Ok?
    ensures PrintsInOrder(Eval(iter, vm.env, fl).value.value, vm.emitted, Exec(For(name, iter, [Emit(Name(name))]), vm, fl), fl)
  {
    var v := Eval(iter, vm.env, fl).value.value;
    if v.ListV? { ItemsPrint(name, v.items, vm, fl); }
    if v.StrV? {
      ItemsPrint(name, Letters(v.s), vm, fl);
      assert Texts(Letters(v.s), fl) == Characters(v.s);
    }
  }
}
