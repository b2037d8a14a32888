/**
 * The belief path of ChimeraLang: beliefs fused from the answers of an arbitrary adapter, aged,
 * guarded, evolved and emitted beside the ordinary statements.
 */
module Cir {
  import opened Common
  import opened Beliefs
  import opened ChimeraSyntax
  import opened ChimeraFloats
  import opened ChimeraVm

  datatype Response = Response(confidence: real, answer: Option<string>)

  /** What the n-th inquiry of a run is answered; any stateful adapter is such a function. */
  type Adapter = (nat, string, seq<string>) -> Response

  datatype Held = Held(belief: Beta, answer: Option<string>, agents: seq<string>, prompt: string)

  datatype Violation =
    | BelowConsensus(name: string, mean: real, threshold: real)
    | Risky(name: string, mean: real, variance: real, maxRisk: real)

  datatype State = State(states: map<string, Held>, vm: Vm, violations: seq<Violation>, reported: map<string, real>, asked: nat)

  const INQUIRY_STRENGTH: real := 4.0
  const GUARD_VARIANCE: real := 0.05
  const AGEING: real := 0.98
  const SETTLED: real := 0.0001

  /** As much evidence as one inquiry brings. */
  predicate Grounded(b: Beta) { Proper(b) && Evidence(b) >= INQUIRY_STRENGTH }

  function Start(): State { State(map[], Vm(map[], []), [], map[], 0) }

  function AgentList(agents: seq<string>): seq<string> { if agents == [] then ["default"] else agents }

  function Answered(r: Response): (b: Beta)
    ensures Grounded(b)
  {
    FromConfidenceInformed(r.confidence, INQUIRY_STRENGTH);
    FromConfidence(r.confidence, INQUIRY_STRENGTH)
  }

  function Ask(adapter: Adapter, k: nat, prompt: string, agent: string): Response { adapter(k, prompt, [agent]) }

  lemma AwareFusionGrounded(a: Beta, b: Beta)
    requires Grounded(a) && Grounded(b)
    ensures Discounted(b, 1.0) == b && Grounded(CombineAware(a, b, 1.0).0)
  {
    DiscountKeeps(b, 1.0);
    FusionKeeps(a, b);
  }

  /** The belief fused from asking the first `n` agents in turn, starting at inquiry `k`. */
  function Fused(adapter: Adapter, k: nat, prompt: string, agents: seq<string>, n: nat): (b: Beta)
    requires 0 < n <= |agents|
    ensures Grounded(b)
  {
    var last := Answered(Ask(adapter, k + n - 1, prompt, agents[n - 1]));
    if n == 1 then last else Blend(Fused(adapter, k, prompt, agents, n - 1), last)
  }

  function Blend(a: Beta, b: Beta): (c: Beta)
    requires Grounded(a) && Grounded(b)
    ensures Grounded(c)
  {
    AwareFusionGrounded(a, b);
    CombineAware(a, b, 1.0).0
  }

  function Aged(b: Beta, ttl: nat): (r: Beta)
    requires Grounded(b)
    ensures Informed(r) && (ttl > 0 ==> Grounded(r))
  {
    DecayKeeps(b, AGEING);
    if ttl == 0 then Decayed(b, AGEING) else b
  }

  function Kept(b: Beta, c: Beta): (r: Beta)
    requires Informed(b) && Grounded(c)
    ensures Informed(r) && Evidence(r) >= Evidence(b)
  {
    FusionKeeps(b, c);
    match CombineDs(b, c)
    case Fused(r) => r
    case Refused(_) => b
  }

  /** At most `fuel` re-inquiries, stopping as soon as one moves the variance by less than 1e-4. */
  function Evolved(adapter: Adapter, k: nat, h: Held, fuel: nat): (r: (Beta, nat))
    requires Informed(h.belief)
    ensures Informed(r.0) && Evidence(r.0) >= Evidence(h.belief) && r.1 <= k + fuel
    decreases fuel
  {
    if fuel == 0 then (h.belief, k)
    else
      var next := Kept(h.belief, Answered(adapter(k, h.prompt, h.agents)));
      if Abs(Variance(h.belief) - Variance(next)) < SETTLED then (next, k + 1)
      else Evolved(adapter, k + 1, h.(belief := next), fuel - 1)
  }

  function Passes(b: Beta, maxRisk: real): bool
    requires Proper(b)
  {
    Mean(b) >= 1.0 - maxRisk && Variance(b) <= GUARD_VARIANCE
  }

  predicate AllInformed(states: map<string, Held>) { forall x | x in states :: Informed(states[x].belief) }

  function AnswerText(a: Option<string>): string { if a.Some? then a.value else "" }

  function Declaring(name: string, prompt: string, asked: seq<string>, ttl: nat, st: State, adapter: Adapter): (r: State)
    requires asked != [] && AllInformed(st.states)
    ensures AllInformed(r.states)
  {
    var b := Aged(Fused(adapter, st.asked, prompt, asked, |asked|), ttl);
    var answer := Ask(adapter, st.asked + |asked| - 1, prompt, asked[|asked| - 1]).answer;
    st.(states := st.states[name := Held(b, answer, asked, prompt)], asked := st.asked + |asked|)
  }

  function EmittedName(s: Stmt): Option<string> {
    match s
    case Emit(e) => if e.Name? then Some(e.name) else None
    case _ => None
  }

  function Step(s: Stmt, st: State, adapter: Adapter, fl: Floats): (r: Outcome<State>)
    requires AllInformed(st.states)
    ensures r.Ok? ==> AllInformed(r.value.states)
  {
    match s
    case Belief(name, prompt, agents, ttl) =>
      Ok(Declaring(name, prompt, AgentList(agents), ttl, st, adapter))
    case Resolve(name, threshold) =>
      if name !in st.states then Err(UnknownBelief(name))
      else
        var mean := Mean(st.states[name].belief);
        Ok(if mean < threshold then st.(violations := st.violations + [BelowConsensus(name, mean, threshold)]) else st)
    case Guard(name, maxRisk) =>
      if name !in st.states then Err(UnknownBelief(name))
      else
        var b := st.states[name].belief;
        Ok(if Passes(b, maxRisk) then st else st.(violations := st.violations + [Risky(name, Mean(b), Variance(b), maxRisk)]))
    case Evolve(name, maxIter) =>
      if name !in st.states then Err(UnknownBelief(name))
      else
        var h := st.states[name];
        var (b, asked) := Evolved(adapter, st.asked, h, maxIter);
        Ok(st.(states := st.states[name := h.(belief := b)], asked := asked))
    case _ => EmitOr(s, st, fl)
  }

  function EmitOr(s: Stmt, st: State, fl: Floats): (r: Outcome<State>)
    requires AllInformed(st.states)
    ensures r.Ok? ==> r.value.states == st.states
  {
    var name := EmittedName(s);
    if name.Some? && name.value in st.states then Ok(Tell(name.value, st)) else Ordinary(s, st, fl)
  }

  function Tell(name: string, st: State): (r: State)
    requires AllInformed(st.states) && name in st.states
    ensures r.states == st.states
  {
    var h := st.states[name];
    st.(reported := st.reported[name := Mean(h.belief)],
        vm := st.vm.(emitted := st.vm.emitted + [Told(name, AnswerText(h.answer), Mean(h.belief))]))
  }

  function Ordinary(s: Stmt, st: State, fl: Floats): (r: Outcome<State>)
    ensures r.Ok? ==> r.value.states == st.states
  {
    match Exec(s, st.vm, fl)
    case Err(x) => Err(x)
    case Ok(vm) => Ok(st.(vm := vm))
  }

  function RunAll(ss: seq<Stmt>, adapter: Adapter, fl: Floats): (r: Outcome<State>)
    ensures r.Ok? ==> AllInformed(r.value.states)
  {
    if ss == [] then Ok(Start())
    else
      match RunAll(ss[..|ss| - 1], adapter, fl)
      case Err(x) => Err(x)
      case Ok(st) => Step(ss[|ss| - 1], st, adapter, fl)
  }

  lemma RunAllSnoc(ss: seq<Stmt>, i: nat, adapter: Adapter, fl: Floats)
    requires i < |ss|
    ensures RunAll(ss[..i], adapter, fl).Ok? ==>
      RunAll(ss[..i + 1], adapter, fl) == Step(ss[i], RunAll(ss[..i], adapter, fl).value, adapter, fl)
  {
    assert ss[..i + 1][..i] == ss[..i];
  }

  lemma {:induction false} FailureStays(ss: seq<Stmt>, i: nat, adapter: Adapter, fl: Floats)
    requires i <= |ss| && RunAll(ss[..i], adapter, fl).Err?
    ensures RunAll(ss, adapter, fl) == RunAll(ss[..i], adapter, fl)
  {
    if i == |ss| {
      assert ss[..i] == ss;
    } else {
      var init := ss[..|ss| - 1];
      assert init[..i] == ss[..i];
      FailureStays(init, i, adapter, fl);
    }
  }

  // ---------- the interpreter ----------

  /** Ask each agent and fuse what they say; the answer kept is the last one. */
  method Inquire(adapter: Adapter, k: nat, prompt: string, agents: seq<string>) returns (b: Beta, answer: Option<string>)
    requires agents != []
    ensures b == Fused(adapter, k, prompt, agents, |agents|)
    ensures answer == Ask(adapter, k + |agents| - 1, prompt, agents[|agents| - 1]).answer
  {
    var first := Ask(adapter, k, prompt, agents[0]);
    b, answer := Answered(first), first.answer;
    var n := 1;
    while n < |agents|
      invariant 1 <= n <= |agents|
      invariant b == Fused(adapter, k, prompt, agents, n)
      invariant answer == Ask(adapter, k + n - 1, prompt, agents[n - 1]).answer
    {
      var r := Ask(adapter, k + n, prompt, agents[n]);
      b, answer := Blend(b, Answered(r)), r.answer;
      n := n + 1;
    }
  }

  method EvolveBelief(adapter: Adapter, k: nat, h: Held, maxIter: u32) returns (b: Beta, asked: nat)
    requires Informed(h.belief)
    ensures (b, asked) == Evolved(adapter, k, h, maxIter)
  {
    b, asked := h.belief, k;
    var i := 0;
    while i < maxIter
      invariant 0 <= i <= maxIter && Informed(b)
      invariant Evolved(adapter, k, h, maxIter) == Evolved(adapter, asked, h.(belief := b), maxIter - i)
    {
      var before := Variance(b);
      b, asked, i := Kept(b, Answered(adapter(asked, h.prompt, h.agents))), asked + 1, i + 1;
      if Abs(before - Variance(b)) < SETTLED {
        return;
      }
    }
  }

  /** What `run_cir` keeps and changes from statement to statement. */
  class Interpreter {
    var states: map<string, Held>
    var machine: Machine
    var violations: seq<Violation>
    var reported: map<string, real>
    var asked: nat

    constructor ()
      ensures Now() == Start() && fresh(machine)
    {
      states, violations, reported, asked := map[], [], map[], 0;
      machine := new Machine();
    }

    ghost function Now(): State
      reads this, machine
    {
      State(states, machine.State(), violations, reported, asked)
    }

    /** One statement; after a failure nothing is said, as its run is given up. */
    method Do(s: Stmt, adapter: Adapter, fl: Floats) returns (failure: Option<RunError>)
      requires AllInformed(states)
      modifies this, machine
      ensures machine == old(machine)
      ensures Step(s, old(Now()), adapter, fl) == if failure.None? then Ok(Now()) else Err(failure.value)
    {
      failure := None;
      match s
      case Belief(name, prompt, agents, ttl) =>
        Declare(name, prompt, agents, ttl, adapter);
      case Resolve(name, threshold) =>
        if name !in states { return Some(UnknownBelief(name)); }
        var mean := Mean(states[name].belief);
        if mean < threshold { violations := violations + [BelowConsensus(name, mean, threshold)]; }
      case Guard(name, maxRisk) =>
        if name !in states { return Some(UnknownBelief(name)); }
        var b := states[name].belief;
        if !Passes(b, maxRisk) { violations := violations + [Risky(name, Mean(b), Variance(b), maxRisk)]; }
      case Evolve(name, maxIter) =>
        if name !in states { return Some(UnknownBelief(name)); }
        var h := states[name];
        var b, now := EvolveBelief(adapter, asked, h, maxIter);
        states, asked := states[name := h.(belief := b)], now;
      case _ =>
        failure := EmitOrRun(s, fl);
    }

    /** `emit NAME` of a belief tells its mean; anything else runs as an ordinary statement. */
    method EmitOrRun(s: Stmt, fl: Floats) returns (failure: Option<RunError>)
      requires AllInformed(states)
      modifies this, machine
      ensures machine == old(machine)
      ensures EmitOr(s, old(Now()), fl) == if failure.None? then Ok(Now()) else Err(failure.value)
    {
      var name := EmittedName(s);
      if name.Some? && name.value in states {
        var h := states[name.value];
        reported := reported[name.value := Mean(h.belief)];
        machine.emitted := machine.emitted + [Told(name.value, AnswerText(h.answer), Mean(h.belief))];
        failure := None;
      } else {
        failure := machine.Run(s, fl);
      }
    }

    method Declare(name: string, prompt: string, agents: seq<string>, ttl: nat, adapter: Adapter)
      requires AllInformed(states)
      modifies this
      ensures machine == old(machine)
      ensures Declaring(name, prompt, AgentList(agents), ttl, old(Now()), adapter) == Now()
    {
      var asking := AgentList(agents);
      var b, answer := Inquire(adapter, asked, prompt, asking);
      states, asked := states[name := Held(Aged(b, ttl), answer, asking, prompt)], asked + |asking|;
    }
  }

  method Interpret(p: Program, adapter: Adapter, fl: Floats) returns (r: Outcome<State>)
    ensures r == RunAll(p.stmts, adapter, fl)
  {
    var run := new Interpreter();
    var i := 0;
    while i < |p.stmts|
      invariant 0 <= i <= |p.stmts| && fresh(run) && fresh(run.machine)
      invariant RunAll(p.stmts[..i], adapter, fl) == Ok(run.Now())
    {
      RunAllSnoc(p.stmts, i, adapter, fl);
      var failure := run.Do(p.stmts[i], adapter, fl);
      i := i + 1;
      if failure.Some? {
        FailureStays(p.stmts, i, adapter, fl);
        return Err(failure.value);
      }
    }
    assert p.stmts[..i] == p.stmts;
    return Ok(State(run.states, Vm(run.machine.env, run.machine.emitted), run.violations, run.reported, run.asked));
  }

  // ---------- what every run keeps ----------

  /** The time to live in the last declaration of a belief, if there was one. */
  function LastTtl(ss: seq<Stmt>, name: string): Option<nat> {
    if ss == [] then None
    else
      var s := ss[|ss| - 1];
      if s.Belief? && s.name == name then Some(s.ttl) else LastTtl(ss[..|ss| - 1], name)
  }

  /** How the beliefs held relate to the declarations run so far. */
  ghost predicate Declared(ss: seq<Stmt>, states: map<string, Held>) {
    && (forall x :: x in states <==> LastTtl(ss, x).Some?)
    && (forall x | x in states && LastTtl(ss, x) != Some(0) :: Grounded(states[x].belief))
  }

  /**
   * In every run, for every program and every adapter, exactly the declared beliefs are held, each
   * with a mean strictly between 0 and 1 and a variance of at most 1/12; those last declared with a
   * nonzero time to live keep at least the evidence of one inquiry.
   */
  lemma {:induction false} BeliefsHeld(ss: seq<Stmt>, adapter: Adapter, fl: Floats)
    requires RunAll(ss, adapter, fl).Ok?
    ensures Declared(ss, RunAll(ss, adapter, fl).value.states)
    ensures var states := RunAll(ss, adapter, fl).value.states;
      forall x | x in states :: && Proper(states[x].belief)
        && 0.0 < Mean(states[x].belief) < 1.0 && 0.0 < Variance(states[x].belief) < 0.25 && 12.0 * Variance(states[x].belief) <= 1.0
  {
    if ss != [] {
      var init := ss[..|ss| - 1];
      BeliefsHeld(init, adapter, fl);
      StepDeclared(init, ss[|ss| - 1], RunAll(init, adapter, fl).value, adapter, fl);
      assert init + [ss[|ss| - 1]] == ss;
    }
    var states := RunAll(ss, adapter, fl).value.states;
    forall x | x in states
      ensures Proper(states[x].belief) && 0.0 < Mean(states[x].belief) < 1.0
      ensures 0.0 < Variance(states[x].belief) < 0.25 && 12.0 * Variance(states[x].belief) <= 1.0
    {
      MeanAndVariance(states[x].belief);
    }
  }

  lemma StepDeclared(ss: seq<Stmt>, s: Stmt, st: State, adapter: Adapter, fl: Floats)
    requires AllInformed(st.states) && Declared(ss, st.states) && Step(s, st, adapter, fl).Ok?
    ensures Declared(ss + [s], Step(s, st, adapter, fl).value.states)
  {
    var after := Step(s, st, adapter, fl).value.states;
    LastTtlSnoc(ss, s);
    forall x | x in after && LastTtl(ss + [s], x) != Some(0)
      ensures Grounded(after[x].belief)
    {
    }
  }

  lemma LastTtlSnoc(ss: seq<Stmt>, s: Stmt)
    ensures forall x :: LastTtl(ss + [s], x) == if s.Belief? && s.name == x then Some(s.ttl) else LastTtl(ss, x)
  {
    assert (ss + [s])[..|ss + [s]| - 1] == ss;
  }

  /** Means told to the outside are strictly between 0 and 1. */
  predicate ToldInside(emitted: seq<Emission>) {
    forall i | 0 <= i < |emitted| && emitted[i].Told? :: 0.0 < emitted[i].mean < 1.0
  }

  predicate ReportedInside(st: State) {
    ToldInside(st.vm.emitted) && (forall x | x in st.reported :: 0.0 < st.reported[x] < 1.0)
  }

  lemma {:induction false} ExecTells(s: Stmt, vm: Vm, fl: Floats)
    requires ToldInside(vm.emitted) && Exec(s, vm, fl).Ok?
    ensures ToldInside(Exec(s, vm, fl).value.emitted)
    decreases s, 3, 0
  {
    if s.For? { ItemsTell(s.name, Iterated(Eval(s.iter, vm.env, fl).value.value).value, s.body, vm, fl); }
  }

  lemma {:induction false} AllTell(ss: seq<Stmt>, vm: Vm, fl: Floats)
    requires ToldInside(vm.emitted) && ExecAll(ss, vm, fl).Ok?
    ensures ToldInside(ExecAll(ss, vm, fl).value.emitted)
    decreases ss, 1, 0
  {
    if ss != [] {
      ExecTells(ss[0], vm, fl);
      AllTell(ss[1..], Exec(ss[0], vm, fl).value, fl);
    }
  }

  lemma {:induction false} ItemsTell(name: string, items: seq<CValue>, body: seq<Stmt>, vm: Vm, fl: Floats)
    requires ToldInside(vm.emitted) && ExecItems(name, items, body, vm, fl).Ok?
    ensures ToldInside(ExecItems(name, items, body, vm, fl).value.emitted)
    decreases body, 2, |items|
  {
    if items != [] {
      var bound := vm.(env := vm.env[name := items[0]]);
      AllTell(body, bound, fl);
      ItemsTell(name, items[1..], body, ExecAll(body, bound, fl).value, fl);
    }
  }

  /** Every belief mean that a run emits or reports is strictly between 0 and 1, and every variable stays certain. */
  lemma {:induction false} RunReports(ss: seq<Stmt>, adapter: Adapter, fl: Floats)
    requires RunAll(ss, adapter, fl).Ok?
    ensures ReportedInside(RunAll(ss, adapter, fl).value) && CertainEnv(RunAll(ss, adapter, fl).value.vm.env)
  {
    if ss != [] {
      var s, st := ss[|ss| - 1], RunAll(ss[..|ss| - 1], adapter, fl).value;
      RunReports(ss[..|ss| - 1], adapter, fl);
      var name := EmittedName(s);
      if name.Some? && name.value in st.states {
        MeanAndVariance(st.states[name.value].belief);
      } else if s.Val? || s.Emit? || s.For? {
        ExecTells(s, st.vm, fl);
        ExecKeepsCertain(s, st.vm, fl);
      }
    }
  }

  // ---------- what a guard decides ----------

  lemma GroundedIsSettled(b: Beta)
    requires Grounded(b)
    ensures Variance(b) <= GUARD_VARIANCE
  {
    VarianceBySpread(b);
    SpreadSettled(Variance(b), Mean(b), Evidence(b) + 1.0);
  }

  lemma SpreadSettled(v: real, m: real, t: real)
    requires t >= 5.0 && Spreads(v, m, t)
    ensures v <= GUARD_VARIANCE
  {
    SpreadAtMost(m);
    Below(GUARD_VARIANCE, v, t);
  }

  /**
   * A guard on a belief last declared with a nonzero time to live looks at the mean only: its
   * variance condition holds in every run, so a violation is recorded exactly when the mean is
   * below 1 - max_risk.
   */
  lemma GuardSeesOnlyTheMean(ss: seq<Stmt>, name: string, maxRisk: real, adapter: Adapter, fl: Floats)
    requires RunAll(ss, adapter, fl).Ok? && LastTtl(ss, name).Some? && LastTtl(ss, name).value > 0
    ensures name in RunAll(ss, adapter, fl).value.states
    ensures var st := RunAll(ss, adapter, fl).value; var b := st.states[name].belief;
      var r := RunAll(ss + [Guard(name, maxRisk)], adapter, fl);
      && Proper(b) && r.Ok?
      && (r.value == st <==> Mean(b) >= 1.0 - maxRisk)
      && (Mean(b) < 1.0 - maxRisk ==> r.value == st.(violations := st.violations + [Risky(name, Mean(b), Variance(b), maxRisk)]))
  {
    BeliefsHeld(ss, adapter, fl);
    var st := RunAll(ss, adapter, fl).value;
    GroundedIsSettled(st.states[name].belief);
    assert (ss + [Guard(name, maxRisk)])[..|ss|] == ss;
  }

  /**
   * In every run `resolve` fails exactly on a belief that was never declared, and otherwise records
   * a violation exactly when the mean is below the threshold, and changes nothing else.
   */
  lemma ResolveSeesTheMean(ss: seq<Stmt>, name: string, threshold: real, adapter: Adapter, fl: Floats)
    requires RunAll(ss, adapter, fl).Ok?
    ensures var st := RunAll(ss, adapter, fl).value; var r := RunAll(ss + [Resolve(name, threshold)], adapter, fl);
      if LastTtl(ss, name).None? then r == Err(UnknownBelief(name))
      else
        (&& name in st.states && Proper(st.states[name].belief) && r.Ok?
         && (r.value == st <==> Mean(st.states[name].belief) >= threshold)
         && (Mean(st.states[name].belief) < threshold ==>
               r.value == st.(violations := st.violations + [BelowConsensus(name, Mean(st.states[name].belief), threshold)])))
  {
    BeliefsHeld(ss, adapter, fl);
    assert (ss + [Resolve(name, threshold)])[..|ss|] == ss;
  }

  // ---------- what is asked ----------

  /**
   * A belief declared with one agent, or none, that is not stale says what that agent answered: its
   * emission tells the answer with the confidence, kept off 0 and 1.
   */
  lemma OneAgentIsBelieved(ss: seq<Stmt>, name: string, prompt: string, agents: seq<string>, ttl: nat, adapter: Adapter, fl: Floats)
    requires RunAll(ss, adapter, fl).Ok? && |agents| <= 1 && ttl > 0
    ensures var st := RunAll(ss, adapter, fl).value;
      var said := adapter(st.asked, prompt, [if agents == [] then "default" else agents[0]]);
      var r := RunAll(ss + [Belief(name, prompt, agents, ttl)] + [Emit(Name(name))], adapter, fl);
      && r.Ok? && r.value.asked == st.asked + 1 && r.value.violations == st.violations && r.value.vm.env == st.vm.env
      && r.value.vm.emitted == st.vm.emitted + [Told(name, AnswerText(said.answer), Clamp(said.confidence, EPS, 1.0 - EPS))]
      && r.value.reported == st.reported[name := Clamp(said.confidence, EPS, 1.0 - EPS)]
  {
    var st := RunAll(ss, adapter, fl).value;
    var declare, tell := Belief(name, prompt, agents, ttl), Emit(Name(name));
    assert (ss + [declare])[..|ss|] == ss;
    assert (ss + [declare] + [tell])[..|ss + [declare]|] == ss + [declare];
    OneAnswer(st, name, prompt, agents, ttl, adapter);
  }

  lemma OneAnswer(st: State, name: string, prompt: string, agents: seq<string>, ttl: nat, adapter: Adapter)
    requires AllInformed(st.states) && |agents| <= 1 && ttl > 0
    ensures var said := adapter(st.asked, prompt, [if agents == [] then "default" else agents[0]]);
      var r := Declaring(name, prompt, AgentList(agents), ttl, st, adapter);
      && r == st.(asked := st.asked + 1, states := r.states) && name in r.states && r.states[name].answer == said.answer
      && Proper(r.states[name].belief) && Mean(r.states[name].belief) == Clamp(said.confidence, EPS, 1.0 - EPS)
  {
    var said := adapter(st.asked, prompt, [if agents == [] then "default" else agents[0]]);
    FromConfidenceInformed(said.confidence, INQUIRY_STRENGTH);
  }

  /**
   * A declaration asks every agent once, in their order, and keeps the answer of the last one; it
   * changes no other belief, no variable and no output.
   */
  lemma DeclarationAsksAll(ss: seq<Stmt>, name: string, prompt: string, agents: seq<string>, ttl: nat, adapter: Adapter, fl: Floats)
    requires RunAll(ss, adapter, fl).Ok? && agents != []
    ensures var r := RunAll(ss + [Belief(name, prompt, agents, ttl)], adapter, fl);
      r.Ok? && AllAsked(RunAll(ss, adapter, fl).value, name, prompt, agents, adapter, r.value)
  {
    assert (ss + [Belief(name, prompt, agents, ttl)])[..|ss|] == ss;
    DeclaringAsks(RunAll(ss, adapter, fl).value, name, prompt, agents, ttl, adapter);
  }

  predicate AllAsked(st: State, name: string, prompt: string, agents: seq<string>, adapter: Adapter, st': State)
    requires agents != []
  {
    && name in st'.states && st' == st.(asked := st.asked + |agents|, states := st.states[name := st'.states[name]])
    && st'.states[name].prompt == prompt && st'.states[name].agents == agents
    && st'.states[name].answer == adapter(st.asked + |agents| - 1, prompt, [agents[|agents| - 1]]).answer
  }

  lemma DeclaringAsks(st: State, name: string, prompt: string, agents: seq<string>, ttl: nat, adapter: Adapter)
    requires AllInformed(st.states) && agents != []
    ensures AllAsked(st, name, prompt, agents, adapter, Declaring(name, prompt, agents, ttl, st, adapter))
  {
    var h := Held(Aged(Fused(adapter, st.asked, prompt, agents, |agents|), ttl),
                  Ask(adapter, st.asked + |agents| - 1, prompt, agents[|agents| - 1]).answer, agents, prompt);
    assert Declaring(name, prompt, agents, ttl, st, adapter) == st.(states := st.states[name := h], asked := st.asked + |agents|);
  }

  /** What the agents answer matters only as far as it is asked: for each agent by itself, in turn. */
  lemma {:induction false} OnlyAskedMatters(a: Adapter, b: Adapter, k: nat, prompt: string, agents: seq<string>, n: nat)
    requires 0 < n <= |agents|
    requires forall i: nat | i < n :: a(k + i, prompt, [agents[i]]) == b(k + i, prompt, [agents[i]])
    ensures Fused(a, k, prompt, agents, n) == Fused(b, k, prompt, agents, n)
  {
    assert a(k + (n - 1), prompt, [agents[n - 1]]) == b(k + (n - 1), prompt, [agents[n - 1]]);
    if n > 1 { OnlyAskedMatters(a, b, k, prompt, agents, n - 1); }
  }

  /** A belief after `i` further inquiries. */
  function Reconsidered(adapter: Adapter, k: nat, h: Held, i: nat): (b: Beta)
    requires Informed(h.belief)
    ensures Informed(b)
  {
    if i == 0 then h.belief else Kept(Reconsidered(adapter, k, h, i - 1), Answered(adapter(k + i - 1, h.prompt, h.agents)))
  }

  /** The `i`th inquiry still moved the variance. */
  predicate Moves(adapter: Adapter, k: nat, h: Held, i: nat)
    requires Informed(h.belief) && i > 0
  {
    Abs(Variance(Reconsidered(adapter, k, h, i - 1)) - Variance(Reconsidered(adapter, k, h, i))) >= SETTLED
  }

  /** Reconsidering goes on like this after `j` inquiries. */
  ghost predicate GoesOn(adapter: Adapter, k: nat, h: Held, j: nat, fuel: nat, n: nat)
    requires Informed(h.belief)
  {
    Evolved(adapter, k + j, h.(belief := Reconsidered(adapter, k, h, j)), fuel) == (Reconsidered(adapter, k, h, n), k + n)
  }

  lemma OneInquiry(adapter: Adapter, k: nat, h: Held, j: nat, fuel: nat, n: nat)
    requires Informed(h.belief) && fuel > 0
    requires if Moves(adapter, k, h, j + 1) then GoesOn(adapter, k, h, j + 1, fuel - 1, n) else n == j + 1
    ensures GoesOn(adapter, k, h, j, fuel, n)
  {
    var next := Reconsidered(adapter, k, h, j + 1);
    assert h.(belief := Reconsidered(adapter, k, h, j)).(belief := next) == h.(belief := next);
  }

  /** `evolve` makes `n` inquiries, `j` of them behind it: it stops at the first that does not move the variance, or at its bound. */
  ghost predicate StopsAt(adapter: Adapter, k: nat, h: Held, j: nat, bound: nat, n: nat)
    requires Informed(h.belief)
  {
    && j <= n <= bound && (forall i: nat | j < i < n :: Moves(adapter, k, h, i))
    && (n < bound ==> n > j && !Moves(adapter, k, h, n))
  }

  lemma {:induction false} EvolvedStops(adapter: Adapter, k: nat, h: Held, j: nat, fuel: nat) returns (n: nat)
    requires Informed(h.belief)
    ensures StopsAt(adapter, k, h, j, j + fuel, n) && GoesOn(adapter, k, h, j, fuel, n)
    decreases fuel
  {
    if fuel == 0 {
      n := j;
      assert GoesOn(adapter, k, h, j, fuel, n);
    } else {
      n := j + 1;
      if Moves(adapter, k, h, j + 1) {
        n := EvolvedStops(adapter, k, h, j + 1, fuel - 1);
        StopsLater(adapter, k, h, j, j + fuel, n);
      }
      OneInquiry(adapter, k, h, j, fuel, n);
    }
  }

  lemma StopsLater(adapter: Adapter, k: nat, h: Held, j: nat, bound: nat, n: nat)
    requires Informed(h.belief) && Moves(adapter, k, h, j + 1) && StopsAt(adapter, k, h, j + 1, bound, n)
    ensures StopsAt(adapter, k, h, j, bound, n)
  {
  }

  lemma StepSettles(st: State, name: string, maxIter: u32, adapter: Adapter, fl: Floats) returns (n: nat)
    requires AllInformed(st.states) && name in st.states
    ensures StopsAt(adapter, st.asked, st.states[name], 0, maxIter, n)
    ensures Step(Evolve(name, maxIter), st, adapter, fl) ==
      Ok(st.(asked := st.asked + n,
             states := st.states[name := st.states[name].(belief := Reconsidered(adapter, st.asked, st.states[name], n))]))
  {
    var h := st.states[name];
    n := EvolvedStops(adapter, st.asked, h, 0, maxIter);
    assert h.(belief := Reconsidered(adapter, st.asked, h, 0)) == h;
  }

  /** In every run `evolve` asks again until the variance settles, and changes nothing but that belief. */
  lemma EvolveSettles(ss: seq<Stmt>, name: string, maxIter: u32, adapter: Adapter, fl: Floats) returns (n: nat)
    requires RunAll(ss, adapter, fl).Ok? && LastTtl(ss, name).Some?
    ensures var st := RunAll(ss, adapter, fl).value;
      && name in st.states && Informed(st.states[name].belief)
      && StopsAt(adapter, st.asked, st.states[name], 0, maxIter, n)
      && RunAll(ss + [Evolve(name, maxIter)], adapter, fl) ==
           Ok(st.(asked := st.asked + n,
                  states := st.states[name := st.states[name].(belief := Reconsidered(adapter, st.asked, st.states[name], n))]))
  {
    BeliefsHeld(ss, adapter, fl);
    n := StepSettles(RunAll(ss, adapter, fl).value, name, maxIter, adapter, fl);
    assert (ss + [Evolve(name, maxIter)])[..|ss|] == ss;
  }

  lemma {:induction false} FusedEvidence(adapter: Adapter, k: nat, prompt: string, agents: seq<string>, n: nat)
    requires 0 < n <= |agents|
    ensures Evidence(Fused(adapter, k, prompt, agents, n)) <= 4.0 + 3.1 * (n - 1) as real
  {
    var r := Ask(adapter, k + n - 1, prompt, agents[n - 1]);
    FromConfidenceInformed(r.confidence, INQUIRY_STRENGTH);
    if n > 1 {
      FusedEvidence(adapter, k, prompt, agents, n - 1);
      FusionAtMost(Fused(adapter, k, prompt, agents, n - 1), Answered(r));
    }
  }

  lemma FusionAtMost(a: Beta, b: Beta)
    requires Grounded(a) && Grounded(b) && Evidence(b) == 4.0
    ensures Evidence(Blend(a, b)) <= Evidence(a) + 3.1
  {
    AwareFusionGrounded(a, b);
    MurphyAtMost(a, b);
  }

  lemma MurphyAtMost(a: Beta, b: Beta)
    requires Proper(a) && Proper(b)
    ensures Evidence(MurphyAverage(a, b)) <= 0.5 * (Evidence(a) + Evidence(b)) + 2.0 * EPS
  {
    MassIsMean(a);
    MassIsMean(b);
    MassesSplit(a.alpha / Evidence(a), a.beta / Evidence(a), b.alpha / Evidence(b), b.beta / Evidence(b),
                0.5 * (Evidence(a) + Evidence(b)));
  }

  lemma MassesSplit(p: real, p': real, q: real, q': real, t: real)
    requires 0.0 < p < 1.0 && 0.0 < q < 1.0 && p' == 1.0 - p && q' == 1.0 - q && t > 0.0
    ensures Max(0.5 * (p + q) * t, EPS) + Max(0.5 * (p' + q') * t, EPS) <= t + 2.0 * EPS
  {
    SplitAtMost(p, q, t);
  }

  lemma SplitAtMost(p: real, q: real, t: real)
    requires 0.0 < p < 1.0 && 0.0 < q < 1.0 && t > 0.0
    ensures Max(0.5 * (p + q) * t, EPS) + Max(0.5 * ((1.0 - p) + (1.0 - q)) * t, EPS) <= t + 2.0 * EPS
  {
    var yes := 0.5 * (p + q);
    Split(yes, t);
    Sign(yes, t);
    Sign(1.0 - yes, t);
  }

  // ---------- a belief that is stale from the start ----------

  /** Ageing mixes in 98 parts of the uniform prior. */
  lemma AgedParts(b: Beta)
    requires Grounded(b)
    ensures Aged(b, 0) == Beta(0.02 * b.alpha + 0.98, 0.02 * b.beta + 0.98)
  {
  }

  lemma AgedIsSpread(b: Beta)
    requires Grounded(b) && Evidence(b) <= 62.9
    ensures Variance(Aged(b, 0)) > GUARD_VARIANCE
  {
    AgedParts(b);
    var d := Aged(b, 0);
    VarianceTimes(d);
    LeastProduct(d.alpha, d.beta);
    StillSpread(Variance(d), d.alpha * d.beta, Evidence(d));
  }

  lemma StillSpread(v: real, p: real, s: real)
    requires 2.0 <= s <= 3.218 && p >= 0.98 * (s - 0.98) && VarianceIs(v, p, s)
    ensures v > GUARD_VARIANCE
  {
    CubicPositive(s);
    CubicBelow(s);
    Below(GUARD_VARIANCE, v, Cubic(s));
  }

  lemma LeastProduct(a: real, b: real)
    requires a > 0.98 && b > 0.98
    ensures a * b >= 0.98 * (a + b - 0.98)
  {
    Sign(a - 0.98, b - 0.98);
    assert (a - 0.98) * (b - 0.98) == a * b - 0.98 * (a + b - 0.98);
  }

  lemma CubicBelow(s: real)
    requires 2.0 <= s <= 3.218
    ensures GUARD_VARIANCE * Cubic(s) < 0.98 * (s - 0.98)
  {
    Sign(s - 2.0, 3.218 - s);
    var q := s * s;
    assert q <= 5.218 * s - 6.436 by { assert (s - 2.0) * (3.218 - s) == 5.218 * s - 6.436 - q; }
    Scale(q, 5.218 * s - 6.436, s);
    assert q * (s + 1.0) == q * s + q;
    assert (5.218 * s - 6.436) * s == 5.218 * q - 6.436 * s;
  }

  /** Agents that are all as sure as they can be. */
  function Certainly(): Adapter { (k: nat, prompt: string, agents: seq<string>) => Response(1.0, None) }

  function Unanimous(n: nat): Beta
    requires n > 0
  {
    Beta(3.0 * n as real + 1.0 - 4.0 * n as real * EPS, if n == 1 then 4.0 * EPS else EPS)
  }

  lemma {:induction false} FusedUnanimous(k: nat, prompt: string, agents: seq<string>, n: nat)
    requires 0 < n <= |agents|
    ensures Fused(Certainly(), k, prompt, agents, n) == Unanimous(n)
  {
    CertainAnswer();
    if n > 1 {
      FusedUnanimous(k, prompt, agents, n - 1);
      OneMoreVoice(n);
    }
  }

  lemma CertainAnswer()
    ensures Answered(Response(1.0, None)) == Unanimous(1)
  {
  }

  lemma OneMoreVoice(n: nat)
    requires n > 1
    ensures Grounded(Unanimous(n - 1)) && Grounded(Unanimous(1)) && Blend(Unanimous(n - 1), Unanimous(1)) == Unanimous(n)
  {
    VotesAdd(n);
    NoConflict(Unanimous(n - 1), Unanimous(1));
    BlendAdds(Unanimous(n - 1), Unanimous(1));
  }

  lemma VotesAdd(n: nat)
    requires n > 1
    ensures var a, b, c := Unanimous(n - 1), Unanimous(1), Unanimous(n);
      && Grounded(a) && Grounded(b) && a.alpha >= 9.0 * a.beta && b.alpha >= 9.0 * b.beta
      && c == Beta(Max(a.alpha + b.alpha - 1.0, EPS), Max(a.beta + b.beta - 1.0, EPS))
  {
    assert (n - 1) as real == n as real - 1.0;
  }

  lemma BlendAdds(a: Beta, b: Beta)
    requires Grounded(a) && Grounded(b) && CombineDs(a, b).Fused?
    ensures Blend(a, b) == Beta(Max(a.alpha + b.alpha - 1.0, EPS), Max(a.beta + b.beta - 1.0, EPS))
  {
    DiscountKeeps(b, 1.0);
  }

  lemma NoConflict(a: Beta, b: Beta)
    requires Proper(a) && Proper(b) && a.alpha >= 9.0 * a.beta && b.alpha >= 9.0 * b.beta
    ensures CombineDs(a, b).Fused?
  {
    MassByMeans(a, b);
    MostlyYes(a);
    MostlyYes(b);
    LittleConflict(Mean(a), Mean(b));
  }

  lemma MostlyYes(b: Beta)
    requires Proper(b) && b.alpha >= 9.0 * b.beta
    ensures 0.9 <= Mean(b)
  {
    Shares(b.alpha, b.beta);
    AtLeast(0.9, Mean(b), b.alpha + b.beta, b.alpha);
  }

  lemma AtLeast(x: real, y: real, z: real, p: real)
    requires z > 0.0 && y * z == p && p >= x * z
    ensures x <= y
  {
    Below(y, x, z);
  }

  lemma LittleConflict(m: real, n: real)
    requires 0.9 <= m < 1.0 && 0.9 <= n < 1.0
    ensures m * (1.0 - n) + (1.0 - m) * n <= 0.8
  {
    Scale(m, 1.0, 1.0 - n);
    assert m * (1.0 - n) <= 1.0 * (1.0 - n);
    Scale(n, 1.0, 1.0 - m);
    assert n * (1.0 - m) <= 1.0 * (1.0 - m);
  }

  lemma UnanimityPasses(k: nat, prompt: string, agents: seq<string>)
    requires |agents| >= 21
    ensures Passes(Aged(Fused(Certainly(), k, prompt, agents, |agents|), 0), 1.0)
  {
    var b := Fused(Certainly(), k, prompt, agents, |agents|);
    FusedUnanimous(k, prompt, agents, |agents|);
    AgedParts(b);
    var d := Aged(b, 0);
    VarianceTimes(d);
    MeanAndVariance(d);
    Concentrated(Variance(d), d.alpha, d.beta, d.alpha * d.beta, Evidence(d));
  }

  lemma Concentrated(v: real, a: real, b: real, p: real, s: real)
    requires a >= 2.25 && 0.98 <= b <= 0.9801 && s == a + b && p == a * b && VarianceIs(v, p, s)
    ensures v <= GUARD_VARIANCE
  {
    CubicPositive(s);
    Scale(b, 0.9801, a);
    CubicAbove(a, s);
    Below(GUARD_VARIANCE, v, Cubic(s));
  }

  lemma CubicAbove(a: real, s: real)
    requires a >= 2.25 && s >= a + 0.98
    ensures GUARD_VARIANCE * Cubic(s) >= 0.9801 * a
  {
    var x, q := a - 2.25, s * s;
    Scale(3.23, s, s);
    Scale(3.23 + x, s, 3.23);
    var r := 10.4329 + 3.23 * x;
    assert q >= r;
    Scale(r, q, s + 1.0);
    Scale(4.23 + x, s + 1.0, r);
    Sign(x, x);
    assert (4.23 + x) * r == 44.131167 + 24.0958 * x + 3.23 * (x * x);
  }

  /** Some answers and some allowed risk let a guard pass a belief just declared with a time to live of 0. */
  ghost predicate CanPassStale(agents: seq<string>)
    requires agents != []
  {
    exists adapter: Adapter, k: nat, prompt: string, maxRisk: real ::
      Passes(Aged(Fused(adapter, k, prompt, agents, |agents|), 0), maxRisk)
  }

  /**
   * With a time to live of 0 it takes at least 21 agents for the variance condition of a guard to
   * be met; with fewer the guard fails whatever the answers and whatever risk it allows.
   */
  lemma StalePassesIff(agents: seq<string>)
    requires agents != []
    ensures CanPassStale(agents) <==> |agents| >= 21
  {
    if |agents| >= 21 {
      UnanimityPasses(0, "", agents);
    } else {
      forall adapter: Adapter, k: nat, prompt: string, maxRisk: real
        ensures !Passes(Aged(Fused(adapter, k, prompt, agents, |agents|), 0), maxRisk)
      {
        FusedEvidence(adapter, k, prompt, agents, |agents|);
        AgedIsSpread(Fused(adapter, k, prompt, agents, |agents|));
      }
    }
  }
}
