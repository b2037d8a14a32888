/**
 * The lock-free allocator of modification times: threads that read the last stamp, compute a
 * later one and publish it by compare-and-swap, retrying on failure. Reads and failed swaps
 * may return any value the cell ever held, so spurious failures and stale reads are included.
 */
module Stamps {
  import opened Common

  type ThreadId = nat

  /** What a call wants: the clock rounded up to whole seconds, and the file's earlier mtime. */
  datatype Request = Request(now: nat, base: Option<nat>)

  datatype Thread = Idle | Trying(req: Request, prev: nat)

  /** `past` lists every value the cell has held, oldest first; `granted[i]` was answered with `past[i + 1]`. */
  datatype State = State(past: seq<nat>, granted: seq<Request>, threads: map<ThreadId, Thread>)

  datatype Step =
    | Begin(t: ThreadId, req: Request, read: nat)
    | Retry(t: ThreadId, actual: nat)
    | Win(t: ThreadId)

  function RoundUp(secs: nat, nanos: nat): nat {
    secs + (if nanos > 0 then 1 else 0)
  }

  function Floor(base: Option<nat>): nat {
    if base.Some? then base.value + 1 else 0
  }

  function Max(a: nat, b: nat): nat { if a < b then b else a }

  function Candidate(req: Request, prev: nat): nat {
    Max(Max(req.now, prev + 1), Floor(req.base))
  }

  function Last(s: State): nat
    requires s.past != []
  {
    s.past[|s.past| - 1]
  }

  function ThreadOf(s: State, t: ThreadId): Thread {
    if t in s.threads then s.threads[t] else Idle
  }

  ghost predicate Init(s: State) {
    s.past == [0] && s.granted == [] && forall t :: t in s.threads ==> s.threads[t] == Idle
  }

  ghost predicate Next(s: State, step: Step, s': State) {
    s.past != [] &&
    match step
    case Begin(t, req, read) =>
      ThreadOf(s, t) == Idle && read in s.past && s' == s.(threads := s.threads[t := Trying(req, read)])
    case Retry(t, actual) =>
      && ThreadOf(s, t).Trying? && actual in s.past
      && s' == s.(threads := s.threads[t := ThreadOf(s, t).(prev := actual)])
    case Win(t) =>
      && ThreadOf(s, t).Trying? && ThreadOf(s, t).prev == Last(s)
      && var req := ThreadOf(s, t).req;
         s' == State(s.past + [Candidate(req, Last(s))], s.granted + [req], s.threads[t := Idle])
  }

  ghost predicate IsRun(sts: seq<State>, steps: seq<Step>) {
    |sts| == |steps| + 1 && Init(sts[0]) && forall i :: 0 <= i < |steps| ==> Next(sts[i], steps[i], sts[i + 1])
  }

  // ---------- order ----------

  ghost predicate Increasing(xs: seq<nat>) {
    forall i, j :: 0 <= i < j < |xs| ==> xs[i] < xs[j]
  }

  /** Each grant got a stamp no earlier than its clock and later than the file's earlier mtime. */
  ghost predicate Served(s: State) {
    && |s.past| == |s.granted| + 1
    && forall i :: 0 <= i < |s.granted| ==>
         s.past[i + 1] >= s.granted[i].now && (s.granted[i].base.Some? ==> s.past[i + 1] > s.granted[i].base.value)
  }

  lemma StepServed(s: State, step: Step, s': State)
    requires Increasing(s.past) && Served(s) && Next(s, step, s')
    ensures Increasing(s'.past) && Served(s')
  {
    if step.Win? {
      assert forall i :: 0 <= i < |s.past| ==> s.past[i] <= Last(s);
    }
  }

  /**
   * For every interleaving: the stamps handed out are strictly increasing, hence pairwise
   * distinct, each at least its caller's rounded-up clock and later than the file's old mtime.
   */
  lemma {:induction false} StampsIncrease(sts: seq<State>, steps: seq<Step>, n: nat)
    requires IsRun(sts, steps) && n <= |steps|
    ensures Increasing(sts[n].past) && Served(sts[n])
  {
    if n > 0 {
      StampsIncrease(sts, steps, n - 1);
      assert Next(sts[n - 1], steps[n - 1], sts[n]);
      StepServed(sts[n - 1], steps[n - 1], sts[n]);
    }
  }

  /** Rounding up makes the stamp no earlier than the moment of the call, and, unless something earlier forces it up, less than a second later. */
  lemma StampNotBeforeCall(secs: nat, nanos: nat, base: Option<nat>, prev: nat)
    requires nanos < 1_000_000_000
    ensures Candidate(Request(RoundUp(secs, nanos), base), prev) * 1_000_000_000 >= secs * 1_000_000_000 + nanos
    ensures prev < secs && (base.Some? ==> base.value < secs) ==>
      Candidate(Request(RoundUp(secs, nanos), base), prev) * 1_000_000_000 < secs * 1_000_000_000 + nanos + 1_000_000_000
  {
  }

  // ---------- how far ahead of the clock ----------

  /** The old mtime of a file is either not in the future or a stamp handed out before. */
  predicate Tame(s: State, req: Request) {
    req.base.Some? ==> req.base.value <= req.now || req.base.value in s.past
  }

  ghost predicate TameStep(s: State, step: Step) {
    step.Begin? ==> Tame(s, step.req)
  }

  /** No stamp exceeds the latest clock seen so far by more than the number of stamps before it. */
  ghost predicate Close(s: State, clock: nat) {
    && (forall i :: 0 <= i < |s.past| ==> s.past[i] <= clock + i)
    && (forall t :: t in s.threads && s.threads[t].Trying? ==> s.threads[t].req.now <= clock && Tame(s, s.threads[t].req))
  }

  lemma StepClose(s: State, step: Step, s': State, clock: nat)
    requires Increasing(s.past) && Close(s, clock) && Next(s, step, s') && TameStep(s, step)
    requires step.Begin? ==> step.req.now <= clock
    ensures Close(s', clock)
  {
    if step.Win? {
      var req := ThreadOf(s, step.t).req;
      assert forall i :: 0 <= i < |s.past| ==> s.past[i] <= Last(s);
      assert Candidate(req, Last(s)) <= Max(clock + 1, Last(s) + 1);
      assert forall x :: x in s.past ==> x in s'.past;
    }
  }

  /** After k stamps, the last one is at most k seconds ahead of the latest clock any call has read. */
  lemma {:induction false} StampsStayClose(sts: seq<State>, steps: seq<Step>, n: nat, clock: nat)
    requires IsRun(sts, steps) && n <= |steps|
    requires forall i :: 0 <= i < n ==> TameStep(sts[i], steps[i]) && (steps[i].Begin? ==> steps[i].req.now <= clock)
    ensures sts[n].past != [] && Close(sts[n], clock) && Last(sts[n]) <= clock + |sts[n].granted|
  {
    StampsIncrease(sts, steps, n);
    if n > 0 {
      StampsStayClose(sts, steps, n - 1, clock);
      StampsIncrease(sts, steps, n - 1);
      assert Next(sts[n - 1], steps[n - 1], sts[n]);
      StepClose(sts[n - 1], steps[n - 1], sts[n], clock);
    }
  }

  // ---------- the loop of one call ----------

  /** One failed round: another thread may have raised the cell, or the swap failed for no reason. */
  datatype Round = Round(others: nat, stale: nat)

  function Min(a: nat, b: nat): nat { if b < a then b else a }

  /** What the others have made of the cell by the end of these rounds. */
  function Raised(last: nat, rounds: seq<Round>): nat {
    if rounds == [] then last else Max(Raised(last, rounds[..|rounds| - 1]), rounds[|rounds| - 1].others)
  }

  class Cell {
    var last: nat

    constructor ()
      ensures last == 0
    {
      last := 0;
    }

    /**
     * One call, with the rounds in which it loses: others raise the cell, and a read or a lost swap
     * reports its value then or an older one. The stamp follows what the others left.
     */
    method MarkFresh(req: Request, firstRead: nat, rounds: seq<Round>) returns (stamp: nat)
      modifies this
      ensures last == stamp && stamp > old(last) && forall r :: r in rounds ==> stamp > r.others
      ensures stamp >= req.now && (req.base.Some? ==> stamp > req.base.value)
      ensures stamp == Candidate(req, Raised(old(last), rounds))
    {
      var prev: nat := Min(firstRead, last);
      var i := 0;
      while true
        invariant i <= |rounds| && prev <= last && last == Raised(old(last), rounds[..i])
        invariant last >= old(last) && forall j :: 0 <= j < i ==> last >= rounds[j].others
        decreases |rounds| - i, if prev < last then 1 else 0
      {
        var next := Candidate(req, prev);
        if i < |rounds| {
          assert rounds[..i + 1][..i] == rounds[..i];
          last := Max(last, rounds[i].others);
          prev := Min(rounds[i].stale, last);
          i := i + 1;
        } else if prev == last {
          assert rounds[..i] == rounds;
          last := next;
          return next;
        } else {
          prev := last;
        }
      }
    }
  }
}
