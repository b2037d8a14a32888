/**
 * The verifier-gated repair loop and its memory of rejected edit-sets. The verifier is a
 * function of the files, the proposer an arbitrary stream, the faults of the file system
 * arbitrary too; the theorems are about every run.
 */
module Repair {
  import opened Common
  import opened EditSets
  import opened Transactions

  type Memory = map<string, seq<Fingerprint>>

  /** The proposer is told the last failure, the number of the attempt, and how many were rejected so far. */
  datatype Setup = Setup(
    objective: string,
    digest: Digest,
    train: Files -> bool,
    holdout: Files -> bool,
    capture: Files -> string,
    proposer: (string, nat, nat) -> Option<EditSet>,
    faults: nat -> Fault,
    unreadable: set<Path>)

  datatype Outcome = Outcome(solved: bool, attempts: nat, rejected: nat)

  /** `tried` lists the edit-sets handed to `apply`, in order. */
  datatype Progress = Progress(files: Files, memory: Memory, lastFailure: string, rejected: nat, tried: seq<EditSet>)

  // ---------- memory ----------

  function RejectedFor(memory: Memory, objective: string): seq<Fingerprint> {
    if objective in memory then memory[objective] else []
  }

  function Remember(memory: Memory, objective: string, fp: Fingerprint): Memory {
    var known := RejectedFor(memory, objective);
    memory[objective := if fp in known then known else known + [fp]]
  }

  class AttemptMemory {
    var rejected: Memory

    constructor ()
      ensures rejected == map[]
    {
      rejected := map[];
    }

    method WasRejected(objective: string, digest: Digest, edits: EditSet) returns (known: bool)
      ensures known <==> FingerprintOf(digest, edits) in RejectedFor(rejected, objective)
    {
      if objective !in rejected { return false; }
      var fp := ComputeFingerprint(digest, edits);
      known := fp in rejected[objective];
    }

    method RecordRejected(objective: string, digest: Digest, edits: EditSet)
      modifies this
      ensures rejected == Remember(old(rejected), objective, FingerprintOf(digest, edits))
    {
      var fp := ComputeFingerprint(digest, edits);
      var list := if objective in rejected then rejected[objective] else [];
      rejected := rejected[objective := list];
      if fp !in list {
        rejected := rejected[objective := list + [fp]];
      }
    }
  }

  // ---------- the loop, as a function ----------

  function Offered(s: Setup, k: nat, p: Progress): Option<EditSet> { s.proposer(p.lastFailure, k, p.rejected) }

  ghost predicate Considered(s: Setup, k: nat, p: Progress) {
    && Offered(s, k, p).Some? && Offered(s, k, p).value != []
    && FingerprintOf(s.digest, Offered(s, k, p).value) !in RejectedFor(p.memory, s.objective)
  }

  ghost function Rejecting(s: Setup, p: Progress, edits: EditSet, files: Files, failure: string): Progress {
    Progress(files, Remember(p.memory, s.objective, FingerprintOf(s.digest, edits)), failure, p.rejected + 1, p.tried + [edits])
  }

  predicate Accept(s: Setup, files: Files) {
    s.train(files) && s.holdout(files)
  }

  /** Attempt number `k`, and whether it solved the objective. */
  ghost function Attempt(s: Setup, k: nat, p: Progress): (Progress, bool) {
    if !Considered(s, k, p) then (p, false)
    else
      var edits := Offered(s, k, p).value;
      var files := Applied(p.files, edits, s.unreadable, s.faults(k));
      if !Succeeds(edits, s.faults(k)) then (Rejecting(s, p, edits, files, p.lastFailure), false)
      else if Accept(s, files) then (p.(files := files, tried := p.tried + [edits]), true)
      else
        var restored := Restore(files, Snap(p.files, edits, s.unreadable));
        (Rejecting(s, p, edits, restored, s.capture(restored)), false)
  }

  ghost function Loop(s: Setup, k: nat, max: nat, p: Progress): (Progress, Outcome)
    decreases max + 1 - k
  {
    if k > max then (p, Outcome(false, max, p.rejected))
    else
      var (p', solved) := Attempt(s, k, p);
      if solved then (p', Outcome(true, k, p'.rejected)) else Loop(s, k + 1, max, p')
  }

  /** At least one attempt is always made. */
  function AtLeastOne(n: nat): nat { if n == 0 then 1 else n }

  ghost function Run(s: Setup, maxAttempts: nat, files: Files, memory: Memory): (Progress, Outcome) {
    Loop(s, 1, AtLeastOne(maxAttempts), Begun(s, files, memory))
  }

  function Begun(s: Setup, files: Files, memory: Memory): Progress { Progress(files, memory, s.capture(files), 0, []) }

  // ---------- the loop, as the program runs it ----------

  method RunAgentic(s: Setup, maxAttempts: nat, disk: Disk, memory: AttemptMemory) returns (outcome: Outcome)
    modifies disk, memory
    ensures var (p, o) := Run(s, maxAttempts, old(disk.files), old(memory.rejected));
            outcome == o && disk.files == p.files && memory.rejected == p.memory
  {
    var lastFailure := s.capture(disk.files);
    var rejected := 0;
    var max := AtLeastOne(maxAttempts);
    ghost var p := Begun(s, disk.files, memory.rejected);
    for attempt := 1 to max + 1
      invariant p.files == disk.files && p.memory == memory.rejected && p.rejected == rejected && p.lastFailure == lastFailure
      invariant Run(s, maxAttempts, old(disk.files), old(memory.rejected)) == Loop(s, attempt, max, p)
    {
      ghost var next := Attempt(s, attempt, p);
      var proposal := s.proposer(lastFailure, attempt, rejected);
      if proposal.None? { continue; }
      var edits := proposal.value;
      if edits == [] { continue; }
      var known := memory.WasRejected(s.objective, s.digest, edits);
      if known { continue; }
      var tx := Transaction.Apply(disk, edits, s.unreadable, s.faults(attempt));
      if tx == null {
        memory.RecordRejected(s.objective, s.digest, edits);
        rejected := rejected + 1;
        p := next.0;
        continue;
      }
      if s.train(disk.files) && s.holdout(disk.files) {
        tx.Commit();
        return Outcome(true, attempt, rejected);
      }
      tx.Drop();
      memory.RecordRejected(s.objective, s.digest, edits);
      rejected := rejected + 1;
      lastFailure := s.capture(disk.files);
      p := next.0;
    }
    return Outcome(false, max, rejected);
  }

  // ---------- no rejected edit-set is applied again ----------

  ghost function Prints(s: Setup, tried: seq<EditSet>): seq<Fingerprint> {
    seq(|tried|, i requires 0 <= i < |tried| => FingerprintOf(s.digest, tried[i]))
  }

  ghost predicate Distinct(fps: seq<Fingerprint>) {
    forall i, j :: 0 <= i < j < |fps| ==> fps[i] != fps[j]
  }

  /** Nothing in `tried` was known before the run or tried twice. */
  ghost predicate Fresh(s: Setup, memory0: Memory, tried: seq<EditSet>) {
    && Distinct(Prints(s, tried))
    && forall i :: 0 <= i < |tried| ==> FingerprintOf(s.digest, tried[i]) !in RejectedFor(memory0, s.objective)
  }

  /** The memory has grown by exactly the rejected edit-sets, for this objective only. */
  ghost predicate Grew(s: Setup, memory0: Memory, memory: Memory, rejected: seq<EditSet>) {
    && RejectedFor(memory, s.objective) == RejectedFor(memory0, s.objective) + Prints(s, rejected)
    && forall o :: o != s.objective ==> RejectedFor(memory, o) == RejectedFor(memory0, o)
  }

  ghost predicate Bookkept(s: Setup, memory0: Memory, p: Progress) {
    Fresh(s, memory0, p.tried) && Grew(s, memory0, p.memory, p.tried) && p.rejected == |p.tried|
  }

  lemma TriedStaysFresh(s: Setup, memory0: Memory, p: Progress, e: EditSet)
    requires Bookkept(s, memory0, p) && FingerprintOf(s.digest, e) !in RejectedFor(p.memory, s.objective)
    ensures Fresh(s, memory0, p.tried + [e])
    ensures Prints(s, p.tried + [e]) == Prints(s, p.tried) + [FingerprintOf(s.digest, e)]
  {
    var known := RejectedFor(memory0, s.objective);
    var fps := Prints(s, p.tried + [e]);
    assert fps == Prints(s, p.tried) + [FingerprintOf(s.digest, e)];
    assert forall i :: 0 <= i < |p.tried| ==> fps[i] == RejectedFor(p.memory, s.objective)[|known| + i];
    assert forall i :: 0 <= i < |known| ==> known[i] == RejectedFor(p.memory, s.objective)[i];
  }

  lemma AttemptBookkept(s: Setup, k: nat, memory0: Memory, p: Progress)
    requires Bookkept(s, memory0, p)
    ensures var (p', solved) := Attempt(s, k, p);
            && (!solved ==> Bookkept(s, memory0, p'))
            && (solved ==>
                  (&& p'.tried != [] && Fresh(s, memory0, p'.tried) && p'.rejected == |p'.tried| - 1
                   && Grew(s, memory0, p'.memory, p'.tried[..|p'.tried| - 1])))
  {
    if Considered(s, k, p) {
      var e := Offered(s, k, p).value;
      var (p', solved) := Attempt(s, k, p);
      TriedStaysFresh(s, memory0, p, e);
      if solved {
        assert (p.tried + [e])[..|p.tried|] == p.tried;
      } else {
        RejectionBookkept(s, memory0, p, e, p');
      }
    }
  }

  lemma RejectionBookkept(s: Setup, memory0: Memory, p: Progress, e: EditSet, p': Progress)
    requires Bookkept(s, memory0, p) && FingerprintOf(s.digest, e) !in RejectedFor(p.memory, s.objective)
    requires p'.memory == Remember(p.memory, s.objective, FingerprintOf(s.digest, e))
    requires p'.tried == p.tried + [e] && p'.rejected == p.rejected + 1
    ensures Bookkept(s, memory0, p')
  {
    TriedStaysFresh(s, memory0, p, e);
    Appended(RejectedFor(memory0, s.objective), Prints(s, p.tried), FingerprintOf(s.digest, e));
  }

  lemma {:induction false} LoopBookkept(s: Setup, k: nat, max: nat, memory0: Memory, p: Progress)
    requires Bookkept(s, memory0, p)
    ensures var (p', o) := Loop(s, k, max, p);
            && Fresh(s, memory0, p'.tried)
            && (o.solved ==> p'.tried != [])
            && o.rejected == |p'.tried| - (if o.solved then 1 else 0)
            && Grew(s, memory0, p'.memory, p'.tried[..o.rejected])
            && o.attempts <= (if k > max then k else max)
    decreases max + 1 - k
  {
    if k <= max {
      AttemptBookkept(s, k, memory0, p);
      var (p', solved) := Attempt(s, k, p);
      if !solved {
        LoopBookkept(s, k + 1, max, memory0, p');
      }
    } else {
      assert p.tried[..|p.tried|] == p.tried;
    }
  }

  /**
   * Over every run: no edit-set known as rejected is applied, none is applied twice, and
   * `rejected` is exactly the growth of the memory for this objective.
   */
  lemma NeverTriedAgain(s: Setup, maxAttempts: nat, files: Files, memory: Memory)
    ensures var (p, o) := Run(s, maxAttempts, files, memory);
            && Fresh(s, memory, p.tried) && (o.solved ==> p.tried != [])
            && o.rejected == |RejectedFor(p.memory, s.objective)| - |RejectedFor(memory, s.objective)|
            && (forall objective :: objective != s.objective ==> RejectedFor(p.memory, objective) == RejectedFor(memory, objective))
            && RejectedFor(p.memory, s.objective)
               == RejectedFor(memory, s.objective) + Prints(s, if o.solved then p.tried[..|p.tried| - 1] else p.tried)
  {
    var p0 := Begun(s, files, memory);
    assert Bookkept(s, memory, p0);
    LoopBookkept(s, 1, AtLeastOne(maxAttempts), memory, p0);
    var (p, o) := Run(s, maxAttempts, files, memory);
    assert !o.solved ==> p.tried[..o.rejected] == p.tried;
  }

  /** With clean contents and an injective hash, distinct attempts have distinct effects. */
  lemma DistinctEffects(s: Setup, maxAttempts: nat, files: Files, memory: Memory, i: nat, j: nat)
    requires forall a, b :: s.digest.hash(a) == s.digest.hash(b) ==> a == b
    requires i < j < |Run(s, maxAttempts, files, memory).0.tried|
    requires Clean(Effective(Run(s, maxAttempts, files, memory).0.tried[i]))
    requires Clean(Effective(Run(s, maxAttempts, files, memory).0.tried[j]))
    ensures var tried := Run(s, maxAttempts, files, memory).0.tried; Effective(tried[i]) != Effective(tried[j])
  {
    NeverTriedAgain(s, maxAttempts, files, memory);
    var tried := Run(s, maxAttempts, files, memory).0.tried;
    assert Prints(s, tried)[i] != Prints(s, tried)[j];
    SameBytesSameEffect(tried[i], tried[j], s.digest.before);
  }

  // ---------- all or nothing ----------

  /** The attempt, if it is not accepted, can be undone: see RejectedIsUndone and FailedApplyIsUndone. */
  ghost predicate Undoable(fs: Files, edits: EditSet, unreadable: set<Path>, fault: Fault) {
    if Succeeds(edits, fault) then Hidden(fs, edits, unreadable) == {}
    else match fault
      case WriteRefused(i, _) => Hidden(fs, edits[..i + 1], unreadable) == {}
      case MkdirRefused(i) => forall p :: p in Effective(edits[..i]) ==> p in fs && fs[p] == Effective(edits[..i])[p]
  }

  /** One attempt that is tried and not accepted leaves every file as it was exactly when it is undoable. */
  lemma AttemptUndone(s: Setup, k: nat, p: Progress)
    requires Considered(s, k, p) && !Attempt(s, k, p).1
    ensures Attempt(s, k, p).0.files == p.files <==> Undoable(p.files, Offered(s, k, p).value, s.unreadable, s.faults(k))
  {
    var edits := Offered(s, k, p).value;
    if Succeeds(edits, s.faults(k)) {
      RejectedIsUndone(p.files, edits, s.unreadable);
    } else {
      FailedApplyIsUndone(p.files, edits, s.unreadable, s.faults(k));
    }
  }

  // ---------- exactly when a run is solved, and by what ----------

  /** What the proposer answers at each attempt: `offers[i]` is its answer to attempt `i + 1`. */
  type Offers = seq<Option<EditSet>>

  predicate Proposed(offers: Offers, i: nat) { i < |offers| && offers[i].Some? && offers[i].value != [] }

  ghost function PrintAt(s: Setup, offers: Offers, i: nat): Fingerprint
    requires Proposed(offers, i)
  {
    FingerprintOf(s.digest, offers[i].value)
  }

  /** Not remembered from before the run, and not proposed earlier in it. */
  ghost predicate New(s: Setup, memory: Memory, offers: Offers, i: nat) {
    && Proposed(offers, i) && PrintAt(s, offers, i) !in RejectedFor(memory, s.objective)
    && forall j | 0 <= j < i && Proposed(offers, j) :: PrintAt(s, offers, j) != PrintAt(s, offers, i)
  }

  /** The new edit-sets among the first `n` answers. */
  ghost function NewOnes(s: Setup, memory: Memory, offers: Offers, n: nat): seq<EditSet> {
    if n == 0 then [] else NewOnes(s, memory, offers, n - 1) + (if New(s, memory, offers, n - 1) then [offers[n - 1].value] else [])
  }

  /** The answer to a proposer that is told the failure of the initial files, and how many edit-sets were new so far. */
  ghost predicate AnswerAt(s: Setup, files: Files, memory: Memory, offers: Offers, i: nat) {
    i < |offers| && offers[i] == s.proposer(s.capture(files), i + 1, |NewOnes(s, memory, offers, i)|)
  }

  /** These are the proposer's answers while every attempt leaves the files as they were. */
  ghost predicate Answers(s: Setup, files: Files, memory: Memory, offers: Offers) {
    forall i: nat | i < |offers| :: AnswerAt(s, files, memory, offers, i)
  }

  ghost predicate AllUndoable(s: Setup, files: Files, offers: Offers) {
    forall i | 0 <= i < |offers| && offers[i].Some? :: Undoable(files, offers[i].value, s.unreadable, s.faults(i + 1))
  }

  /** A new edit-set that can be applied and that both checks accept. */
  ghost predicate Solves(s: Setup, files: Files, memory: Memory, offers: Offers, i: nat) {
    && New(s, memory, offers, i) && Succeeds(offers[i].value, s.faults(i + 1))
    && s.train(files + Effective(offers[i].value)) && s.holdout(files + Effective(offers[i].value))
  }

  /** A fingerprint is known after `n` attempts exactly if it was remembered or has been proposed. */
  lemma {:induction false} KnownIff(s: Setup, memory: Memory, offers: Offers, n: nat, f: Fingerprint)
    ensures f in RejectedFor(memory, s.objective) + Prints(s, NewOnes(s, memory, offers, n)) <==>
      f in RejectedFor(memory, s.objective) || exists j :: 0 <= j < n && Proposed(offers, j) && PrintAt(s, offers, j) == f
  {
    if n > 0 {
      KnownIff(s, memory, offers, n - 1, f);
      PrintsSnoc(s, memory, offers, n);
    }
  }

  lemma PrintsSnoc(s: Setup, memory: Memory, offers: Offers, n: nat)
    requires n > 0
    ensures Prints(s, NewOnes(s, memory, offers, n)) ==
      Prints(s, NewOnes(s, memory, offers, n - 1)) + (if New(s, memory, offers, n - 1) then [PrintAt(s, offers, n - 1)] else [])
  {
  }

  /** Where a run is after `n` attempts that did not solve it. */
  ghost predicate Unsolved(s: Setup, files: Files, memory: Memory, offers: Offers, n: nat, p: Progress) {
    && p.files == files && p.lastFailure == s.capture(files)
    && p.tried == NewOnes(s, memory, offers, n) && p.rejected == |p.tried|
    && RejectedFor(p.memory, s.objective) == RejectedFor(memory, s.objective) + Prints(s, p.tried)
    && forall i | 0 <= i < n :: !Solves(s, files, memory, offers, i)
  }

  lemma ConsideredIff(s: Setup, files: Files, memory: Memory, offers: Offers, n: nat, p: Progress)
    requires n < |offers| && Answers(s, files, memory, offers) && Unsolved(s, files, memory, offers, n, p)
    ensures Offered(s, n + 1, p) == offers[n]
    ensures Considered(s, n + 1, p) <==> New(s, memory, offers, n)
  {
    assert AnswerAt(s, files, memory, offers, n);
    if Proposed(offers, n) { KnownIff(s, memory, offers, n, PrintAt(s, offers, n)); }
  }

  /** What attempt `n + 1` leaves when it solves the objective. */
  ghost predicate SolvedBy(s: Setup, files: Files, memory: Memory, offers: Offers, n: nat, p: Progress) {
    && Solves(s, files, memory, offers, n) && p.files == files + Effective(offers[n].value)
    && p.tried == NewOnes(s, memory, offers, n + 1) && p.rejected == |p.tried| - 1
  }

  lemma AttemptSolvesIff(s: Setup, files: Files, memory: Memory, offers: Offers, n: nat, p: Progress)
    requires n < |offers| && Answers(s, files, memory, offers) && AllUndoable(s, files, offers) && Unsolved(s, files, memory, offers, n, p)
    ensures var (p', solved) := Attempt(s, n + 1, p);
      if solved then SolvedBy(s, files, memory, offers, n, p') else Unsolved(s, files, memory, offers, n + 1, p')
  {
    ConsideredIff(s, files, memory, offers, n, p);
    if !New(s, memory, offers, n) {
      NothingNew(s, files, memory, offers, n, p);
    } else if Attempt(s, n + 1, p).1 {
      AcceptedSolves(s, files, memory, offers, n, p);
    } else {
      RejectedStaysUnsolved(s, files, memory, offers, n, p);
    }
  }

  lemma NothingNew(s: Setup, files: Files, memory: Memory, offers: Offers, n: nat, p: Progress)
    requires Unsolved(s, files, memory, offers, n, p) && !New(s, memory, offers, n)
    ensures Unsolved(s, files, memory, offers, n + 1, p)
  {
    assert NewOnes(s, memory, offers, n + 1) == NewOnes(s, memory, offers, n);
  }

  lemma AcceptedSolves(s: Setup, files: Files, memory: Memory, offers: Offers, n: nat, p: Progress)
    requires n < |offers| && Unsolved(s, files, memory, offers, n, p)
    requires New(s, memory, offers, n) && Considered(s, n + 1, p) && Offered(s, n + 1, p) == offers[n] && Attempt(s, n + 1, p).1
    ensures SolvedBy(s, files, memory, offers, n, Attempt(s, n + 1, p).0)
  {
  }

  lemma RejectedStaysUnsolved(s: Setup, files: Files, memory: Memory, offers: Offers, n: nat, p: Progress)
    requires n < |offers| && AllUndoable(s, files, offers) && Unsolved(s, files, memory, offers, n, p)
    requires New(s, memory, offers, n) && Considered(s, n + 1, p) && Offered(s, n + 1, p) == offers[n] && !Attempt(s, n + 1, p).1
    ensures !Solves(s, files, memory, offers, n) && Unsolved(s, files, memory, offers, n + 1, Attempt(s, n + 1, p).0)
  {
    RejectedLeaves(s, n + 1, p, offers[n].value);
    UnsolvedGoesOn(s, files, memory, offers, n, p, Attempt(s, n + 1, p).0);
  }

  lemma UnsolvedGoesOn(s: Setup, files: Files, memory: Memory, offers: Offers, n: nat, p: Progress, p': Progress)
    requires n < |offers| && Unsolved(s, files, memory, offers, n, p) && New(s, memory, offers, n)
    requires PrintAt(s, offers, n) !in RejectedFor(p.memory, s.objective) && !Solves(s, files, memory, offers, n)
    requires p' == Rejecting(s, p, offers[n].value, files, p.lastFailure)
    ensures Unsolved(s, files, memory, offers, n + 1, p')
  {
    RejectionRecorded(s, memory, offers, n, p, p');
  }

  /** What an attempt leaves that can be undone and does not solve the objective. */
  lemma RejectedLeaves(s: Setup, k: nat, p: Progress, edits: EditSet)
    requires Considered(s, k, p) && Offered(s, k, p) == Some(edits) && !Attempt(s, k, p).1
    requires Undoable(p.files, edits, s.unreadable, s.faults(k)) && p.lastFailure == s.capture(p.files)
    ensures Attempt(s, k, p).0 == Rejecting(s, p, edits, p.files, p.lastFailure)
    ensures !(Succeeds(edits, s.faults(k)) && s.train(p.files + Effective(edits)) && s.holdout(p.files + Effective(edits)))
  {
    AttemptUndone(s, k, p);
  }

  lemma RejectionRecorded(s: Setup, memory: Memory, offers: Offers, n: nat, p: Progress, p': Progress)
    requires New(s, memory, offers, n) && PrintAt(s, offers, n) !in RejectedFor(p.memory, s.objective)
    requires p'.memory == Remember(p.memory, s.objective, PrintAt(s, offers, n))
    requires p.tried == NewOnes(s, memory, offers, n) && p'.tried == p.tried + [offers[n].value]
    requires RejectedFor(p.memory, s.objective) == RejectedFor(memory, s.objective) + Prints(s, p.tried)
    ensures p'.tried == NewOnes(s, memory, offers, n + 1)
    ensures RejectedFor(p'.memory, s.objective) == RejectedFor(memory, s.objective) + Prints(s, p'.tried)
  {
    PrintsSnoc(s, memory, offers, n + 1);
    Appended(RejectedFor(memory, s.objective), Prints(s, p.tried), PrintAt(s, offers, n));
  }

  lemma Appended(a: seq<Fingerprint>, b: seq<Fingerprint>, f: Fingerprint)
    ensures a + b + [f] == a + (b + [f])
  {
  }

  /** What a run comes to that makes these attempts. */
  ghost predicate Decided(s: Setup, files: Files, memory: Memory, offers: Offers, p: Progress, o: Outcome) {
    && (o.solved <==> exists i: nat :: i < |offers| && Solves(s, files, memory, offers, i))
    && o.attempts <= |offers|
    && p.tried == NewOnes(s, memory, offers, o.attempts)
    && o.rejected == |p.tried| - (if o.solved then 1 else 0)
    && if o.solved then
         (o.attempts > 0 && Solves(s, files, memory, offers, o.attempts - 1)
          && (forall i | 0 <= i < o.attempts - 1 :: !Solves(s, files, memory, offers, i))
          && p.files == files + Effective(offers[o.attempts - 1].value))
       else (o.attempts == |offers| && p.files == files)
  }

  lemma SolvedDecides(s: Setup, files: Files, memory: Memory, offers: Offers, n: nat, p: Progress, p': Progress)
    requires n < |offers| && Unsolved(s, files, memory, offers, n, p) && SolvedBy(s, files, memory, offers, n, p')
    ensures Decided(s, files, memory, offers, p', Outcome(true, n + 1, p'.rejected))
  {
  }

  lemma UnsolvedDecides(s: Setup, files: Files, memory: Memory, offers: Offers, p: Progress)
    requires Unsolved(s, files, memory, offers, |offers|, p)
    ensures Decided(s, files, memory, offers, p, Outcome(false, |offers|, p.rejected))
  {
  }

  lemma {:induction false} LoopDecided(s: Setup, files: Files, memory: Memory, offers: Offers, n: nat, p: Progress)
    requires Answers(s, files, memory, offers) && AllUndoable(s, files, offers)
    requires n <= |offers| && Unsolved(s, files, memory, offers, n, p)
    ensures Decided(s, files, memory, offers, Loop(s, n + 1, |offers|, p).0, Loop(s, n + 1, |offers|, p).1)
    decreases |offers| - n
  {
    if n == |offers| {
      UnsolvedDecides(s, files, memory, offers, p);
    } else {
      AttemptSolvesIff(s, files, memory, offers, n, p);
      var (p', solved) := Attempt(s, n + 1, p);
      if solved { SolvedDecides(s, files, memory, offers, n, p, p'); } else { LoopDecided(s, files, memory, offers, n + 1, p'); }
    }
  }

  /**
   * Where every attempt can be undone, a run is solved exactly if some attempt proposes a new edit-set
   * that can be applied and that both checks accept over the initial files. The first such attempt
   * ends it, with that edit-set and nothing else in the files; otherwise all attempts are made and
   * every file is what it was. Tried are exactly the new edit-sets proposed until then.
   */
  lemma SolvedIff(s: Setup, maxAttempts: nat, files: Files, memory: Memory, offers: Offers)
    requires |offers| == (if maxAttempts == 0 then 1 else maxAttempts) && Answers(s, files, memory, offers) && AllUndoable(s, files, offers)
    ensures var (p, o) := Run(s, maxAttempts, files, memory); Decided(s, files, memory, offers, p, o)
  {
    assert RejectedFor(memory, s.objective) + Prints(s, []) == RejectedFor(memory, s.objective);
    LoopDecided(s, files, memory, offers, 0, Begun(s, files, memory));
  }

  /** The proposer always has such answers. */
  lemma {:induction false} AnswersExist(s: Setup, files: Files, memory: Memory, n: nat) returns (offers: Offers)
    ensures |offers| == n && Answers(s, files, memory, offers)
  {
    if n == 0 {
      offers := [];
    } else {
      var before := AnswersExist(s, files, memory, n - 1);
      offers := before + [s.proposer(s.capture(files), n, |NewOnes(s, memory, before, n - 1)|)];
      OneMoreAnswer(s, files, memory, before, offers[n - 1]);
    }
  }

  lemma OneMoreAnswer(s: Setup, files: Files, memory: Memory, offers: Offers, next: Option<EditSet>)
    requires Answers(s, files, memory, offers)
    requires next == s.proposer(s.capture(files), |offers| + 1, |NewOnes(s, memory, offers, |offers|)|)
    ensures Answers(s, files, memory, offers + [next])
  {
    forall i: nat | i < |offers| + 1
      ensures AnswerAt(s, files, memory, offers + [next], i)
    {
      SamePrefix(s, memory, offers, next, i);
      if i < |offers| { assert AnswerAt(s, files, memory, offers, i); }
    }
  }

  lemma {:induction false} SamePrefix(s: Setup, memory: Memory, offers: Offers, next: Option<EditSet>, n: nat)
    requires n <= |offers|
    ensures NewOnes(s, memory, offers + [next], n) == NewOnes(s, memory, offers, n)
  {
    if n > 0 {
      SamePrefix(s, memory, offers, next, n - 1);
      assert forall j | 0 <= j < n :: Proposed(offers + [next], j) <==> Proposed(offers, j);
    }
  }

  /**
   * All or nothing over whole runs: solved means the initial files overlaid by one edit-set that
   * both checks accept; unsolved means every file is what it was.
   */
  lemma AllOrNothing(s: Setup, maxAttempts: nat, files: Files, memory: Memory)
    requires forall failure, i, rejected | s.proposer(failure, i, rejected).Some? ::
               Undoable(files, s.proposer(failure, i, rejected).value, s.unreadable, s.faults(i))
    ensures var (p, o) := Run(s, maxAttempts, files, memory);
            if o.solved then
              (p.tried != [] && p.files == files + Effective(p.tried[|p.tried| - 1])
              && s.train(p.files) && s.holdout(p.files))
            else p.files == files
  {
    var offers := AnswersExist(s, files, memory, AtLeastOne(maxAttempts));
    forall i: nat | i < |offers|
      ensures offers[i].Some? ==> Undoable(files, offers[i].value, s.unreadable, s.faults(i + 1))
    {
      assert AnswerAt(s, files, memory, offers, i);
    }
    SolvedIff(s, maxAttempts, files, memory, offers);
  }

  /** A directory that cannot be made after a first edit was written: the loop ends unsolved with that edit still in place. */
  lemma MkdirFailureLeaks(digest: Digest)
    ensures exists s: Setup, files: Files, memory: Memory ::
              var (p, o) := Run(s, 1, files, memory); !o.solved && p.files != files
  {
    var edits: EditSet := [FileEdit([97], [120]), FileEdit([98, 47, 99], [121])];
    var s := Setup("goal", digest, f => false, f => false, f => "", (failure, k, rejected) => Some(edits), k => MkdirRefused(1), {});
    var files: Files := map[];
    var memory: Memory := map[];
    var p0 := Begun(s, files, memory);
    assert edits[..1] == [FileEdit([97], [120])];
    EffectiveOne(FileEdit([97], [120]));
    assert Considered(s, 1, p0);
    var (p1, solved) := Attempt(s, 1, p0);
    assert !solved && p1.files == map[] + Effective(edits[..1]);
    assert [97] in p1.files;
    assert Loop(s, 1, 1, p0) == Loop(s, 2, 1, p1) == (p1, Outcome(false, 1, p1.rejected));
    assert Run(s, 1, files, memory) == Loop(s, 1, 1, p0);
    var (p, o) := Run(s, 1, files, memory);
    assert !o.solved && p.files != files;
  }
}
