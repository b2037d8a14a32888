/**
 * The agent-driven task: propose edit-sets, keep those the verifier passes, and finish by
 * keeping or abandoning everything. The object is proved against a step relation, and the
 * relation over every run, including finishes that fail part-way and are tried again.
 */
module AgentTask {
  import opened Common
  import opened EditSets
  import opened Transactions
  import opened Repair

  datatype Output =
    | AlreadyFinished
    | AttemptsExhausted
    | NotAllowed(path: Path)
    | EmptyEditSet
    | KnownRejected
    | ApplyFailed
    | Verifier(text: string)

  datatype Record = Record(attempt: nat, fingerprint: Fingerprint, passed: bool, output: Output)

  /** The outcome of a proposal carries the same fields as its record. */
  type Outcome = Record

  datatype Env = Env(digest: Digest, verify: Files -> (bool, string))

  datatype Task = Task(
    goal: string,
    maxAttempts: nat,
    attempt: nat,
    memory: Memory,
    history: seq<Record>,
    originals: Snapshot,
    finished: bool)

  /** A task, the files, and the edit-sets that have passed so far. */
  datatype State = State(task: Task, files: Files, passed: seq<EditSet>)

  datatype Proposal = Proposal(edits: EditSet, unreadable: set<Path>, fault: Fault)

  // ---------- one proposal ----------

  function FirstForbidden(edits: EditSet, allowed: set<Path>): Option<Path> {
    if edits == [] then None
    else if edits[0].path !in allowed then Some(edits[0].path)
    else FirstForbidden(edits[1..], allowed)
  }

  /** The record of a new attempt, without its effect on the files. */
  ghost function NewRecord(env: Env, st: State, c: Proposal): Record {
    var t := st.task;
    var n := t.attempt + 1;
    var fp := FingerprintOf(env.digest, c.edits);
    var forbidden := FirstForbidden(c.edits, t.originals.Keys);
    if forbidden.Some? then Record(n, "", false, NotAllowed(forbidden.value))
    else if c.edits == [] then Record(n, "", false, EmptyEditSet)
    else if fp in RejectedFor(t.memory, t.goal) then Record(n, fp, false, KnownRejected)
    else if !Succeeds(c.edits, c.fault) then Record(n, fp, false, ApplyFailed)
    else
      var (ok, text) := env.verify(Applied(st.files, c.edits, c.unreadable, c.fault));
      Record(n, fp, ok, Verifier(text))
  }

  predicate Open(t: Task) {
    !t.finished && t.attempt < t.maxAttempts
  }

  ghost function Propose(env: Env, st: State, c: Proposal): (State, Outcome) {
    var t := st.task;
    if t.finished then (st, Record(t.attempt, "", false, AlreadyFinished))
    else if t.attempt >= t.maxAttempts then (st, Record(t.attempt, "", false, AttemptsExhausted))
    else
      var r := NewRecord(env, st, c);
      var next := t.(attempt := t.attempt + 1, history := t.history + [r]);
      var files := Applied(st.files, c.edits, c.unreadable, c.fault);
      match r.output
      case ApplyFailed => (State(next, files, st.passed), r)
      case Verifier(_) =>
        if r.passed then (State(next, files, st.passed + [c.edits]), r)
        else (State(next.(memory := Remember(t.memory, t.goal, r.fingerprint)),
                    Restore(files, Snap(st.files, c.edits, c.unreadable)), st.passed), r)
      case _ => (State(next, st.files, st.passed), r)
  }

  // ---------- one finish ----------

  /** The path at which a restore failed, and what a half-done write left there. */
  datatype Stuck = Stuck(path: Path, torn: Option<Content>)

  /** `after` is `before` with the paths of `done` restored and perhaps one write cut off; nothing else differs. */
  ghost predicate PartlyRestored(originals: Snapshot, before: Files, done: set<Path>, stuck: Option<Stuck>, after: Files) {
    && done <= originals.Keys
    && (stuck.Some? ==> stuck.value.path in originals && stuck.value.path !in done)
    && after == (if stuck.Some? then Tear(RestoreSome(before, originals, done), stuck.value.path, stuck.value.torn)
                 else RestoreSome(before, originals, done))
  }

  ghost function RestoreSome(fs: Files, originals: Snapshot, done: set<Path>): Files {
    map p | p in fs.Keys + originals.Keys && (if p in done && p in originals then originals[p].Some? else p in fs) ::
      if p in done && p in originals then originals[p].value else fs[p]
  }

  ghost predicate Finish(st: State, commit: bool, done: set<Path>, stuck: Option<Stuck>, st': State, ok: bool) {
    if st.task.finished then st' == st && ok
    else if commit then st' == st.(task := st.task.(finished := true)) && ok
    else
      && PartlyRestored(st.task.originals, st.files, done, stuck, st'.files)
      && st'.passed == st.passed
      && (ok <==> stuck.None?)
      && (ok ==> done == st.task.originals.Keys)
      && st'.task == (if ok then st.task.(finished := true) else st.task)
  }

  // ---------- start ----------

  /** Refused if a listed file exists but cannot be read, so that no later restore can lose it. */
  predicate Startable(files: Files, listed: seq<Path>, unreadable: set<Path>) {
    forall p | p in listed && p in files :: p !in unreadable
  }

  ghost function Started(goal: string, maxAttempts: nat, listed: seq<Path>, files: Files): State {
    State(Task(goal, AtLeastOne(maxAttempts), 0, map[], [], OriginalsOf(files, listed), false), files, [])
  }

  ghost function OriginalsOf(files: Files, listed: seq<Path>): Snapshot {
    map p | p in listed :: if p in files then Some(files[p]) else None
  }

  // ---------- the object ----------

  class AgentTask {
    const env: Env
    const disk: Disk
    const goal: string
    const maxAttempts: nat
    const memory: AttemptMemory
    var originals: Snapshot
    var attempt: nat
    var history: seq<Record>
    var finished: bool
    ghost var passed: seq<EditSet>

    ghost function View(): State
      reads this, disk, memory
    {
      State(Task(goal, maxAttempts, attempt, memory.rejected, history, originals, finished), disk.files, passed)
    }

    constructor New(env: Env, goal: string, maxAttempts: nat, disk: Disk, originals: Snapshot)
      ensures this.env == env && this.disk == disk && fresh(memory)
      ensures View() == State(Task(goal, AtLeastOne(maxAttempts), 0, map[], [], originals, false), disk.files, [])
    {
      this.env, this.goal, this.disk, this.originals := env, goal, disk, originals;
      this.maxAttempts := AtLeastOne(maxAttempts);
      memory := new AttemptMemory();
      attempt, history, finished, passed := 0, [], false, [];
    }

    static method Start(env: Env, goal: string, listed: seq<Path>, maxAttempts: nat, disk: Disk, unreadable: set<Path>) returns (task: AgentTask?)
      ensures task != null <==> Startable(disk.files, listed, unreadable)
      ensures task != null ==> fresh(task) && fresh(task.memory) && task.disk == disk && task.env == env
      ensures task != null ==> task.View() == Started(goal, maxAttempts, listed, disk.files)
    {
      var originals: Snapshot := map[];
      for i := 0 to |listed|
        invariant originals == OriginalsOf(disk.files, listed[..i])
        invariant Startable(disk.files, listed[..i], unreadable)
      {
        var f := listed[i];
        assert listed[..i + 1] == listed[..i] + [f];
        if f in disk.files {
          if f in unreadable { return null; }
          originals := originals[f := Some(disk.files[f])];
        } else {
          originals := originals[f := None];
        }
      }
      assert listed[..|listed|] == listed;
      task := new AgentTask.New(env, goal, maxAttempts, disk, originals);
    }

    method NoteAttempt(attempt: nat, fingerprint: Fingerprint, passed: bool, output: Output) returns (outcome: Outcome)
      modifies this`history
      ensures outcome == Record(attempt, fingerprint, passed, output)
      ensures history == old(history) + [outcome]
    {
      outcome := Record(attempt, fingerprint, passed, output);
      history := history + [outcome];
    }

    method ProposeEdits(c: Proposal) returns (outcome: Outcome)
      modifies this, disk, memory
      ensures (View(), outcome) == Propose(env, old(View()), c)
    {
      if finished {
        return Record(attempt, "", false, AlreadyFinished);
      }
      if attempt >= maxAttempts {
        return Record(attempt, "", false, AttemptsExhausted);
      }
      attempt := attempt + 1;
      assert Before(View()) == old(View());
      assert c.edits[0..] == c.edits && c.edits[|c.edits|..] == [];
      for i := 0 to |c.edits|
        invariant FirstForbidden(c.edits, originals.Keys) == FirstForbidden(c.edits[i..], originals.Keys)
        invariant View() == old(View()).(task := old(View()).task.(attempt := attempt)) && attempt == old(attempt) + 1
      {
        assert c.edits[i..][1..] == c.edits[i + 1..];
        if c.edits[i].path !in originals {
          outcome := NoteAttempt(attempt, "", false, NotAllowed(c.edits[i].path));
          return;
        }
      }
      if c.edits == [] {
        outcome := NoteAttempt(attempt, "", false, EmptyEditSet);
        return;
      }
      outcome := ProposeAllowed(c);
    }

    /** The state before the attempt was counted. */
    static ghost function Before(st: State): State {
      if st.task.attempt == 0 then st else st.(task := st.task.(attempt := st.task.attempt - 1))
    }

    /** A non-empty proposal within the allowlist: fingerprint, memory, transaction, verifier. */
    method ProposeAllowed(c: Proposal) returns (outcome: Outcome)
      requires c.edits != [] && FirstForbidden(c.edits, originals.Keys) == None
      requires 0 < attempt <= maxAttempts && !finished
      modifies this, disk, memory
      ensures (View(), outcome) == Propose(env, Before(old(View())), c)
    {
      var fp := ComputeFingerprint(env.digest, c.edits);
      var known := memory.WasRejected(goal, env.digest, c.edits);
      if known {
        outcome := NoteAttempt(attempt, fp, false, KnownRejected);
        return;
      }
      outcome := Try(c, fp);
    }

    /** A proposal that is not known: transaction and verifier. */
    method Try(c: Proposal, fp: Fingerprint) returns (outcome: Outcome)
      requires c.edits != [] && FirstForbidden(c.edits, originals.Keys) == None
      requires 0 < attempt <= maxAttempts && !finished
      requires fp == FingerprintOf(env.digest, c.edits) && fp !in RejectedFor(memory.rejected, goal)
      modifies this, disk, memory
      ensures (View(), outcome) == Propose(env, Before(old(View())), c)
    {
      ghost var before := Before(View());
      var tx := Transaction.Apply(disk, c.edits, c.unreadable, c.fault);
      if tx == null {
        assert NewRecord(env, before, c) == Record(attempt, fp, false, ApplyFailed);
        outcome := NoteAttempt(attempt, fp, false, ApplyFailed);
        return;
      }
      var (ok, text) := env.verify(disk.files);
      assert NewRecord(env, before, c) == Record(attempt, fp, ok, Verifier(text));
      if ok {
        tx.Commit();
        passed := passed + [c.edits];
      } else {
        tx.Rollback();
        memory.RecordRejected(goal, env.digest, c.edits);
      }
      outcome := NoteAttempt(attempt, fp, ok, Verifier(text));
    }

    /** `refused` are the paths the system will not restore now; `torn` what a half-done write leaves there. */
    method FinishTask(commit: bool, refused: set<Path>, torn: map<Path, Content>) returns (ok: bool, ghost done: set<Path>, ghost stuck: Option<Stuck>)
      modifies this`finished, disk
      ensures Finish(old(View()), commit, done, stuck, View(), ok)
    {
      done, stuck := {}, None;
      if finished { return true, done, stuck; }
      if !commit {
        ghost var fs := disk.files;
        var todo := originals.Keys;
        assert disk.files == RestoreSome(fs, originals, {});
        while todo != {}
          invariant todo <= originals.Keys && done == originals.Keys - todo && stuck == None
          invariant disk.files == RestoreSome(fs, originals, done)
          invariant View() == old(View()).(files := disk.files)
        {
          var path :| path in todo;
          var original := originals[path];
          var refuses := path in refused && (original.Some? || path in disk.files);
          if refuses {
            var left := if original.Some? && path in torn then Some(torn[path]) else None;
            stuck := Some(Stuck(path, left));
            if left.Some? { disk.files := disk.files[path := left.value]; }
            return false, done, stuck;
          }
          disk.files := if original.Some? then disk.files[path := original.value] else disk.files - {path};
          RestoreOneMore(fs, originals, done, path);
          todo := todo - {path};
          done := done + {path};
        }
      }
      finished := true;
      return true, done, stuck;
    }
  }

  lemma RestoreOneMore(fs: Files, originals: Snapshot, done: set<Path>, p: Path)
    requires p in originals
    ensures RestoreSome(fs, originals, done + {p}) ==
            if originals[p].Some? then RestoreSome(fs, originals, done)[p := originals[p].value]
            else RestoreSome(fs, originals, done) - {p}
  {
  }

  // ---------- runs ----------

  datatype Step =
    | ProposeOp(c: Proposal, outcome: Outcome)
    | FinishOp(commit: bool, done: set<Path>, stuck: Option<Stuck>, ok: bool)

  ghost predicate Next(env: Env, st: State, step: Step, st': State) {
    match step
    case ProposeOp(c, outcome) => (st', outcome) == Propose(env, st, c)
    case FinishOp(commit, done, stuck, ok) => Finish(st, commit, done, stuck, st', ok)
  }

  ghost predicate IsRun(env: Env, sts: seq<State>, steps: seq<Step>) {
    |sts| == |steps| + 1 && forall i :: 0 <= i < |steps| ==> Next(env, sts[i], steps[i], sts[i + 1])
  }

  /** Fingerprints of the attempts that passed, in order, as the history has them. */
  function PassedPrints(history: seq<Record>): seq<Fingerprint> {
    if history == [] then []
    else
      var last := history[|history| - 1];
      PassedPrints(history[..|history| - 1]) + (if last.passed then [last.fingerprint] else [])
  }

  ghost function PrintsOf(env: Env, passed: seq<EditSet>): seq<Fingerprint> {
    seq(|passed|, i requires 0 <= i < |passed| => FingerprintOf(env.digest, passed[i]))
  }

  /** The bookkeeping and the allowlist, in every state of every run started as `st0`. */
  ghost predicate Sound(env: Env, st0: State, st: State) {
    Bookkept(env, st0, st) && SameOutside(st0.task.originals.Keys, st0.files, st.files)
  }

  ghost predicate Bookkept(env: Env, st0: State, st: State) {
    && |st.task.history| == st.task.attempt <= st.task.maxAttempts
    && (forall i :: 0 <= i < st.task.attempt ==> st.task.history[i].attempt == i + 1)
    && st.task.originals == st0.task.originals && st.task.maxAttempts == st0.task.maxAttempts
    && PassedPrints(st.task.history) == PrintsOf(env, st.passed)
  }

  ghost predicate SameOutside(allowed: set<Path>, a: Files, b: Files) {
    forall p :: p !in allowed ==> (p in a <==> p in b) && (p in a ==> a[p] == b[p])
  }

  lemma {:induction false} AllowedPaths(edits: EditSet, allowed: set<Path>)
    ensures FirstForbidden(edits, allowed).None? <==> Paths(edits) <= allowed
  {
    if edits != [] {
      AllowedPaths(edits[1..], allowed);
      assert edits == [edits[0]] + edits[1..];
      assert Paths(edits) == {edits[0].path} + Paths(edits[1..]);
    }
  }

  /** Whatever happens to an apply, it touches the targeted files only. */
  lemma AppliedStaysInside(fs: Files, edits: EditSet, unreadable: set<Path>, fault: Fault, allowed: set<Path>)
    requires Paths(edits) <= allowed
    ensures SameOutside(allowed, fs, Applied(fs, edits, unreadable, fault))
    ensures SameOutside(allowed, fs, Restore(Applied(fs, edits, unreadable, fault), Snap(fs, edits, unreadable)))
  {
    EffectiveKeys(edits);
    if !Succeeds(edits, fault) {
      EffectiveKeys(edits[..fault.at]);
      PathsExtend(edits, fault.at);
      assert forall e :: e in edits[..fault.at + 1] ==> e in edits;
    }
  }

  lemma ProposeSound(env: Env, st0: State, st: State, c: Proposal)
    requires Sound(env, st0, st)
    ensures Sound(env, st0, Propose(env, st, c).0)
  {
    ProposeBookkept(env, st0, st, c);
    ProposeInside(env, st, c);
  }

  lemma ProposeBookkept(env: Env, st0: State, st: State, c: Proposal)
    requires Bookkept(env, st0, st)
    ensures Bookkept(env, st0, Propose(env, st, c).0)
  {
    if Open(st.task) {
      var (st', r) := Propose(env, st, c);
      RecordBookkept(env, st0, st, st', r, c.edits);
    }
  }

  lemma RecordBookkept(env: Env, st0: State, st: State, st': State, r: Record, edits: EditSet)
    requires Bookkept(env, st0, st) && Open(st.task)
    requires st'.task.attempt == st.task.attempt + 1 == r.attempt && st'.task.maxAttempts == st.task.maxAttempts
    requires st'.task.history == st.task.history + [r] && st'.task.originals == st.task.originals
    requires if r.passed then st'.passed == st.passed + [edits] && r.fingerprint == FingerprintOf(env.digest, edits)
             else st'.passed == st.passed
    ensures Bookkept(env, st0, st')
  {
    assert st'.task.history[..|st.task.history|] == st.task.history;
    assert PrintsOf(env, st.passed + [edits]) == PrintsOf(env, st.passed) + [FingerprintOf(env.digest, edits)];
  }

  lemma ProposeInside(env: Env, st: State, c: Proposal)
    ensures SameOutside(st.task.originals.Keys, st.files, Propose(env, st, c).0.files)
  {
    if Open(st.task) {
      AllowedPaths(c.edits, st.task.originals.Keys);
      if Propose(env, st, c).1.output.ApplyFailed? || Propose(env, st, c).1.output.Verifier? {
        AppliedStaysInside(st.files, c.edits, c.unreadable, c.fault, st.task.originals.Keys);
      }
    }
  }

  lemma {:induction false} RunSound(env: Env, sts: seq<State>, steps: seq<Step>, n: nat)
    requires IsRun(env, sts, steps) && n <= |steps| && Sound(env, sts[0], sts[0])
    ensures Sound(env, sts[0], sts[n])
  {
    if n > 0 {
      RunSound(env, sts, steps, n - 1);
      assert Next(env, sts[n - 1], steps[n - 1], sts[n]);
      if steps[n - 1].ProposeOp? {
        ProposeSound(env, sts[0], sts[n - 1], steps[n - 1].c);
      }
    }
  }

  /**
   * In every state of every run of a started task: one record per attempt, numbered from one,
   * never more than allowed; the history lists exactly the edit-sets that passed; and no file
   * outside the allowlist has changed.
   */
  lemma TaskIsSound(env: Env, goal: string, max: nat, listed: seq<Path>, files: Files, sts: seq<State>, steps: seq<Step>, n: nat)
    requires IsRun(env, sts, steps) && n <= |steps| && sts[0] == Started(goal, max, listed, files)
    ensures Sound(env, Started(goal, max, listed, files), sts[n])
  {
    RunSound(env, sts, steps, n);
  }

  // ---------- no rejected edit-set is applied again ----------

  predicate RejectedByVerifier(r: Record) { r.output.Verifier? && !r.passed }

  predicate ReachedApply(r: Record) { r.output.Verifier? || r.output.ApplyFailed? }

  /** The memory holds every verifier rejection of the history, and nothing rejected was applied later. */
  ghost predicate Remembers(t: Task) {
    && (forall i :: 0 <= i < |t.history| && RejectedByVerifier(t.history[i]) ==>
          t.history[i].fingerprint in RejectedFor(t.memory, t.goal))
    && forall i, j :: 0 <= i < j < |t.history| && RejectedByVerifier(t.history[i]) && ReachedApply(t.history[j]) ==>
         t.history[i].fingerprint != t.history[j].fingerprint
  }

  lemma ProposeRemembers(env: Env, st: State, c: Proposal)
    requires Remembers(st.task)
    ensures Remembers(Propose(env, st, c).0.task)
  {
    if Open(st.task) { RecordRemembered(st.task, Propose(env, st, c).0.task, Propose(env, st, c).1); }
  }

  lemma RecordRemembered(t: Task, t': Task, r: Record)
    requires Remembers(t) && t'.history == t.history + [r] && t'.goal == t.goal
    requires forall f | f in RejectedFor(t.memory, t.goal) :: f in RejectedFor(t'.memory, t.goal)
    requires RejectedByVerifier(r) ==> r.fingerprint in RejectedFor(t'.memory, t.goal)
    requires ReachedApply(r) ==> r.fingerprint !in RejectedFor(t.memory, t.goal)
    ensures Remembers(t')
  {
    assert forall i :: 0 <= i < |t.history| ==> t'.history[i] == t.history[i];
  }

  /** In every run, an edit-set that the verifier has rejected never reaches the files again. */
  lemma {:induction false} RejectedNeverReapplied(env: Env, sts: seq<State>, steps: seq<Step>, n: nat)
    requires IsRun(env, sts, steps) && n <= |steps| && sts[0].task.history == []
    ensures Remembers(sts[n].task)
  {
    if n > 0 {
      RejectedNeverReapplied(env, sts, steps, n - 1);
      assert Next(env, sts[n - 1], steps[n - 1], sts[n]);
      if steps[n - 1].ProposeOp? {
        ProposeRemembers(env, sts[n - 1], steps[n - 1].c);
      }
    }
  }

  // ---------- what each proposal comes to ----------

  /** Fingerprints of the proposals before step `n` that the verifier refused. */
  ghost function Refused(env: Env, steps: seq<Step>, n: nat): set<Fingerprint>
    requires n <= |steps|
  {
    if n == 0 then {} else Refused(env, steps, n - 1) + RefusedBy(env, steps[n - 1])
  }

  ghost function RefusedBy(env: Env, step: Step): set<Fingerprint> {
    if step.ProposeOp? && RejectedByVerifier(step.outcome) then {FingerprintOf(env.digest, step.c.edits)} else {}
  }

  /** The first edit outside the allowlist is at `k`. */
  predicate ForbiddenAt(edits: EditSet, allowed: set<Path>, k: nat) {
    k < |edits| && edits[k].path !in allowed && forall j | 0 <= j < k :: edits[j].path in allowed
  }

  /** What a proposal to an open task must come to, given the files and the edit-sets the verifier has refused so far. */
  ghost predicate Judged(env: Env, allowed: set<Path>, refused: set<Fingerprint>, n: nat, before: Files, c: Proposal, r: Outcome, after: Files) {
    var fp := FingerprintOf(env.digest, c.edits);
    if !(Paths(c.edits) <= allowed) then IsForbidden(c.edits, allowed, n, r) && after == before
    else if c.edits == [] then r == Record(n, "", false, EmptyEditSet) && after == before
    else if fp in refused then r == Record(n, fp, false, KnownRejected) && after == before
    else if !c.fault.NoFault? && c.fault.at < |c.edits| then
      (r == Record(n, fp, false, ApplyFailed) && (after == before <==> Undoable(before, c.edits, c.unreadable, c.fault)))
    else IsVerdict(env, n, before, c, r, after)
  }

  ghost predicate IsForbidden(edits: EditSet, allowed: set<Path>, n: nat, r: Outcome) {
    exists k: nat | ForbiddenAt(edits, allowed, k) :: r == Record(n, "", false, NotAllowed(edits[k].path))
  }

  /** The verifier's answer on the files overlaid by the edits: kept if it passes, taken back if every target can be. */
  ghost predicate IsVerdict(env: Env, n: nat, before: Files, c: Proposal, r: Outcome, after: Files) {
    var overlay := before + Effective(c.edits);
    && r == Record(n, FingerprintOf(env.digest, c.edits), env.verify(overlay).0, Verifier(env.verify(overlay).1))
    && (r.passed ==> after == overlay)
    && (!r.passed ==> (after == before <==> forall p | p in Paths(c.edits) && p in before :: p !in c.unreadable))
  }

  lemma {:induction false} FirstForbiddenAt(edits: EditSet, allowed: set<Path>) returns (k: nat)
    requires FirstForbidden(edits, allowed).Some?
    ensures ForbiddenAt(edits, allowed, k) && FirstForbidden(edits, allowed) == Some(edits[k].path)
  {
    k := 0;
    if edits[0].path in allowed {
      var j := FirstForbiddenAt(edits[1..], allowed);
      k := j + 1;
    }
  }

  lemma ProposeJudged(env: Env, st: State, c: Proposal, refused: set<Fingerprint>)
    requires Open(st.task) && forall f :: f in RejectedFor(st.task.memory, st.task.goal) <==> f in refused
    ensures var (st', r) := Propose(env, st, c);
      Judged(env, st.task.originals.Keys, refused, st.task.attempt + 1, st.files, c, r, st'.files)
  {
    var allowed := st.task.originals.Keys;
    AllowedPaths(c.edits, allowed);
    if !(Paths(c.edits) <= allowed) {
      var k := FirstForbiddenAt(c.edits, allowed);
    } else if c.edits != [] && FingerprintOf(env.digest, c.edits) !in refused {
      if Succeeds(c.edits, c.fault) { ProposeVerdict(env, st, c); } else { FailedApplyIsUndone(st.files, c.edits, c.unreadable, c.fault); }
    }
  }

  lemma ProposeVerdict(env: Env, st: State, c: Proposal)
    requires Open(st.task) && FirstForbidden(c.edits, st.task.originals.Keys).None? && c.edits != []
    requires FingerprintOf(env.digest, c.edits) !in RejectedFor(st.task.memory, st.task.goal) && Succeeds(c.edits, c.fault)
    ensures IsVerdict(env, st.task.attempt + 1, st.files, c, Propose(env, st, c).1, Propose(env, st, c).0.files)
  {
    RejectedIsUndone(st.files, c.edits, c.unreadable);
  }

  lemma {:induction false} MemoryIsRefused(env: Env, sts: seq<State>, steps: seq<Step>, n: nat)
    requires IsRun(env, sts, steps) && n <= |steps| && sts[0].task.memory == map[]
    ensures sts[n].task.goal == sts[0].task.goal
    ensures forall f :: f in RejectedFor(sts[n].task.memory, sts[n].task.goal) <==> f in Refused(env, steps, n)
  {
    if n > 0 {
      MemoryIsRefused(env, sts, steps, n - 1);
      assert Next(env, sts[n - 1], steps[n - 1], sts[n]);
    }
  }

  /**
   * The verdict is the verifier's. In every run each proposal to an open task is refused exactly for
   * the first of these reasons: a path outside the allowlist, no edits, an edit-set the verifier has
   * refused before, a fault while applying. Otherwise it has passed exactly if the verifier says so
   * of the files overlaid by it, with the verifier's text, and then the files are that overlay.
   */
  lemma VerdictIsTheVerifiers(env: Env, goal: string, max: nat, listed: seq<Path>, files: Files, sts: seq<State>, steps: seq<Step>, i: nat)
    requires IsRun(env, sts, steps) && i < |steps| && sts[0] == Started(goal, max, listed, files) && steps[i].ProposeOp?
    ensures var st := sts[i].task;
      if st.finished then steps[i].outcome == Record(st.attempt, "", false, AlreadyFinished) && sts[i + 1] == sts[i]
      else if |st.history| >= (if max == 0 then 1 else max) then steps[i].outcome == Record(st.attempt, "", false, AttemptsExhausted) && sts[i + 1] == sts[i]
      else
        && Judged(env, (set p | p in listed), Refused(env, steps, i), |st.history| + 1, sts[i].files, steps[i].c, steps[i].outcome, sts[i + 1].files)
        && sts[i + 1].task.history == st.history + [steps[i].outcome] && !sts[i + 1].task.finished
  {
    TaskIsSound(env, goal, max, listed, files, sts, steps, i);
    MemoryIsRefused(env, sts, steps, i);
    assert Next(env, sts[i], steps[i], sts[i + 1]);
    assert sts[i].task.originals.Keys == set p | p in listed;
    if Open(sts[i].task) { ProposeJudged(env, sts[i], steps[i].c, Refused(env, steps, i)); }
  }

  // ---------- the files are the passed attempts ----------

  ghost function Concat(sets: seq<EditSet>): EditSet {
    if sets == [] then [] else Concat(sets[..|sets| - 1]) + sets[|sets| - 1]
  }

  ghost predicate Clear(st: State, step: Step) {
    match step
    case ProposeOp(c, _) => Undoable(st.files, c.edits, c.unreadable, c.fault)
    case FinishOp(commit, _, _, _) => commit
  }

  lemma ProposeOverlays(env: Env, files: Files, st: State, c: Proposal)
    requires st.files == files + Effective(Concat(st.passed)) && Undoable(st.files, c.edits, c.unreadable, c.fault)
    ensures var st' := Propose(env, st, c).0; st'.files == files + Effective(Concat(st'.passed))
  {
    var (st', r) := Propose(env, st, c);
    if Open(st.task) && r.output.Verifier? {
      if r.passed {
        assert (st.passed + [c.edits])[..|st.passed|] == st.passed;
        EffectiveAppend(Concat(st.passed), c.edits);
        OverlayTwice(files, Effective(Concat(st.passed)), Effective(c.edits));
      } else {
        RejectedIsUndone(st.files, c.edits, c.unreadable);
      }
    } else if Open(st.task) && r.output.ApplyFailed? {
      FailedApplyIsUndone(st.files, c.edits, c.unreadable, c.fault);
    }
  }

  lemma OverlayTwice(a: Files, b: Files, c: Files)
    ensures (a + b) + c == a + (b + c)
  {
  }

  /** While every rejected attempt can be undone and nothing is abandoned, the files are the start files overlaid by the passed attempts in order. */
  lemma {:induction false} FilesAreThePassedAttempts(env: Env, sts: seq<State>, steps: seq<Step>, n: nat)
    requires IsRun(env, sts, steps) && n <= |steps| && sts[0].passed == []
    requires forall i :: 0 <= i < n ==> Clear(sts[i], steps[i])
    ensures sts[n].files == sts[0].files + Effective(Concat(sts[n].passed))
  {
    if n > 0 {
      FilesAreThePassedAttempts(env, sts, steps, n - 1);
      assert Next(env, sts[n - 1], steps[n - 1], sts[n]);
      assert Clear(sts[n - 1], steps[n - 1]);
      if steps[n - 1].ProposeOp? {
        ProposeOverlays(env, sts[0].files, sts[n - 1], steps[n - 1].c);
      }
    }
  }

  // ---------- abandoning ----------

  /**
   * A `finish(false)` that succeeds on an unfinished task gives back the start files exactly:
   * in any order of the paths, after any proposals (undoable or not) and any number of
   * finishes that failed part-way.
   */
  lemma AbandonRestoresStart(env: Env, goal: string, max: nat, listed: seq<Path>, files: Files, sts: seq<State>, steps: seq<Step>, n: nat)
    requires IsRun(env, sts, steps) && n < |steps| && sts[0] == Started(goal, max, listed, files)
    requires steps[n].FinishOp? && !steps[n].commit && steps[n].ok && !sts[n].task.finished
    ensures sts[n + 1].files == files && sts[n + 1].task.finished
  {
    RunSound(env, sts, steps, n);
    assert Next(env, sts[n], steps[n], sts[n + 1]);
    var originals := OriginalsOf(files, listed);
    assert sts[n + 1].files == RestoreSome(sts[n].files, originals, originals.Keys);
  }

  /** Once finished, nothing changes any more. */
  lemma FinishedIsFinal(env: Env, st: State, step: Step, st': State)
    requires st.task.finished && Next(env, st, step, st')
    ensures st' == st
  {
  }
}
