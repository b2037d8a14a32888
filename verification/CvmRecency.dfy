/**
 * What is shed is what was used least recently. Recency is read off the steps of a run here, not
 * off the stamps the store keeps: a file by its last successful write, a session by its last call.
 */
module CvmRecency {
  import opened Common
  import opened CvmModel
  import opened CvmRuns
  import opened CvmHistory

  /** A second on the wall clock and the state of the run that it led to. */
  datatype Moment = Moment(secs: nat, at: nat)

  /** Earlier by the wall clock; within a second, earlier in the run. */
  predicate NoLater(a: Moment, b: Moment) {
    a.secs < b.secs || (a.secs == b.secs && a.at <= b.at)
  }

  /** A put that added a page to its session's file. */
  ghost predicate Wrote(env: Env, step: Step) {
    && step.PutOp? && step.c.fate == Written
    && step.c.s in step.loaded.sessions && !HasPage(step.loaded.sessions[step.c.s].rows, env.hash(step.c.text))
  }

  /**
   * When the file was last written, as far as the store can know: by its last successful put, or, since
   * the store was opened, by its modification time. Nothing if it is not there, was not listed, or the
   * system refused to delete it.
   */
  ghost function LastWrite(env: Env, sts: seq<Store>, steps: seq<Step>, n: nat, t: Stem): Option<Moment>
    requires n <= |steps| && |sts| == |steps| + 1
  {
    if n == 0 then WriteAfter(env, ReopenOp, sts[0].files, 0, t, None)
    else WriteAfter(env, steps[n - 1], sts[n].files, n, t, LastWrite(env, sts, steps, n - 1, t))
  }

  /** The same for a step that leads to the `n`th state and these files. */
  ghost function WriteAfter(env: Env, step: Step, files: map<Stem, File>, n: nat, t: Stem, before: Option<Moment>): Option<Moment> {
    if t !in files then None
    else match step
      case ReopenOp => if Listed(t) then Some(Moment(files[t].mtime, n)) else None
      case PutOp(c, _, _, _) => if Wrote(env, step) && StemOf(c.s) == t then Some(Moment(c.secs, n)) else before
      case DeleteOp(s, _) => if StemOf(s) == t then None else before
      case GetOp(_, _, _) => before
  }

  /** The state in which the store was last opened. */
  function OpenedAt(steps: seq<Step>, n: nat): (m: nat)
    requires n <= |steps|
    ensures m <= n
  {
    if n == 0 || steps[n - 1].ReopenOp? then n else OpenedAt(steps, n - 1)
  }

  // ---------- one step ----------

  /** The stamp of `t` after a step that does not write it: what it was, unless the file is gone. */
  ghost predicate StampKept(st: Store, st': Store, t: Stem) {
    && (t in st'.diskTouch <==> t in st.diskTouch && t in st'.files)
    && (t in st'.diskTouch ==> st'.diskTouch[t] == st.diskTouch[t])
  }

  ghost predicate StampSet(st': Store, t: Stem, secs: nat) {
    t in st'.files && t in st'.diskTouch && st'.diskTouch[t] == Stamp(secs, st'.clock)
  }

  /** Only files are stamped. */
  ghost predicate OnFiles(st: Store) {
    st.diskTouch.Keys <= st.files.Keys && st.diskTouch.Keys == st.diskBytes.Keys
  }

  lemma WriteStamps(env: Env, st: Store, c: PutCall, t: Stem)
    requires c.s in st.sessions && OnFiles(st)
    ensures var w := WriteOut(env, st, c);
      && OnFiles(w) && w.files.Keys >= st.files.Keys
      && (if c.fate == Written then w.clock > st.clock else w.clock == st.clock)
      && if c.fate == Written && t == StemOf(c.s) then StampSet(w, t, c.secs) else StampKept(st, w, t)
  {
    var all := Grown(env, st, c);
    var n := EvictCount(all);
    var rows, evicted := all[n..], all[..n];
    var files := WriteFile(env, st.files, c, rows, evicted);
    assert files.Keys >= st.files.Keys && (c.fate == Written ==> StemOf(c.s) in files);
    assert WriteOut(env, st, c) == Booked(st, c, rows, evicted, files);
  }

  lemma ShedStamps(env: Env, a: Store, keep: SessionId, denied: set<Stem>, b: Store, t: Stem)
    requires OnFiles(a) && DiskShed(env, a, keep, denied, b)
    ensures OnFiles(b) && b.clock == a.clock && StampKept(a, b, t)
    ensures t == StemOf(keep) && t in a.diskTouch ==> t in b.diskTouch && t in b.files
  {
    assert t in a.diskTouch ==> t in a.files && t in a.diskBytes;
    assert b.diskTouch.Keys <= b.files.Keys;
    assert b.diskTouch.Keys == b.diskBytes.Keys by {
      assert forall u :: u in a.diskTouch <==> u in a.diskBytes;
      assert forall u :: u in b.diskTouch <==> u in b.diskBytes;
    }
  }

  ghost predicate SameDisk(a: Store, b: Store) {
    a.files == b.files && a.diskTouch == b.diskTouch && a.diskBytes == b.diskBytes
  }

  lemma WrittenStamps(env: Env, loaded: Store, c: PutCall, trimmed: Store, st': Store, t: Stem)
    requires OnFiles(loaded) && c.s in loaded.sessions && c.fate == Written
    requires IndexShed(WriteOut(env, loaded, c), c.s, env.maxIndex, trimmed) && DiskShed(env, trimmed, c.s, c.denied, st')
    ensures OnFiles(st') && st'.clock > loaded.clock
    ensures if t == StemOf(c.s) then StampSet(st', t, c.secs) else StampKept(loaded, st', t)
  {
    WriteStamps(env, loaded, c, t);
    var w := WriteOut(env, loaded, c);
    assert SameDisk(w, trimmed) && trimmed.clock == w.clock;
    ShedStamps(env, trimmed, c.s, c.denied, st', t);
  }

  lemma PutStamps(env: Env, st: Store, c: PutCall, loaded: Store, trimmed: Store, st': Store, r: PutResult, t: Stem)
    requires OnFiles(st) && PutStep(env, st, c, loaded, trimmed, st', r)
    ensures var wrote := Wrote(env, PutOp(c, loaded, trimmed, r));
      && OnFiles(st') && st'.clock > st.clock
      && if wrote && t == StemOf(c.s) then StampSet(st', t, c.secs) else StampKept(st, st', t)
  {
    assert SameDisk(st, loaded) && loaded.clock == st.clock + 1;
    if !HasPage(loaded.sessions[c.s].rows, env.hash(c.text)) {
      if c.fate == Written { WrittenStamps(env, loaded, c, trimmed, st', t); } else { WriteStamps(env, loaded, c, t); }
    }
  }

  /** What one step does to the stamp of a file. */
  ghost predicate StampStep(env: Env, st: Store, step: Step, st': Store, t: Stem) {
    match step
    case ReopenOp =>
      && (t in st'.diskTouch <==> t in st'.files && Listed(t))
      && (t in st'.diskTouch ==> st'.diskTouch[t] == Stamp(st'.files[t].mtime, st'.clock))
    case DeleteOp(s, _) => if t == StemOf(s) then t !in st'.diskTouch else StampKept(st, st', t)
    case PutOp(c, _, _, _) => if Wrote(env, step) && t == StemOf(c.s) then StampSet(st', t, c.secs) else StampKept(st, st', t)
    case GetOp(_, _, _) => StampKept(st, st', t)
  }

  /** Until the store is opened again its clock does not go back, and every write moves it on. */
  ghost predicate ClockStep(env: Env, st: Store, step: Step, st': Store) {
    step.ReopenOp? || (st.clock <= st'.clock && (Wrote(env, step) ==> st.clock < st'.clock))
  }

  lemma StepStamps(env: Env, st: Store, step: Step, st': Store, t: Stem)
    requires OnFiles(st) && Next(env, st, step, st')
    ensures OnFiles(st') && StampStep(env, st, step, st', t) && ClockStep(env, st, step, st')
  {
    match step {
      case PutOp(c, loaded, trimmed, r) => PutStamps(env, st, c, loaded, trimmed, st', r, t);
      case GetOp(s, id, text) =>
      case DeleteOp(s, refused) =>
      case ReopenOp =>
    }
  }

  ghost predicate LoggedAt(env: Env, sts: seq<Store>, steps: seq<Step>, i: int, t: Stem)
    requires |sts| == |steps| + 1
  {
    0 <= i < |steps| ==>
      StampStep(env, sts[i], steps[i], sts[i + 1], t) && ClockStep(env, sts[i], steps[i], sts[i + 1])
  }

  /** What a run from a freshly opened store does to stamps and clock. */
  ghost predicate Logged(env: Env, sts: seq<Store>, steps: seq<Step>) {
    && |sts| == |steps| + 1
    && (forall t :: StampStep(env, sts[0], ReopenOp, sts[0], t))
    && (forall i, t :: LoggedAt(env, sts, steps, i, t))
  }

  // ---------- the stamps record the writes ----------

  lemma {:induction false} RunOnFiles(env: Env, sts: seq<Store>, steps: seq<Step>, n: nat)
    requires IsRun(env, sts, steps) && n <= |steps| && sts[0] == Opened(env, sts[0].files)
    ensures OnFiles(sts[n])
  {
    if n > 0 {
      RunOnFiles(env, sts, steps, n - 1);
      StepStamps(env, sts[n - 1], steps[n - 1], sts[n], "");
    }
  }

  lemma RunIsLogged(env: Env, sts: seq<Store>, steps: seq<Step>)
    requires IsRun(env, sts, steps) && sts[0] == Opened(env, sts[0].files)
    ensures Logged(env, sts, steps)
  {
    forall i, t
      ensures LoggedAt(env, sts, steps, i, t)
    {
      if 0 <= i < |steps| {
        RunOnFiles(env, sts, steps, i);
        StepStamps(env, sts[i], steps[i], sts[i + 1], t);
      }
    }
  }

  /** The stamp of a file is the moment of its last write, by the wall clock and by the store's own. */
  ghost predicate Recorded(st: Store, t: Stem, last: Option<Moment>, clock: nat) {
    match last
    case None => t !in st.diskTouch
    case Some(m) => t in st.diskTouch && st.diskTouch[t] == Stamp(m.secs, clock)
  }

  lemma StepRecords(env: Env, st: Store, step: Step, st': Store, n: nat, t: Stem, before: Option<Moment>, clock: nat)
    requires StampStep(env, st, step, st', t) && (step.ReopenOp? || Recorded(st, t, before, clock))
    ensures var last := WriteAfter(env, step, st'.files, n, t, before);
      && (|| (last == before && !step.ReopenOp? && Recorded(st', t, last, clock))
          || (Recorded(st', t, last, st'.clock) && (last.Some? ==> last.value.at == n && (step.ReopenOp? || Wrote(env, step)))))
  {
  }

  /** The stamps of a state come from writes since the store was opened. */
  ghost predicate Records(env: Env, sts: seq<Store>, steps: seq<Step>, n: nat, t: Stem, last: Option<Moment>)
    requires n <= |steps| && |sts| == |steps| + 1
  {
    && (last.Some? ==> OpenedAt(steps, n) <= last.value.at <= n)
    && (last.Some? && last.value.at > OpenedAt(steps, n) ==> Wrote(env, steps[last.value.at - 1]))
    && Recorded(sts[n], t, last, if last.Some? then sts[last.value.at].clock else 0)
  }

  lemma {:induction false} StampsRecordWrites(env: Env, sts: seq<Store>, steps: seq<Step>, n: nat, t: Stem)
    requires Logged(env, sts, steps) && n <= |steps|
    ensures Records(env, sts, steps, n, t, LastWrite(env, sts, steps, n, t))
  {
    if n == 0 {
      StepRecords(env, sts[0], ReopenOp, sts[0], 0, t, None, 0);
    } else {
      StampsRecordWrites(env, sts, steps, n - 1, t);
      var before := LastWrite(env, sts, steps, n - 1, t);
      assert LoggedAt(env, sts, steps, n - 1, t);
      StepRecords(env, sts[n - 1], steps[n - 1], sts[n], n, t, before, if before.Some? then sts[before.value.at].clock else 0);
    }
  }

  lemma {:induction false} ClockGoesOn(env: Env, sts: seq<Store>, steps: seq<Step>, a: nat, b: nat, n: nat)
    requires Logged(env, sts, steps) && n <= |steps| && OpenedAt(steps, n) <= a <= b <= n
    ensures sts[a].clock <= sts[b].clock
    ensures a < b && Wrote(env, steps[b - 1]) ==> sts[a].clock < sts[b].clock
    decreases n
  {
    if b < n {
      ClockGoesOn(env, sts, steps, a, b, n - 1);
    } else if a < b {
      ClockGoesOn(env, sts, steps, a, b - 1, n - 1);
      assert LoggedAt(env, sts, steps, b - 1, "");
    }
  }

  lemma OlderStampOlderWrite(env: Env, sts: seq<Store>, steps: seq<Step>, n: nat, v: Stem, u: Stem)
    requires Logged(env, sts, steps) && n <= |steps|
    requires v in sts[n].diskTouch && u in sts[n].diskTouch && Le(sts[n].diskTouch[v], sts[n].diskTouch[u])
    ensures LastWrite(env, sts, steps, n, v).Some? && LastWrite(env, sts, steps, n, u).Some?
    ensures NoLater(LastWrite(env, sts, steps, n, v).value, LastWrite(env, sts, steps, n, u).value)
  {
    StampsRecordWrites(env, sts, steps, n, v);
    StampsRecordWrites(env, sts, steps, n, u);
    Ordered(env, sts, steps, n, v, u, LastWrite(env, sts, steps, n, v), LastWrite(env, sts, steps, n, u));
  }

  lemma Ordered(env: Env, sts: seq<Store>, steps: seq<Step>, n: nat, v: Stem, u: Stem, mv: Option<Moment>, mu: Option<Moment>)
    requires Logged(env, sts, steps) && n <= |steps|
    requires Records(env, sts, steps, n, v, mv) && Records(env, sts, steps, n, u, mu)
    requires v in sts[n].diskTouch && u in sts[n].diskTouch && Le(sts[n].diskTouch[v], sts[n].diskTouch[u])
    ensures mv.Some? && mu.Some? && NoLater(mv.value, mu.value)
  {
    if mu.value.at < mv.value.at { ClockGoesOn(env, sts, steps, mu.value.at, mv.value.at, n); }
  }

  // ---------- across a restart ----------

  lemma WriteSetsTime(env: Env, st: Store, c: PutCall)
    requires c.s in st.sessions && c.fate == Written
    ensures var files := WriteOut(env, st, c).files; StemOf(c.s) in files && files[StemOf(c.s)].mtime == c.secs
  {
    var all := Grown(env, st, c);
    var n := EvictCount(all);
    assert WriteOut(env, st, c).files == WriteFile(env, st.files, c, all[n..], all[..n]);
  }

  lemma PutSetsTime(env: Env, st: Store, step: Step, st': Store)
    requires Next(env, st, step, st') && Wrote(env, step)
    ensures var t := StemOf(step.c.s); t in st'.files && st'.files[t].mtime == step.c.secs
  {
    WriteSetsTime(env, step.loaded, step.c);
    assert !Gone(step.trimmed, st', StemOf(step.c.s));
  }

  /** A restart right after a write remembers when the file was written. */
  lemma ReopenRemembers(env: Env, sts: seq<Store>, steps: seq<Step>, i: nat)
    requires IsRun(env, sts, steps) && i + 1 < |steps|
    requires Wrote(env, steps[i]) && steps[i + 1].ReopenOp? && StemOf(steps[i].c.s) != ""
    ensures LastWrite(env, sts, steps, i + 2, StemOf(steps[i].c.s)) == Some(Moment(steps[i].c.secs, i + 2))
  {
    PutSetsTime(env, sts[i], steps[i], sts[i + 1]);
    assert Next(env, sts[i + 1], steps[i + 1], sts[i + 2]);
  }

  // ---------- the files a put deletes ----------

  ghost predicate Deletes(st: Store, st': Store, t: Stem) {
    t in st.files && t !in st'.files
  }

  /** Whatever `b` has lost was stamped no later than what it has, `keep` aside. */
  ghost predicate OldestDeleted(a: Store, keep: Stem, b: Store, v: Stem, u: Stem) {
    Deletes(a, b, v) && u in b.diskTouch && u != keep ==>
      v in a.diskTouch && u in a.diskTouch && Le(a.diskTouch[v], a.diskTouch[u])
  }

  /** `w` was deleted last, and without that the counted sizes would still have been over the limit. */
  ghost predicate LastDeleted(a: Store, keep: Stem, b: Store, limit: nat, w: Stem) {
    && Deletes(a, b, w) && w in a.diskTouch && w in a.diskBytes && w != keep
    && Total(b.diskBytes, Same) + a.diskBytes[w] > limit
    && forall x :: DeletedBefore(a, b, x, w)
  }

  ghost predicate DeletedBefore(a: Store, b: Store, x: Stem, w: Stem)
    requires w in a.diskTouch
  {
    Deletes(a, b, x) ==> x in a.diskTouch && Le(a.diskTouch[x], a.diskTouch[w])
  }

  lemma ShedDeletes(env: Env, a: Store, keep: SessionId, denied: set<Stem>, b: Store, v: Stem, u: Stem)
    requires OnFiles(a) && DiskShed(env, a, keep, denied, b) && Deletes(a, b, v)
    ensures v != StemOf(keep) && v in a.diskTouch && OldestDeleted(a, StemOf(keep), b, v, u)
    ensures exists w :: LastDeleted(a, StemOf(keep), b, env.maxTotal, w)
  {
    assert Gone(a, b, v);
    var w :| LastDiskVictim(env, a, b, w);
    assert w in a.diskTouch && w in a.files;
    forall x
      ensures DeletedBefore(a, b, x, w)
    {
      if Deletes(a, b, x) { assert Gone(a, b, x); }
    }
    assert LastDeleted(a, StemOf(keep), b, env.maxTotal, w);
  }

  /** The same files, counted sizes and stamps, the writer's aside. */
  ghost predicate SameOthers(a: Store, keep: Stem, b: Store) {
    && (forall t :: t != keep ==> (t in a.files <==> t in b.files))
    && (forall t :: t != keep ==> (t in a.diskBytes <==> t in b.diskBytes) && (t in a.diskTouch <==> t in b.diskTouch))
    && (forall t :: t != keep && t in a.diskBytes ==> a.diskBytes[t] == b.diskBytes[t])
    && (forall t :: t != keep && t in a.diskTouch ==> a.diskTouch[t] == b.diskTouch[t])
    && (keep in a.files ==> keep in b.files)
  }

  lemma BeforeTheWrite(a: Store, keep: Stem, b: Store, b': Store, limit: nat, v: Stem, u: Stem, w: Stem)
    requires SameOthers(a, keep, b) && (keep in b.files ==> keep in b'.files)
    requires v != keep && OldestDeleted(b, keep, b', v, u) && LastDeleted(b, keep, b', limit, w)
    ensures OldestDeleted(a, keep, b', v, u) && LastDeleted(a, keep, b', limit, w)
  {
    forall x
      ensures DeletedBefore(a, b', x, w)
    {
      assert DeletedBefore(b, b', x, w);
    }
  }

  lemma WriteKeepsOthers(env: Env, st: Store, c: PutCall)
    requires c.s in st.sessions
    ensures SameOthers(st, StemOf(c.s), WriteOut(env, st, c)) && WriteOut(env, st, c).files.Keys >= st.files.Keys
  {
    var all := Grown(env, st, c);
    var n := EvictCount(all);
    var files := WriteFile(env, st.files, c, all[n..], all[..n]);
    assert forall t | t != StemOf(c.s) :: t in files <==> t in st.files;
    assert WriteOut(env, st, c) == Booked(st, c, all[n..], all[..n], files);
  }

  lemma PutDeletes(env: Env, st: Store, c: PutCall, loaded: Store, trimmed: Store, st': Store, r: PutResult, v: Stem, u: Stem)
    requires OnFiles(st) && PutStep(env, st, c, loaded, trimmed, st', r) && Deletes(st, st', v)
    ensures Wrote(env, PutOp(c, loaded, trimmed, r)) && v != StemOf(c.s) && v in st.diskTouch
    ensures OldestDeleted(st, StemOf(c.s), st', v, u)
    ensures exists w :: LastDeleted(st, StemOf(c.s), st', env.maxTotal, w)
  {
    assert SameDisk(st, loaded);
    if HasPage(loaded.sessions[c.s].rows, env.hash(c.text)) { assert false; }
    WriteKeepsOthers(env, loaded, c);
    if c.fate != Written { assert false; }
    var w := WriteOut(env, loaded, c);
    WriteStamps(env, loaded, c, v);
    WriterFileStays(env, st, w, c, trimmed, st', v, u);
  }

  lemma WriterFileStays(env: Env, st: Store, w: Store, c: PutCall, trimmed: Store, st': Store, v: Stem, u: Stem)
    requires OnFiles(w) && SameOthers(st, StemOf(c.s), w) && Deletes(st, st', v)
    requires IndexShed(w, c.s, env.maxIndex, trimmed) && DiskShed(env, trimmed, c.s, c.denied, st')
    ensures v != StemOf(c.s) && v in st.diskTouch && OldestDeleted(st, StemOf(c.s), st', v, u)
    ensures exists x :: LastDeleted(st, StemOf(c.s), st', env.maxTotal, x)
  {
    assert SameDisk(w, trimmed);
    ShedDeletes(env, trimmed, c.s, c.denied, st', v, u);
    var x :| LastDeleted(trimmed, StemOf(c.s), st', env.maxTotal, x);
    assert SameOthers(st, StemOf(c.s), trimmed);
    assert !Gone(trimmed, st', StemOf(c.s));
    BeforeTheWrite(st, StemOf(c.s), trimmed, st', env.maxTotal, v, u, x);
  }

  lemma StepDeletes(env: Env, st: Store, step: Step, st': Store, v: Stem, u: Stem)
    requires OnFiles(st) && Next(env, st, step, st') && step.PutOp? && Deletes(st, st', v)
    ensures Wrote(env, step) && v != StemOf(step.c.s) && v in st.diskTouch
    ensures OldestDeleted(st, StemOf(step.c.s), st', v, u)
    ensures exists w :: LastDeleted(st, StemOf(step.c.s), st', env.maxTotal, w)
  {
    PutDeletes(env, st, step.c, step.loaded, step.trimmed, st', step.result, v, u);
  }

  /** In the `n`th state the file `v` was last written no later than `u`. */
  ghost predicate WrittenNoLater(env: Env, sts: seq<Store>, steps: seq<Step>, n: nat, v: Stem, u: Stem)
    requires n <= |steps| && |sts| == |steps| + 1
  {
    && LastWrite(env, sts, steps, n, v).Some? && LastWrite(env, sts, steps, n, u).Some?
    && NoLater(LastWrite(env, sts, steps, n, v).value, LastWrite(env, sts, steps, n, u).value)
  }

  /**
   * The files a put deletes were last written no later than any counted file it leaves, its own
   * aside: by the wall clock, and within a second in the order of the run. It deletes files only
   * after a write, and never its own.
   */
  lemma DeletesLeastRecentlyWritten(env: Env, sts: seq<Store>, steps: seq<Step>, i: nat, v: Stem, u: Stem)
    requires IsRun(env, sts, steps) && sts[0] == Opened(env, sts[0].files)
    requires i < |steps| && steps[i].PutOp? && Deletes(sts[i], sts[i + 1], v)
    ensures Wrote(env, steps[i]) && v != StemOf(steps[i].c.s)
    ensures u != StemOf(steps[i].c.s) && LastWrite(env, sts, steps, i + 1, u).Some? ==> WrittenNoLater(env, sts, steps, i, v, u)
  {
    RunIsLogged(env, sts, steps);
    RunOnFiles(env, sts, steps, i);
    StepDeletes(env, sts[i], steps[i], sts[i + 1], v, u);
    KeptWrittenLater(env, sts, steps, i, v, u, StemOf(steps[i].c.s));
  }

  lemma KeptWrittenLater(env: Env, sts: seq<Store>, steps: seq<Step>, i: nat, v: Stem, u: Stem, keep: Stem)
    requires Logged(env, sts, steps) && i < |steps|
    requires Deletes(sts[i], sts[i + 1], v) && OldestDeleted(sts[i], keep, sts[i + 1], v, u)
    ensures u != keep && LastWrite(env, sts, steps, i + 1, u).Some? ==> WrittenNoLater(env, sts, steps, i, v, u)
  {
    StampsRecordWrites(env, sts, steps, i + 1, u);
    if u != keep && LastWrite(env, sts, steps, i + 1, u).Some? {
      OlderStampOlderWrite(env, sts, steps, i, v, u);
    }
  }

  /** The file written last among the deleted ones was needed to get the counted sizes below the limit. */
  lemma DeletesOnlyAsNeeded(env: Env, sts: seq<Store>, steps: seq<Step>, i: nat, v: Stem)
    requires IsRun(env, sts, steps) && sts[0] == Opened(env, sts[0].files)
    requires i < |steps| && steps[i].PutOp? && Deletes(sts[i], sts[i + 1], v)
    ensures exists w :: NeededToDelete(env, sts, steps, i, w)
  {
    RunIsLogged(env, sts, steps);
    RunOnFiles(env, sts, steps, i);
    StepDeletes(env, sts[i], steps[i], sts[i + 1], v, v);
    var w :| LastDeleted(sts[i], StemOf(steps[i].c.s), sts[i + 1], env.maxTotal, w);
    LastIsNeeded(env, sts, steps, i, StemOf(steps[i].c.s), w);
  }

  ghost predicate NeededToDelete(env: Env, sts: seq<Store>, steps: seq<Step>, i: nat, w: Stem)
    requires i < |steps| && |sts| == |steps| + 1
  {
    && Deletes(sts[i], sts[i + 1], w) && w in sts[i].diskBytes
    && Total(sts[i + 1].diskBytes, Same) + sts[i].diskBytes[w] > env.maxTotal
    && forall x | Deletes(sts[i], sts[i + 1], x) :: WrittenNoLater(env, sts, steps, i, x, w)
  }

  lemma LastIsNeeded(env: Env, sts: seq<Store>, steps: seq<Step>, i: nat, keep: Stem, w: Stem)
    requires Logged(env, sts, steps) && i < |steps| && LastDeleted(sts[i], keep, sts[i + 1], env.maxTotal, w)
    ensures NeededToDelete(env, sts, steps, i, w)
  {
    forall x | Deletes(sts[i], sts[i + 1], x)
      ensures WrittenNoLater(env, sts, steps, i, x, w)
    {
      assert DeletedBefore(sts[i], sts[i + 1], x, w);
      OlderStampOlderWrite(env, sts, steps, i, x, w);
    }
  }

  /** The store counts exactly the files whose last write it knows. */
  lemma CountedIffWritten(env: Env, sts: seq<Store>, steps: seq<Step>, n: nat, t: Stem)
    requires IsRun(env, sts, steps) && n <= |steps| && sts[0] == Opened(env, sts[0].files)
    ensures t in sts[n].diskBytes <==> LastWrite(env, sts, steps, n, t).Some?
  {
    RunIsLogged(env, sts, steps);
    RunOnFiles(env, sts, steps, n);
    StampsRecordWrites(env, sts, steps, n, t);
  }

  // ---------- the sessions a call drops from memory ----------

  predicate Serves(step: Step, s: SessionId) {
    (step.PutOp? && step.c.s == s) || (step.GetOp? && step.s == s)
  }

  /** The state that the last put or get for `s` led to. */
  function LastUse(steps: seq<Step>, n: nat, s: SessionId): (m: nat)
    requires n <= |steps|
    ensures m <= n && (m > 0 ==> Serves(steps[m - 1], s))
  {
    if n == 0 then 0 else if Serves(steps[n - 1], s) then n else LastUse(steps, n - 1, s)
  }

  /** What a step does to the touch stamp of a session that is still in memory after it. */
  ghost predicate TouchStep(st: Store, step: Step, st': Store, s: SessionId) {
    s in st'.sessions ==>
      && !step.ReopenOp?
      && if Serves(step, s) then st.clock < st'.sessions[s].lastTouch <= st'.clock
         else s in st.sessions && st'.sessions[s].lastTouch == st.sessions[s].lastTouch
  }

  /** After loading, a put changes no touch stamp. */
  ghost predicate TouchKept(a: Store, b: Store, s: SessionId) {
    s in b.sessions ==> s in a.sessions && b.sessions[s].lastTouch == a.sessions[s].lastTouch && a.clock <= b.clock
  }

  lemma WriteTouches(env: Env, st: Store, c: PutCall, s: SessionId)
    requires c.s in st.sessions
    ensures TouchKept(st, WriteOut(env, st, c), s)
  {
  }

  lemma ShedTouches(env: Env, w: Store, c: PutCall, trimmed: Store, st': Store, s: SessionId)
    requires IndexShed(w, c.s, env.maxIndex, trimmed) && DiskShed(env, trimmed, c.s, c.denied, st')
    ensures TouchKept(w, st', s)
  {
  }

  lemma PutTouches(env: Env, st: Store, c: PutCall, loaded: Store, trimmed: Store, st': Store, r: PutResult, s: SessionId)
    requires PutStep(env, st, c, loaded, trimmed, st', r) && s in st'.sessions
    ensures if s == c.s then st.clock < st'.sessions[s].lastTouch <= st'.clock
            else s in st.sessions && st'.sessions[s].lastTouch == st.sessions[s].lastTouch
  {
    assert TouchKept(loaded, st', s) by {
      WriteTouches(env, loaded, c, s);
      if !HasPage(loaded.sessions[c.s].rows, env.hash(c.text)) && c.fate == Written {
        ShedTouches(env, WriteOut(env, loaded, c), c, trimmed, st', s);
      }
    }
    LoadTouches(env, st, c.s, loaded, s);
  }

  lemma LoadTouches(env: Env, st: Store, s: SessionId, st': Store, t: SessionId)
    requires LoadStep(env, st, s, st') && t in st'.sessions
    ensures if t == s then st.clock < st'.sessions[t].lastTouch <= st'.clock
            else t in st.sessions && st'.sessions[t].lastTouch == st.sessions[t].lastTouch
  {
  }

  lemma StepTouches(env: Env, st: Store, step: Step, st': Store, s: SessionId)
    requires Next(env, st, step, st')
    ensures TouchStep(st, step, st', s)
  {
    if s in st'.sessions {
      match step {
        case PutOp(c, loaded, trimmed, r) => PutTouches(env, st, c, loaded, trimmed, st', r, s);
        case GetOp(s0, id, text) => LoadTouches(env, st, s0, st', s);
        case DeleteOp(s0, refused) =>
        case ReopenOp =>
      }
    }
  }

  /** The touch stamp of a session in memory was given by the last put or get for it, since the store was opened. */
  ghost predicate TouchRecords(sts: seq<Store>, steps: seq<Step>, n: nat, s: SessionId)
    requires n <= |steps| && |sts| == |steps| + 1
  {
    var m := LastUse(steps, n, s);
    s in sts[n].sessions ==> OpenedAt(steps, n) < m && sts[m - 1].clock < sts[n].sessions[s].lastTouch <= sts[m].clock
  }

  ghost predicate TouchedAt(sts: seq<Store>, steps: seq<Step>, i: int, s: SessionId)
    requires |sts| == |steps| + 1
  {
    0 <= i < |steps| ==> TouchStep(sts[i], steps[i], sts[i + 1], s)
  }

  lemma {:induction false} TouchesRecordUses(sts: seq<Store>, steps: seq<Step>, n: nat, s: SessionId)
    requires |sts| == |steps| + 1 && n <= |steps|
    requires s !in sts[0].sessions && forall i :: TouchedAt(sts, steps, i, s)
    ensures TouchRecords(sts, steps, n, s)
  {
    if n > 0 {
      TouchesRecordUses(sts, steps, n - 1, s);
      assert TouchedAt(sts, steps, n - 1, s);
    }
  }

  lemma RunTouches(env: Env, sts: seq<Store>, steps: seq<Step>, s: SessionId)
    requires IsRun(env, sts, steps) && sts[0] == Opened(env, sts[0].files)
    ensures s !in sts[0].sessions && forall i :: TouchedAt(sts, steps, i, s)
  {
    forall i
      ensures TouchedAt(sts, steps, i, s)
    {
      if 0 <= i < |steps| { StepTouches(env, sts[i], steps[i], sts[i + 1], s); }
    }
  }

  /** Any session dropped for the bound on the index was touched strictly before any session that is left. */
  lemma StepSheds(env: Env, st: Store, step: Step, st': Store, v: SessionId, u: SessionId)
    requires Inv(st) && OnFiles(st) && Next(env, st, step, st') && (step.PutOp? || step.GetOp?)
    requires v in st.sessions && v !in st'.sessions && !Deletes(st, st', StemOf(v)) && u in st'.sessions
    ensures st.sessions[v].lastTouch < st'.sessions[u].lastTouch
  {
    match step {
      case PutOp(c, loaded, trimmed, r) => PutSheds(env, st, c, loaded, trimmed, st', r, v, u);
      case GetOp(s, id, text) => GetSheds(env, st, s, st', v, u);
    }
  }

  lemma GetSheds(env: Env, st: Store, s: SessionId, st': Store, v: SessionId, u: SessionId)
    requires Inv(st) && LoadStep(env, st, s, st') && s in st'.sessions
    requires v in st.sessions && v !in st'.sessions && u in st'.sessions
    ensures st.sessions[v].lastTouch < st'.sessions[u].lastTouch
  {
    TouchedEarlier(env, st, s, st', st', st', v, u);
  }

  lemma PutSheds(env: Env, st: Store, c: PutCall, loaded: Store, trimmed: Store, st': Store, r: PutResult, v: SessionId, u: SessionId)
    requires Inv(st) && OnFiles(st) && PutStep(env, st, c, loaded, trimmed, st', r)
    requires v in st.sessions && v !in st'.sessions && !Deletes(st, st', StemOf(v)) && u in st'.sessions
    ensures st.sessions[v].lastTouch < st'.sessions[u].lastTouch
  {
    PutShedsOldest(env, st, c, loaded, trimmed, st', r);
    OnlyFilesTakeSessions(env, st, c, loaded, trimmed, st', r, v, u);
  }

  /** After the index bound, a put drops a session only together with its file, and changes no other. */
  lemma OnlyFilesTakeSessions(env: Env, st: Store, c: PutCall, loaded: Store, trimmed: Store, st': Store, r: PutResult, v: SessionId, u: SessionId)
    requires OnFiles(st) && PutStep(env, st, c, loaded, trimmed, st', r)
    ensures v in trimmed.sessions && v !in st'.sessions ==> Deletes(st, st', StemOf(v))
    ensures u in st'.sessions && trimmed != st' ==> TouchKept(trimmed, st', u)
  {
  }

  /**
   * Sessions are dropped from memory in the order of their last use: whoever a put or a get drops, and
   * does not lose together with its file, was last put to or got from before anyone who is left.
   */
  lemma DropsLeastRecentlyUsed(env: Env, sts: seq<Store>, steps: seq<Step>, i: nat, v: SessionId, u: SessionId)
    requires IsRun(env, sts, steps) && sts[0] == Opened(env, sts[0].files)
    requires i < |steps| && (steps[i].PutOp? || steps[i].GetOp?)
    requires v in sts[i].sessions && v !in sts[i + 1].sessions && !Deletes(sts[i], sts[i + 1], StemOf(v)) && u in sts[i + 1].sessions
    ensures LastUse(steps, i, v) < LastUse(steps, i + 1, u)
  {
    RunIsLogged(env, sts, steps);
    RunOnFiles(env, sts, steps, i);
    RunInv(env, sts, steps, i);
    StepSheds(env, sts[i], steps[i], sts[i + 1], v, u);
    RunTouches(env, sts, steps, v);
    RunTouches(env, sts, steps, u);
    TouchesRecordUses(sts, steps, i, v);
    TouchesRecordUses(sts, steps, i + 1, u);
    UsedInOrder(env, sts, steps, i, v, u);
  }

  lemma UsedInOrder(env: Env, sts: seq<Store>, steps: seq<Step>, i: nat, v: SessionId, u: SessionId)
    requires Logged(env, sts, steps) && i < |steps| && !steps[i].ReopenOp?
    requires v in sts[i].sessions && u in sts[i + 1].sessions && sts[i].sessions[v].lastTouch < sts[i + 1].sessions[u].lastTouch
    requires TouchRecords(sts, steps, i, v) && TouchRecords(sts, steps, i + 1, u) && v != u
    ensures LastUse(steps, i, v) < LastUse(steps, i + 1, u)
  {
    var a, b := LastUse(steps, i, v), LastUse(steps, i + 1, u);
    if b < a { ClockGoesOn(env, sts, steps, b, a - 1, i); }
  }
}
