/**
 * Whole runs of the page store. However puts, gets, deletes, sheds and restarts are mixed,
 * the in-memory index cannot be told from scanning the files.
 */
module CvmHistory {
  import opened Common
  import opened CvmModel
  import opened CvmRows
  import opened CvmRuns

  datatype Step =
    | PutOp(c: PutCall, loaded: Store, trimmed: Store, result: PutResult)
    | GetOp(s: SessionId, id: PageId, text: Option<Text>)
    | DeleteOp(s: SessionId, refused: bool)
    | ReopenOp

  ghost predicate Next(env: Env, st: Store, step: Step, st': Store) {
    match step
    case PutOp(c, loaded, trimmed, r) => PutStep(env, st, c, loaded, trimmed, st', r)
    case GetOp(s, id, text) => GetStep(env, st, s, id, st', text)
    case DeleteOp(s, refused) => st' == Deleted(st, s, refused)
    case ReopenOp => st' == Opened(env, st.files)
  }

  ghost predicate IsRun(env: Env, sts: seq<Store>, steps: seq<Step>) {
    |sts| == |steps| + 1 && forall i :: 0 <= i < |steps| ==> Next(env, sts[i], steps[i], sts[i + 1])
  }

  /** The session a step is for. */
  predicate UsesOnly(step: Step, ids: set<SessionId>) {
    match step
    case PutOp(c, _, _, _) => c.s in ids
    case GetOp(s, _, _) => s in ids
    case DeleteOp(s, _) => s in ids
    case ReopenOp => true
  }

  /** No rewrite fails half-way, and what is left of a failed append is truncated. Files may refuse to be opened or deleted. */
  ghost predicate NothingTorn(env: Env, step: Step) {
    step.PutOp? && step.c.fate.WriteFailed? && step.c.s in step.loaded.sessions ==>
      !Evicts(env, step.loaded, step.c) && (step.c.fate.cutBack || step.c.fate.torn.None?)
  }

  predicate DistinctStems(ids: set<SessionId>) {
    forall s, t | s in ids && t in ids && StemOf(s) == StemOf(t) :: s == t
  }

  /** Every file can be read to its end and ends in a newline. */
  ghost predicate AllAppendable(files: map<Stem, File>) {
    forall t :: t in files ==> Appendable(files[t])
  }

  /** What a run keeps besides its sums: a true copy of well-ended files, for sessions with a file each. */
  ghost predicate Mirror(st: Store, ids: set<SessionId>) {
    Agrees(st) && AllAppendable(st.files) && st.sessions.Keys <= ids
  }

  // ---------- one step ----------

  lemma LoadMirror(env: Env, st: Store, s: SessionId, st': Store, ids: set<SessionId>)
    requires Mirror(st, ids) && LoadStep(env, st, s, st') && s in ids
    ensures Mirror(st', ids) && st'.files == st.files
  {
    LoadedAgrees(st, s);
    ShedMirror(Loaded(st, s), s, env.maxIndex, st', ids);
  }

  lemma WriteFileAppendable(env: Env, files: map<Stem, File>, c: PutCall, rows: seq<Page>, evicted: seq<Page>)
    requires rows != [] && Appendable(FileOf(files, StemOf(c.s)))
    requires c.fate.WriteFailed? ==> evicted == [] && (c.fate.cutBack || c.fate.torn.None?)
    ensures Appendable(FileOf(WriteFile(env, files, c, rows, evicted), StemOf(c.s)))
  {
    ScanRowLines(env, rows);
  }

  lemma WrittenAppendable(env: Env, st: Store, c: PutCall)
    requires c.s in st.sessions && AllAppendable(st.files)
    requires c.fate.WriteFailed? ==> !Evicts(env, st, c) && (c.fate.cutBack || c.fate.torn.None?)
    ensures AllAppendable(WriteOut(env, st, c).files)
  {
    var all := Grown(env, st, c);
    var n := EvictCount(all);
    WriteFileAppendable(env, st.files, c, all[n..], all[..n]);
    OneFileAppendable(env, st.files, c, all[n..], all[..n]);
  }

  lemma OneFileAppendable(env: Env, files: map<Stem, File>, c: PutCall, rows: seq<Page>, evicted: seq<Page>)
    requires rows != [] && AllAppendable(files) && Appendable(FileOf(WriteFile(env, files, c, rows, evicted), StemOf(c.s)))
    ensures AllAppendable(WriteFile(env, files, c, rows, evicted))
  {
    var after := WriteFile(env, files, c, rows, evicted);
    forall t | t in after
      ensures Appendable(after[t])
    {
      if t != StemOf(c.s) { assert t in files && after[t] == files[t]; } else { assert FileOf(after, t) == after[t]; }
    }
  }

  lemma WriteMirror(env: Env, st: Store, c: PutCall, ids: set<SessionId>)
    requires Mirror(st, ids) && c.s in st.sessions && c.s in ids && DistinctStems(ids)
    requires !HasPage(st.sessions[c.s].rows, env.hash(c.text))
    requires c.fate.WriteFailed? ==> !Evicts(env, st, c) && (c.fate.cutBack || c.fate.torn.None?)
    ensures Mirror(WriteOut(env, st, c), ids)
  {
    assert Alone(st, c.s);
    WriteKeepsAgreement(env, st, c);
    WrittenAppendable(env, st, c);
    FileAppendable(st.files, StemOf(c.s));
    WriteOutTouches(env, st, c);
  }

  lemma FileAppendable(files: map<Stem, File>, stem: Stem)
    requires AllAppendable(files)
    ensures Appendable(FileOf(files, stem))
  {
  }

  lemma ShedMirror(a: Store, keep: SessionId, limit: nat, b: Store, ids: set<SessionId>)
    requires Mirror(a, ids) && IndexShed(a, keep, limit, b)
    ensures Mirror(b, ids)
  {
    IndexShedAgrees(a, keep, limit, b);
  }

  lemma PutMirror(env: Env, st: Store, c: PutCall, loaded: Store, trimmed: Store, st': Store, r: PutResult, ids: set<SessionId>)
    requires Mirror(st, ids) && PutStep(env, st, c, loaded, trimmed, st', r) && c.s in ids && DistinctStems(ids)
    requires NothingTorn(env, PutOp(c, loaded, trimmed, r))
    ensures Mirror(st', ids)
  {
    LoadMirror(env, st, c.s, loaded, ids);
    if !HasPage(loaded.sessions[c.s].rows, env.hash(c.text)) {
      WriteMirror(env, loaded, c, ids);
      if c.fate == Written {
        ShedMirror(WriteOut(env, loaded, c), c.s, env.maxIndex, trimmed, ids);
        DiskShedMirror(env, trimmed, c, st', ids);
      }
    }
  }

  lemma DiskShedMirror(env: Env, a: Store, c: PutCall, b: Store, ids: set<SessionId>)
    requires Mirror(a, ids) && DiskShed(env, a, c.s, c.denied, b)
    ensures Mirror(b, ids)
  {
    DiskShedAgrees(env, a, c.s, c.denied, b);
  }

  lemma StepMirror(env: Env, st: Store, step: Step, st': Store, ids: set<SessionId>)
    requires Mirror(st, ids) && Next(env, st, step, st')
    requires UsesOnly(step, ids) && NothingTorn(env, step) && DistinctStems(ids)
    ensures Mirror(st', ids)
  {
    match step {
      case PutOp(c, loaded, trimmed, r) => PutMirror(env, st, c, loaded, trimmed, st', r, ids);
      case GetOp(s, id, text) => LoadMirror(env, st, s, st', ids);
      case DeleteOp(s, refused) => DeleteKeepsAgreement(st, s, refused);
      case ReopenOp =>
    }
  }

  lemma StepInv(env: Env, st: Store, step: Step, st': Store)
    requires Inv(st) && Next(env, st, step, st')
    ensures Inv(st')
  {
    match step {
      case PutOp(c, loaded, trimmed, r) => PutInv(env, st, c, loaded, trimmed, st', r);
      case GetOp(s, id, text) =>
        LoadedInv(st, s);
        IndexShedInv(Loaded(st, s), s, env.maxIndex, st');
      case DeleteOp(s, refused) => DeletedInv(st, s, refused);
      case ReopenOp =>
    }
  }

  // ---------- every run ----------

  lemma {:induction false} RunInv(env: Env, sts: seq<Store>, steps: seq<Step>, n: nat)
    requires IsRun(env, sts, steps) && n <= |steps| && Inv(sts[0])
    ensures Inv(sts[n])
  {
    if n > 0 {
      RunInv(env, sts, steps, n - 1);
      StepInv(env, sts[n - 1], steps[n - 1], sts[n]);
    }
  }

  lemma {:induction false} RunMirror(env: Env, sts: seq<Store>, steps: seq<Step>, ids: set<SessionId>, n: nat)
    requires IsRun(env, sts, steps) && n <= |steps| && Mirror(sts[0], ids) && DistinctStems(ids)
    requires forall i :: 0 <= i < n ==> UsesOnly(steps[i], ids) && NothingTorn(env, steps[i])
    ensures Mirror(sts[n], ids)
  {
    if n > 0 {
      RunMirror(env, sts, steps, ids, n - 1);
      StepMirror(env, sts[n - 1], steps[n - 1], sts[n], ids);
    }
  }

  /**
   * The index is an invisible cache. From any freshly opened directory of well-ended files, at
   * every point of every run, a get answers what a scan of the session's file answers, and a put
   * of a page that the file already has writes nothing.
   */
  lemma IndexIsInvisible(env: Env, files: map<Stem, File>, sts: seq<Store>, steps: seq<Step>, ids: set<SessionId>, i: nat)
    requires IsRun(env, sts, steps) && sts[0] == Opened(env, files) && AllAppendable(files) && DistinctStems(ids)
    requires forall j :: 0 <= j < |steps| ==> UsesOnly(steps[j], ids) && NothingTorn(env, steps[j])
    requires i < |steps|
    ensures steps[i].GetOp? ==> steps[i].text == LastText(RowsOnDisk(sts[i].files, steps[i].s), steps[i].id)
    ensures steps[i].PutOp? && HasPage(RowsOnDisk(sts[i].files, steps[i].c.s), env.hash(steps[i].c.text)) ==>
              sts[i + 1].files == sts[i].files && steps[i].result == Stored(env.hash(steps[i].c.text))
  {
    RunMirror(env, sts, steps, ids, i);
    assert Next(env, sts[i], steps[i], sts[i + 1]);
    match steps[i] {
      case PutOp(c, loaded, _, _) => LoadMirror(env, sts[i], c.s, loaded, ids);
      case GetOp(s, _, _) => LoadMirror(env, sts[i], s, sts[i + 1], ids);
      case DeleteOp(_, _) =>
      case ReopenOp =>
    }
  }

  // ---------- content addressing ----------

  lemma {:induction false} ScanAddressed(env: Env, lines: seq<Line>)
    requires LinesFiled(env, lines)
    ensures RowsFiled(env, Scan(lines))
  {
    if lines != [] {
      ScanAddressed(env, lines[1..]);
    }
  }

  lemma LoadAddressed(env: Env, st: Store, s: SessionId, st': Store)
    requires Addressed(env, st) && LoadStep(env, st, s, st')
    ensures Addressed(env, st')
  {
    LoadedAddressed(env, st, s);
    ShedAddressed(env, Loaded(st, s), s, env.maxIndex, st');
  }

  lemma LoadedAddressed(env: Env, st: Store, s: SessionId)
    requires Addressed(env, st)
    ensures Addressed(env, Loaded(st, s))
  {
    ScanAddressed(env, AllLines(FileOf(st.files, StemOf(s))));
    assert RowsFiled(env, Loaded(st, s).sessions[s].rows);
  }

  lemma ShedAddressed(env: Env, a: Store, keep: SessionId, limit: nat, b: Store)
    requires Addressed(env, a) && IndexShed(a, keep, limit, b)
    ensures Addressed(env, b)
  {
    assert forall t :: t in b.sessions ==> b.sessions[t] == a.sessions[t];
  }

  lemma DiskShedAddressed(env: Env, a: Store, keep: SessionId, denied: set<Stem>, b: Store)
    requires Addressed(env, a) && DiskShed(env, a, keep, denied, b)
    ensures Addressed(env, b)
  {
    assert forall t :: t in b.sessions ==> b.sessions[t] == a.sessions[t];
    assert forall t :: t in b.files ==> b.files[t] == a.files[t];
  }

  lemma JoinedFiled(env: Env, lines: seq<Line>, tail: Option<Line>, l: Line)
    requires LinesFiled(env, lines) && (l.Row? ==> Filed(env, l.page))
    ensures LinesFiled(env, lines + [Joined(tail, l)])
  {
  }

  lemma AppendFiled(env: Env, files: map<Stem, File>, stem: Stem, page: Page, fate: Fate, secs: nat)
    requires LinesFiled(env, AllLines(FileOf(files, stem))) && Filed(env, page)
    ensures LinesFiled(env, AllLines(FileOf(AppendFile(env, files, stem, page, fate, secs), stem)))
  {
    var f := FileOf(files, stem);
    LinesBefore(env, f);
    match fate
    case Written =>
      JoinedFiled(env, f.lines, f.tail, Encoded(env, page));
      NoTail(f.lines + [Joined(f.tail, Encoded(env, page))], secs);
    case OpenRefused =>
    case WriteFailed(_, torn, cutBack) =>
      if cutBack || torn.None? {
        assert AllLines(File(f.lines, f.tail, secs)) == AllLines(f);
      } else {
        JoinedFiled(env, f.lines, f.tail, Fragment(env, page, torn.value));
      }
  }

  lemma NoTail(lines: seq<Line>, secs: nat)
    ensures AllLines(File(lines, None, secs)) == lines
  {
  }

  lemma LinesBefore(env: Env, f: File)
    requires LinesFiled(env, AllLines(f))
    ensures LinesFiled(env, f.lines)
  {
    forall i | 0 <= i < |f.lines| && f.lines[i].Row?
      ensures Filed(env, f.lines[i].page)
    {
      assert AllLines(f)[i] == f.lines[i];
    }
  }

  lemma RewriteFiled(env: Env, files: map<Stem, File>, stem: Stem, rows: seq<Page>, fate: Fate, secs: nat)
    requires rows != [] && LinesFiled(env, AllLines(FileOf(files, stem)))
    requires RowsFiled(env, rows)
    ensures LinesFiled(env, AllLines(FileOf(RewriteFile(env, files, stem, rows, fate, secs), stem)))
  {
  }

  lemma WriteOutAddressed(env: Env, st: Store, c: PutCall)
    requires Addressed(env, st) && c.s in st.sessions
    ensures Addressed(env, WriteOut(env, st, c))
  {
    var all := Grown(env, st, c);
    var n := EvictCount(all);
    assert Filed(env, NewPage(env, c));
    assert RowsFiled(env, all[n..]);
    AppendFiled(env, st.files, StemOf(c.s), NewPage(env, c), c.fate, c.secs);
    RewriteFiled(env, st.files, StemOf(c.s), all[n..], c.fate, c.secs);
    RowsOutAddressed(env, st, c, all[n..], all[..n]);
  }

  lemma RowsOutAddressed(env: Env, st: Store, c: PutCall, rows: seq<Page>, evicted: seq<Page>)
    requires Addressed(env, st) && c.s in st.sessions && rows != []
    requires RowsFiled(env, rows)
    requires LinesFiled(env, AllLines(FileOf(WriteFile(env, st.files, c, rows, evicted), StemOf(c.s))))
    ensures Addressed(env, WriteRowsOut(env, st, c, rows, evicted))
  {
    var files := WriteFile(env, st.files, c, rows, evicted);
    forall t | t in files
      ensures LinesFiled(env, AllLines(files[t]))
    {
      if t != StemOf(c.s) {
        assert t in st.files && files[t] == st.files[t];
      } else {
        assert FileOf(files, t) == files[t];
      }
    }
  }

  lemma PutAddressed(env: Env, st: Store, c: PutCall, loaded: Store, trimmed: Store, st': Store, r: PutResult)
    requires Addressed(env, st) && PutStep(env, st, c, loaded, trimmed, st', r)
    ensures Addressed(env, st')
  {
    LoadAddressed(env, st, c.s, loaded);
    WriteOutAddressed(env, loaded, c);
    if c.fate == Written && !HasPage(loaded.sessions[c.s].rows, env.hash(c.text)) {
      ShedAddressed(env, WriteOut(env, loaded, c), c.s, env.maxIndex, trimmed);
      DiskShedAddressed(env, trimmed, c.s, c.denied, st');
    }
  }

  lemma StepAddressed(env: Env, st: Store, step: Step, st': Store)
    requires Addressed(env, st) && Next(env, st, step, st')
    ensures Addressed(env, st')
  {
    match step {
      case PutOp(c, loaded, trimmed, r) => PutAddressed(env, st, c, loaded, trimmed, st', r);
      case GetOp(s, id, text) => LoadAddressed(env, st, s, st');
      case DeleteOp(s, refused) =>
      case ReopenOp =>
    }
  }

  lemma {:induction false} LastTextIsThere(rows: seq<Page>, id: PageId)
    ensures LastText(rows, id).Some? <==> HasPage(rows, id)
    ensures LastText(rows, id).Some? ==>
              exists i :: 0 <= i < |rows| && rows[i].pageId == id && rows[i].text == LastText(rows, id).value
  {
    if rows != [] {
      var n := |rows| - 1;
      LastTextIsThere(rows[..n], id);
      if rows[n].pageId == id {
        assert HasPage(rows, id);
      } else {
        assert forall i :: 0 <= i < n ==> rows[..n][i] == rows[i];
      }
    }
  }

  lemma {:induction false} RunAddressed(env: Env, sts: seq<Store>, steps: seq<Step>, n: nat)
    requires IsRun(env, sts, steps) && n <= |steps| && Addressed(env, sts[0])
    ensures Addressed(env, sts[n])
  {
    if n > 0 {
      RunAddressed(env, sts, steps, n - 1);
      StepAddressed(env, sts[n - 1], steps[n - 1], sts[n]);
    }
  }

  /**
   * A get never answers with the wrong text: in every run over files of correctly filed pages,
   * whatever the writes, deletions and stems did, the text returned has the content id asked for.
   */
  lemma GetsAreAddressed(env: Env, sts: seq<Store>, steps: seq<Step>, i: nat)
    requires IsRun(env, sts, steps) && Addressed(env, sts[0])
    requires i < |steps| && steps[i].GetOp? && steps[i].text.Some?
    ensures env.hash(steps[i].text.value) == steps[i].id
  {
    RunAddressed(env, sts, steps, i);
    assert Next(env, sts[i], steps[i], sts[i + 1]);
    LoadAddressed(env, sts[i], steps[i].s, sts[i + 1]);
    LastTextIsThere(sts[i + 1].sessions[steps[i].s].rows, steps[i].id);
  }

  /** A stored page comes back: the get right after a successful put finds a text with that id, and that very text if ids are unique. */
  lemma PutThenGet(env: Env, st: Store, c: PutCall, loaded: Store, trimmed: Store, st1: Store, id: PageId, st2: Store, text: Option<Text>)
    requires Inv(st) && Addressed(env, st)
    requires PutStep(env, st, c, loaded, trimmed, st1, Stored(id)) && GetStep(env, st1, c.s, id, st2, text)
    ensures text.Some? && env.hash(text.value) == env.hash(c.text)
    ensures (forall a, b :: env.hash(a) == env.hash(b) ==> a == b) ==> text.value == c.text
  {
    PutMeetsIndexBound(env, st, c, loaded, trimmed, st1, Stored(id));
    StepAddressed(env, st, PutOp(c, loaded, trimmed, Stored(id)), st1);
    LoadAddressed(env, st1, c.s, st2);
    LastTextIsThere(st2.sessions[c.s].rows, id);
  }

  // ---------- disk accounting ----------

  /** Every file operation the step makes is carried out, and no restart meets a file of the empty id. */
  ghost predicate DiskObeys(env: Env, st: Store, step: Step) {
    && NothingTorn(env, step)
    && (step.DeleteOp? ==> DeleteReportsOk(st, step.s, step.refused))
    && (step.ReopenOp? ==> LenOnDisk(st.files, "") == 0)
  }

  /** Opening counts every file exactly when the file of the empty id is missing or empty. */
  lemma OpenCountsAllIff(env: Env, files: map<Stem, File>)
    ensures DiskExact(Opened(env, files)) <==> LenOnDisk(files, "") == 0
  {
    var lengths := Opened(env, files).diskBytes;
    assert LenOnDisk(files, "") == 0 ==> forall t :: LenOnDisk(files, t) == (if t in lengths then lengths[t] else 0);
    assert "" !in lengths;
  }

  /** A restart after a page was stored for the empty id loses count of its file, so the disk total is too small. */
  lemma EmptyIdUncounted(env: Env, st: Store, c: PutCall, loaded: Store, trimmed: Store, st': Store, r: PutResult)
    requires PutStep(env, st, c, loaded, trimmed, st', r) && c.s == "" && c.fate == Written
    requires !HasPage(loaded.sessions[c.s].rows, env.hash(c.text))
    ensures "" in st'.files && FileLen(st'.files[""]) > 0 && "" !in Opened(env, st'.files).diskBytes
    ensures !DiskExact(Opened(env, st'.files))
  {
    var w := WriteOut(env, loaded, c);
    WriterFileKept(env, w, c, trimmed, st');
    WrittenNotEmpty(env, loaded, c);
    OpenCountsAllIff(env, st'.files);
  }

  lemma WrittenNotEmpty(env: Env, st: Store, c: PutCall)
    requires c.s in st.sessions && c.fate == Written
    ensures LenOnDisk(WriteOut(env, st, c).files, StemOf(c.s)) > 0
  {
    var all := Grown(env, st, c);
    var n := EvictCount(all);
    var rows := all[n..];
    RowLinesGrow(env, rows, |rows| - 1);
    assert rows[..|rows| - 1 + 1] == rows;
  }

  lemma LengthUpdated(files: map<Stem, File>, lengths: map<Stem, nat>, stem: Stem, f: File)
    requires LengthsExact(files, lengths)
    ensures LengthsExact(files[stem := f], lengths[stem := FileLen(f)])
    ensures FileLen(f) == LenOnDisk(files, stem) ==> LengthsExact(files[stem := f], lengths)
  {
    assert LenOnDisk(files, stem) == (if stem in lengths then lengths[stem] else 0);
    forall t
      ensures t != stem ==> LenOnDisk(files[stem := f], t) == (if t in lengths then lengths[t] else 0)
    {
      assert LenOnDisk(files, t) == (if t in lengths then lengths[t] else 0);
    }
  }

  lemma LengthsRemoved(files: map<Stem, File>, lengths: map<Stem, nat>, files': map<Stem, File>, lengths': map<Stem, nat>, gone: set<Stem>)
    requires LengthsExact(files, lengths)
    requires files' == files - gone && lengths' == lengths - gone
    ensures LengthsExact(files', lengths')
  {
    forall t
      ensures LenOnDisk(files', t) == (if t in lengths' then lengths'[t] else 0)
    {
      assert LenOnDisk(files, t) == (if t in lengths then lengths[t] else 0);
    }
  }

  lemma WriteFileExact(env: Env, files: map<Stem, File>, lengths: map<Stem, nat>, c: PutCall, rows: seq<Page>, evicted: seq<Page>)
    requires LengthsExact(files, lengths) && rows != []
    requires c.fate.WriteFailed? ==> evicted == [] && (c.fate.cutBack || c.fate.torn.None?)
    ensures var files' := WriteFile(env, files, c, rows, evicted);
      LengthsExact(files', if c.fate == Written then lengths[StemOf(c.s) := LenOnDisk(files', StemOf(c.s))] else lengths)
  {
    var stem := StemOf(c.s);
    if c.fate != OpenRefused {
      LengthUpdated(files, lengths, stem, WriteFile(env, files, c, rows, evicted)[stem]);
    }
  }

  lemma WriteOutDiskExact(env: Env, st: Store, c: PutCall)
    requires DiskExact(st) && c.s in st.sessions
    requires c.fate.WriteFailed? ==> !Evicts(env, st, c) && (c.fate.cutBack || c.fate.torn.None?)
    ensures DiskExact(WriteOut(env, st, c))
  {
    var all := Grown(env, st, c);
    var n := EvictCount(all);
    WriteFileExact(env, st.files, st.diskBytes, c, all[n..], all[..n]);
  }

  lemma DiskShedExact(env: Env, a: Store, keep: SessionId, denied: set<Stem>, b: Store)
    requires DiskExact(a) && DiskShed(env, a, keep, denied, b)
    ensures DiskExact(b)
  {
    forall t ensures LenOnDisk(b.files, t) == (if t in b.diskBytes then b.diskBytes[t] else 0) {
      assert LenOnDisk(a.files, t) == (if t in a.diskBytes then a.diskBytes[t] else 0);
    }
  }

  lemma PutDiskExact(env: Env, st: Store, c: PutCall, loaded: Store, trimmed: Store, st': Store, r: PutResult)
    requires DiskExact(st) && PutStep(env, st, c, loaded, trimmed, st', r)
    requires NothingTorn(env, PutOp(c, loaded, trimmed, r))
    ensures DiskExact(st')
  {
    if !HasPage(loaded.sessions[c.s].rows, env.hash(c.text)) {
      WriteOutDiskExact(env, loaded, c);
      if c.fate == Written {
        DiskShedExact(env, trimmed, c.s, c.denied, st');
      }
    }
  }

  lemma DeleteDiskExact(st: Store, s: SessionId, refused: bool)
    requires DiskExact(st) && DeleteReportsOk(st, s, refused)
    ensures DiskExact(Deleted(st, s, refused))
  {
    var stem := StemOf(s);
    assert stem !in st.files ==> st.files - {stem} == st.files;
    LengthsRemoved(st.files, st.diskBytes, st.files - {stem}, st.diskBytes - {stem}, {stem});
  }

  lemma StepDiskExact(env: Env, st: Store, step: Step, st': Store)
    requires DiskExact(st) && Next(env, st, step, st') && DiskObeys(env, st, step)
    ensures DiskExact(st')
  {
    match step {
      case PutOp(c, loaded, trimmed, r) => PutDiskExact(env, st, c, loaded, trimmed, st', r);
      case GetOp(s, id, text) =>
      case DeleteOp(s, refused) => DeleteDiskExact(st, s, refused);
      case ReopenOp =>
    }
  }

  /** In every run in which the disk obeys, the counted size of each file is its size. */
  lemma {:induction false} RunDiskExact(env: Env, sts: seq<Store>, steps: seq<Step>, n: nat)
    requires IsRun(env, sts, steps) && n <= |steps| && DiskExact(sts[0])
    requires forall i :: 0 <= i < n ==> DiskObeys(env, sts[i], steps[i])
    ensures DiskExact(sts[n])
  {
    if n > 0 {
      RunDiskExact(env, sts, steps, n - 1);
      StepDiskExact(env, sts[n - 1], steps[n - 1], sts[n]);
    }
  }
}
