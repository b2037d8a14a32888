/**
 * What every operation and every run of the page store keeps: exact sums, distinct stamps,
 * agreement of the index with the files, content addressing, and the three bounds.
 */
module CvmRuns {
  import opened Common
  import opened CvmModel
  import opened CvmRows

  // ---------- sums and stamps ----------

  lemma LoadedInv(st: Store, s: SessionId)
    requires Inv(st)
    ensures Inv(Loaded(st, s))
  {
    LoadedAccounted(st, s);
    LoadedStamped(st, s);
  }

  lemma LoadedAccounted(st: Store, s: SessionId)
    requires Accounted(st)
    ensures Accounted(Loaded(st, s))
  {
    var e := Loaded(st, s).sessions[s];
    TotalUpdate(st.sessions, s, e, EntryBytes);
    BytesWith(st.sessions, s, e);
  }

  lemma BytesWith(sessions: map<SessionId, Entry>, s: SessionId, e: Entry)
    requires BytesExact(sessions) && e.bytes == RowBytes(e.rows)
    ensures BytesExact(sessions[s := e])
  {
  }

  lemma LoadedStamped(st: Store, s: SessionId)
    requires Stamped(st)
    ensures Stamped(Loaded(st, s))
  {
    StampsWith(st.sessions, st.clock, s, Loaded(st, s).sessions[s]);
  }

  lemma StampsWith(sessions: map<SessionId, Entry>, clock: nat, s: SessionId, e: Entry)
    requires StampsDistinct(sessions, clock) && e.lastTouch == clock + 1
    ensures StampsDistinct(sessions[s := e], clock + 1)
  {
  }

  lemma IndexShedInv(a: Store, keep: SessionId, limit: nat, b: Store)
    requires Inv(a) && IndexShed(a, keep, limit, b)
    ensures Inv(b)
  {
  }

  lemma WriteOutInv(env: Env, st: Store, c: PutCall)
    requires Inv(st) && c.s in st.sessions
    ensures Inv(WriteOut(env, st, c))
  {
    WriteOutAccounted(env, st, c);
  }

  lemma LoadInv(env: Env, st: Store, s: SessionId, st': Store)
    requires Inv(st) && LoadStep(env, st, s, st')
    ensures Inv(st')
  {
    LoadedInv(st, s);
    IndexShedInv(Loaded(st, s), s, env.maxIndex, st');
  }

  lemma DiskShedInv(env: Env, a: Store, keep: SessionId, denied: set<Stem>, b: Store)
    requires Inv(a) && DiskShed(env, a, keep, denied, b)
    ensures Inv(b)
  {
  }

  lemma PutInv(env: Env, st: Store, c: PutCall, loaded: Store, trimmed: Store, st': Store, r: PutResult)
    requires Inv(st) && PutStep(env, st, c, loaded, trimmed, st', r)
    ensures Inv(loaded) && Inv(st')
  {
    LoadInv(env, st, c.s, loaded);
    WriteOutInv(env, loaded, c);
    if trimmed != loaded || st' != loaded {
      if c.fate == Written {
        IndexShedInv(WriteOut(env, loaded, c), c.s, env.maxIndex, trimmed);
        DiskShedInv(env, trimmed, c.s, c.denied, st');
      }
    }
  }

  lemma DeletedInv(st: Store, s: SessionId, refused: bool)
    requires Inv(st)
    ensures Inv(Deleted(st, s, refused))
  {
    if s in st.sessions {
      TotalRemove(st.sessions, s, EntryBytes);
    } else {
      assert st.sessions - {s} == st.sessions;
    }
  }

  // ---------- the index bound is deterministic ----------

  /**
   * The relation that specifies index shedding leaves no choice: sessions are dropped in
   * strict order of their last touch, so the bound and the order fix which ones survive.
   */
  lemma IndexShedUnique(a: Store, keep: SessionId, limit: nat, b: Store, c: Store)
    requires Inv(a) && IndexShed(a, keep, limit, b) && IndexShed(a, keep, limit, c)
    ensures b == c
  {
    SameSurvivors(a, keep, limit, b, c);
    SameShed(a, keep, limit, b, c);
  }

  lemma SameSurvivors(a: Store, keep: SessionId, limit: nat, b: Store, c: Store)
    requires Inv(a) && IndexShed(a, keep, limit, b) && IndexShed(a, keep, limit, c)
    ensures b.sessions == c.sessions
  {
    SameKeys(a, keep, limit, b, c);
    SameSubmap(a.sessions, b.sessions, c.sessions);
  }

  lemma SameKeys(a: Store, keep: SessionId, limit: nat, b: Store, c: Store)
    requires Inv(a) && IndexShed(a, keep, limit, b) && IndexShed(a, keep, limit, c)
    ensures b.sessions.Keys == c.sessions.Keys
  {
    IndexShedKeepsNoMore(a, keep, limit, b, c);
    IndexShedKeepsNoMore(a, keep, limit, c, b);
  }

  lemma SameShed(a: Store, keep: SessionId, limit: nat, b: Store, c: Store)
    requires IndexShed(a, keep, limit, b) && IndexShed(a, keep, limit, c) && b.sessions == c.sessions
    ensures b == c
  {
  }

  lemma SameSubmap(a: map<SessionId, Entry>, b: map<SessionId, Entry>, c: map<SessionId, Entry>)
    requires Submap(b, a) && Submap(c, a) && b.Keys == c.Keys
    ensures b == c
  {
  }

  lemma IndexShedKeepsNoMore(a: Store, keep: SessionId, limit: nat, b: Store, c: Store)
    requires Inv(a) && IndexShed(a, keep, limit, b) && IndexShed(a, keep, limit, c)
    ensures b.sessions.Keys <= c.sessions.Keys
  {
    if x :| x in b.sessions && x !in c.sessions {
      var v := LastVictimAfter(a, keep, limit, c, x);
      LargerPrefix(a.sessions, keep, b.sessions, c.sessions, x, v);
      TooHeavy(a, keep, limit, b, c, v);
    }
  }

  lemma LastVictimAfter(a: Store, keep: SessionId, limit: nat, c: Store, x: SessionId) returns (v: SessionId)
    requires IndexShed(a, keep, limit, c) && x in a.sessions && x !in c.sessions
    ensures LastIndexVictim(a, limit, c, v) && a.sessions[x].lastTouch <= a.sessions[v].lastTouch
  {
    v :| LastIndexVictim(a, limit, c, v);
  }

  /** Nobody who keeps the other's last victim is within the limit. */
  lemma TooHeavy(a: Store, keep: SessionId, limit: nat, b: Store, c: Store, v: SessionId)
    requires IndexShed(a, keep, limit, b) && IndexShed(a, keep, limit, c) && LastIndexVictim(a, limit, c, v)
    ensures !(v in b.sessions && Submap(c.sessions, b.sessions))
  {
    if v in b.sessions && Submap(c.sessions, b.sessions) {
      HeavierWith(b.sessions, c.sessions, v);
    }
  }

  /** Two oldest-first cuts are nested: the one that keeps `x` keeps everything the other keeps, and the other's last victim. */
  lemma LargerPrefix(a: map<SessionId, Entry>, keep: SessionId, b: map<SessionId, Entry>, c: map<SessionId, Entry>, x: SessionId, v: SessionId)
    requires Submap(b, a) && Submap(c, a) && OldestGone(a, keep, b) && OldestGone(a, keep, c)
    requires forall s, t :: s in a && t in a && a[s].lastTouch == a[t].lastTouch ==> s == t
    requires keep in a ==> keep in b && keep in c
    requires x in b && x !in c && v in a && v !in c && a[x].lastTouch <= a[v].lastTouch
    ensures v in b && Submap(c, b)
  {
  }

  lemma HeavierWith(b: map<SessionId, Entry>, c: map<SessionId, Entry>, v: SessionId)
    requires v in b && v !in c && Submap(c, b)
    ensures Total(b, EntryBytes) >= Total(c, EntryBytes) + b[v].bytes
  {
    TotalRemove(b, v, EntryBytes);
    TotalSubmap(c, b - {v}, EntryBytes);
  }

  // ---------- agreement with the disk ----------

  /** No other cached session is stored in the same file. */
  ghost predicate Alone(st: Store, s: SessionId) {
    forall t :: t in st.sessions && StemOf(t) == StemOf(s) ==> t == s
  }

  lemma LoadedAgrees(st: Store, s: SessionId)
    requires Agrees(st)
    ensures Agrees(Loaded(st, s))
  {
  }

  lemma IndexShedAgrees(a: Store, keep: SessionId, limit: nat, b: Store)
    requires Agrees(a) && IndexShed(a, keep, limit, b)
    ensures Agrees(b)
  {
    assert forall s :: s in b.sessions ==> b.sessions[s] == a.sessions[s];
  }

  lemma DiskShedAgrees(env: Env, a: Store, keep: SessionId, denied: set<Stem>, b: Store)
    requires Agrees(a) && DiskShed(env, a, keep, denied, b)
    ensures Agrees(b)
  {
    forall s | s in b.sessions ensures b.sessions[s].rows == RowsOnDisk(b.files, s) {
      assert !Gone(a, b, StemOf(s));
      assert b.sessions[s] == a.sessions[s];
    }
  }

  /** A cached session read from another file is not affected by a write. */
  lemma OthersUntouched(env: Env, st: Store, c: PutCall, t: SessionId)
    requires c.s in st.sessions && t in st.sessions && StemOf(t) != StemOf(c.s)
    ensures var st' := WriteOut(env, st, c);
            st'.sessions[t] == st.sessions[t] && RowsOnDisk(st'.files, t) == RowsOnDisk(st.files, t)
  {
  }

  /**
   * After a successful write the file scans to the new rows exactly when it was rewritten, or could
   * be read to its end and ended in a newline (blanks behind it do no harm).
   */
  lemma WrittenFileScans(env: Env, st: Store, c: PutCall)
    requires c.s in st.sessions && st.sessions[c.s].rows == RowsOnDisk(st.files, c.s) && c.fate == Written
    ensures var st' := WriteOut(env, st, c);
            && HasPage(st'.sessions[c.s].rows, env.hash(c.text))
            && (RowsOnDisk(st'.files, c.s) == st'.sessions[c.s].rows <==>
                Evicts(env, st, c) || Appendable(FileOf(st.files, StemOf(c.s))))
  {
    var all := Grown(env, st, c);
    var n := EvictCount(all);
    assert all[n..][|all| - n - 1] == NewPage(env, c);
    if n > 0 {
      ScanRowLines(env, all[n..]);
      ScanFile(File(RowLines(env, all[n..]), None, c.secs));
    } else {
      assert all[n..] == all;
      assert all[..n] == [];
      AppendedScans(env, FileOf(st.files, StemOf(c.s)), NewPage(env, c), c.secs);
    }
  }

  /** One row more where rows can be appended; otherwise the new row is not seen, and an unended old one is lost with it. */
  lemma AppendedScans(env: Env, f: File, p: Page, secs: nat)
    ensures var f' := File(f.lines + [Joined(f.tail, Encoded(env, p))], None, secs);
            Scan(AllLines(f')) == if Appendable(f) then Scan(AllLines(f)) + [p] else Scan(f.lines)
    ensures |Scan(f.lines)| <= |Scan(AllLines(f))|
  {
    ScanFile(f);
    ScanFile(File(f.lines + [Joined(f.tail, Encoded(env, p))], None, secs));
    ScanAppend(f.lines, Joined(f.tail, Encoded(env, p)));
  }

  lemma TornFile(env: Env, st: Store, c: PutCall) returns (rows: seq<Page>, m: nat)
    requires c.s in st.sessions && c.fate.WriteFailed? && Evicts(env, st, c)
    ensures rows == Grown(env, st, c)[EvictCount(Grown(env, st, c))..] && m < |rows|
    ensures FileOf(WriteOut(env, st, c).files, StemOf(c.s)) == HalfWritten(env, rows, m, c.fate.torn, c.secs)
  {
    var all := Grown(env, st, c);
    var n := EvictCount(all);
    assert |all[..n]| == n;
    rows := all[n..];
    m := if c.fate.whole < |rows| then c.fate.whole else |rows| - 1;
  }

  lemma HalfWrittenScans(env: Env, rows: seq<Page>, m: nat, torn: Option<Torn>, secs: nat)
    requires m < |rows|
    ensures Scan(AllLines(HalfWritten(env, rows, m, torn, secs))) <= rows
  {
    ScanFile(HalfWritten(env, rows, m, torn, secs));
    ScanRowLines(env, rows[..m]);
    assert rows[..m] + [rows[m]] == rows[..m + 1];
  }

  /** After a rewrite that failed half-way the file scans to a prefix of the rows, and never to the rows the session had. */
  lemma TornRewriteDisagrees(env: Env, st: Store, c: PutCall)
    requires c.s in st.sessions && c.fate.WriteFailed? && Evicts(env, st, c)
    requires !HasPage(st.sessions[c.s].rows, env.hash(c.text))
    ensures RowsOnDisk(WriteOut(env, st, c).files, c.s) <= Grown(env, st, c)[EvictCount(Grown(env, st, c))..]
    ensures RowsOnDisk(WriteOut(env, st, c).files, c.s) != st.sessions[c.s].rows
  {
    var rows, m := TornFile(env, st, c);
    HalfWrittenScans(env, rows, m, c.fate.torn, c.secs);
    PrefixDiffers(st.sessions[c.s].rows, NewPage(env, c), EvictCount(Grown(env, st, c)), RowsOnDisk(WriteOut(env, st, c).files, c.s));
  }

  /** A torn row makes the file one that rows cannot be appended to, and reopening the store does not notice. */
  lemma TornRewriteStaysUnended(env: Env, st: Store, c: PutCall)
    requires c.s in st.sessions && c.fate.WriteFailed? && c.fate.torn.Some? && Evicts(env, st, c)
    ensures !Appendable(FileOf(Opened(env, WriteOut(env, st, c).files).files, StemOf(c.s)))
    ensures Agrees(Opened(env, WriteOut(env, st, c).files))
  {
    var rows, m := TornFile(env, st, c);
  }

  lemma PrefixDiffers(before: seq<Page>, p: Page, n: nat, scan: seq<Page>)
    requires 0 < n <= |before| && !HasPage(before, p.pageId) && scan <= (before + [p])[n..]
    ensures scan != before
  {
    if |scan| == |before| {
      assert n == 1 && scan[|before| - 1] == (before + [p])[n..][|before| - 1] == p;
      assert before[|before| - 1].pageId != p.pageId;
    }
  }

  /** The fragment that a failed and not truncated append leaves behind changes no scan. */
  predicate Harmless(f: File, torn: Option<Torn>) {
    || torn.None?
    || !Decodable(f.lines)
    || (if Ended(f) then torn != Some(AllButNewline) else !f.tail.value.Row?)
  }

  lemma FragmentScans(env: Env, f: File, p: Page, torn: Torn, secs: nat)
    ensures var f' := File(f.lines, Some(Joined(f.tail, Fragment(env, p, torn))), secs);
            Scan(AllLines(f')) == Scan(AllLines(f)) <==> Harmless(f, Some(torn))
  {
    ScanFile(f);
    ScanFile(File(f.lines, Some(Joined(f.tail, Fragment(env, p, torn))), secs));
  }

  /**
   * Exactly when a write leaves the index a true copy of the disk. The comment at the source
   * says that after a rollback it always is; a failed rewrite, and a failed append that could not
   * be truncated, are where that is false. A successful append fails it too when the file did not
   * end in a newline.
   */
  lemma WriteKeepsAgreement(env: Env, st: Store, c: PutCall)
    requires Agrees(st) && c.s in st.sessions
    requires !HasPage(st.sessions[c.s].rows, env.hash(c.text))
    ensures Agrees(WriteOut(env, st, c)) <==>
      var f := FileOf(st.files, StemOf(c.s));
      match c.fate
      case OpenRefused => true
      case WriteFailed(_, torn, cutBack) => !Evicts(env, st, c) && (cutBack || Harmless(f, torn))
      case Written => Alone(st, c.s) && (Evicts(env, st, c) || Appendable(f))
  {
    match c.fate
    case OpenRefused => assert Grown(env, st, c)[..0] == [];
    case WriteFailed(_, _, _) => FailedWriteAgreement(env, st, c);
    case Written => WrittenAgreement(env, st, c);
  }

  lemma FailedWriteAgreement(env: Env, st: Store, c: PutCall)
    requires Agrees(st) && c.s in st.sessions && c.fate.WriteFailed?
    requires !HasPage(st.sessions[c.s].rows, env.hash(c.text))
    ensures Agrees(WriteOut(env, st, c)) <==>
      !Evicts(env, st, c) && (c.fate.cutBack || Harmless(FileOf(st.files, StemOf(c.s)), c.fate.torn))
  {
    var st' := WriteOut(env, st, c);
    if Evicts(env, st, c) {
      TornRewriteDisagrees(env, st, c);
      assert st'.sessions[c.s] == st.sessions[c.s];
    } else {
      assert Grown(env, st, c)[..0] == [];
      FailedAppendScans(env, st, c);
      SameSessionsAgree(st, st', c.s);
    }
  }

  lemma FailedAppendScans(env: Env, st: Store, c: PutCall)
    requires c.s in st.sessions && c.fate.WriteFailed?
    ensures var files := AppendFile(env, st.files, StemOf(c.s), NewPage(env, c), c.fate, c.secs);
            && (RowsOnDisk(files, c.s) == RowsOnDisk(st.files, c.s) <==> c.fate.cutBack || Harmless(FileOf(st.files, StemOf(c.s)), c.fate.torn))
            && forall t :: StemOf(t) != StemOf(c.s) ==> RowsOnDisk(files, t) == RowsOnDisk(st.files, t)
  {
    var f := FileOf(st.files, StemOf(c.s));
    if !c.fate.cutBack && c.fate.torn.Some? {
      FragmentScans(env, f, NewPage(env, c), c.fate.torn.value, c.secs);
    } else {
      assert AllLines(File(f.lines, f.tail, c.secs)) == AllLines(f);
    }
  }

  /** With the index as it was, agreement depends on the one file that was written. */
  lemma SameSessionsAgree(st: Store, st': Store, s: SessionId)
    requires Agrees(st) && st'.sessions == st.sessions && s in st.sessions
    requires forall t :: StemOf(t) != StemOf(s) ==> RowsOnDisk(st'.files, t) == RowsOnDisk(st.files, t)
    ensures Agrees(st') <==> RowsOnDisk(st'.files, s) == RowsOnDisk(st.files, s)
  {
  }

  lemma WrittenAgreement(env: Env, st: Store, c: PutCall)
    requires Agrees(st) && c.s in st.sessions && c.fate == Written
    requires !HasPage(st.sessions[c.s].rows, env.hash(c.text))
    ensures Agrees(WriteOut(env, st, c)) <==> Alone(st, c.s) && (Evicts(env, st, c) || Appendable(FileOf(st.files, StemOf(c.s))))
  {
    WrittenFileScans(env, st, c);
    forall t | t in st.sessions && StemOf(t) != StemOf(c.s)
      ensures WriteOut(env, st, c).sessions[t].rows == RowsOnDisk(WriteOut(env, st, c).files, t)
    {
      OthersUntouched(env, st, c, t);
    }
    SharersDisagree(st, WriteOut(env, st, c), c.s);
  }

  /** After one session got new rows, agreement is agreement of its own file, and that no other is cached from it. */
  lemma SharersDisagree(st: Store, st': Store, s: SessionId)
    requires Agrees(st) && s in st.sessions && s in st'.sessions && st'.sessions == st.sessions[s := st'.sessions[s]]
    requires st'.sessions[s].rows != st.sessions[s].rows
    requires forall t :: t in st.sessions && StemOf(t) != StemOf(s) ==> st'.sessions[t].rows == RowsOnDisk(st'.files, t)
    ensures Agrees(st') <==> Alone(st, s) && RowsOnDisk(st'.files, s) == st'.sessions[s].rows
  {
    if !Alone(st, s) {
      var t :| t in st.sessions && t != s && StemOf(t) == StemOf(s);
      assert st'.sessions[t].rows == st.sessions[s].rows && RowsOnDisk(st'.files, t) == RowsOnDisk(st'.files, s);
      assert t in st'.sessions && s in st'.sessions;
    }
  }

  /**
   * What goes wrong at a file that does not end in a newline, or cannot be read to its end: a put
   * reports success and the page is in memory, but no scan of the file, so no later process, finds
   * it. If the unended line was a row, that older row is lost as well.
   */
  lemma UnendedTailHidesPage(env: Env, st: Store, c: PutCall, loaded: Store, trimmed: Store, st': Store, r: PutResult)
    requires Agrees(st) && PutStep(env, st, c, loaded, trimmed, st', r) && c.fate == Written
    requires !HasPage(RowsOnDisk(st.files, c.s), env.hash(c.text)) && !Evicts(env, loaded, c)
    requires !Appendable(FileOf(st.files, StemOf(c.s)))
    ensures r.Stored? && c.s in st'.sessions && HasPage(st'.sessions[c.s].rows, r.id)
    ensures !HasPage(RowsOnDisk(st'.files, c.s), r.id)
    ensures RowsOnDisk(st'.files, c.s) == Scan(FileOf(st.files, StemOf(c.s)).lines)
  {
    LoadedAgrees(st, c.s);
    IndexShedAgrees(Loaded(st, c.s), c.s, env.maxIndex, loaded);
    HiddenAppend(env, loaded, c);
    WriterKept(env, WriteOut(env, loaded, c), c, trimmed, st');
    WriterFileKept(env, WriteOut(env, loaded, c), c, trimmed, st');
  }

  lemma HiddenAppend(env: Env, st: Store, c: PutCall)
    requires Agrees(st) && c.s in st.sessions && c.fate == Written && !HasPage(st.sessions[c.s].rows, env.hash(c.text))
    requires !Evicts(env, st, c) && !Appendable(FileOf(st.files, StemOf(c.s)))
    ensures var st' := WriteOut(env, st, c);
      && HasPage(st'.sessions[c.s].rows, env.hash(c.text))
      && RowsOnDisk(st'.files, c.s) == Scan(FileOf(st.files, StemOf(c.s)).lines)
      && !HasPage(RowsOnDisk(st'.files, c.s), env.hash(c.text))
  {
    var f := FileOf(st.files, StemOf(c.s));
    assert Grown(env, st, c)[..0] == [] && Grown(env, st, c)[0..] == Grown(env, st, c);
    AppendedScans(env, f, NewPage(env, c), c.secs);
    ScanFile(f);
    FewerRows(RowsOnDisk(st.files, c.s), Scan(f.lines), env.hash(c.text));
    assert Grown(env, st, c)[|st.sessions[c.s].rows|] == NewPage(env, c);
  }

  lemma WriterFileKept(env: Env, w: Store, c: PutCall, trimmed: Store, st': Store)
    requires IndexShed(w, c.s, env.maxIndex, trimmed) && DiskShed(env, trimmed, c.s, c.denied, st')
    ensures FileOf(st'.files, StemOf(c.s)) == FileOf(w.files, StemOf(c.s))
  {
    assert !Gone(trimmed, st', StemOf(c.s));
  }

  lemma FewerRows(all: seq<Page>, some: seq<Page>, id: PageId)
    requires some <= all && !HasPage(all, id)
    ensures !HasPage(some, id)
  {
    forall i | 0 <= i < |some|
      ensures some[i].pageId != id
    {
      assert some[i] == all[i];
    }
  }

  /** Deleting a session leaves no stale copy exactly when nothing else cached rows from its file. */
  lemma DeleteKeepsAgreement(st: Store, s: SessionId, refused: bool)
    requires Agrees(st)
    ensures Agrees(Deleted(st, s, refused)) <==>
      refused || StemOf(s) !in st.files
      || forall t :: t in st.sessions && t != s && StemOf(t) == StemOf(s) ==> st.sessions[t].rows == []
  {
    var st' := Deleted(st, s, refused);
    forall t | t in st'.sessions && StemOf(t) != StemOf(s)
      ensures RowsOnDisk(st'.files, t) == st.sessions[t].rows
    {
    }
    if !refused && StemOf(s) in st.files {
      forall t | t in st.sessions && t != s && StemOf(t) == StemOf(s)
        ensures t in st'.sessions && RowsOnDisk(st'.files, t) == []
      {
      }
    }
  }

  /** An id has a file of its own: no other id maps to the same stem. */
  ghost predicate OwnStem(s: SessionId) {
    forall t: SessionId :: StemOf(t) == StemOf(s) ==> t == s
  }

  predicate PlainChar(c: char) {
    'a' <= c <= 'z' || 'A' <= c <= 'Z' || '0' <= c <= '9' || c == '-'
  }

  /** Exactly the ids of letters, digits and hyphens have: every underscore, given or put in, could stand for a space. */
  lemma OwnStemIff(s: SessionId)
    ensures OwnStem(s) <==> forall i :: 0 <= i < |s| ==> PlainChar(s[i])
  {
    if forall i :: 0 <= i < |s| ==> PlainChar(s[i]) {
      forall t: SessionId | StemOf(t) == StemOf(s)
        ensures t == s
      {
        PlainStem(s, t);
      }
    } else {
      var i :| 0 <= i < |s| && !PlainChar(s[i]);
      var t := s[i := if s[i] == '_' then ' ' else '_'];
      assert t[i] != s[i];
      assert StemOf(t) == StemOf(s);
    }
  }

  lemma PlainStem(s: SessionId, t: SessionId)
    requires StemOf(t) == StemOf(s) && forall i :: 0 <= i < |s| ==> PlainChar(s[i])
    ensures t == s
  {
    assert |StemOf(t)| == |StemOf(s)|;
    forall i | 0 <= i < |s|
      ensures t[i] == s[i]
    {
      assert StemOf(t)[i] == StemOf(s)[i];
    }
  }

  // ---------- a failed put ----------

  /**
   * A put whose write fails leaves the rows of every session (content and order) and every
   * count as it found them, even when rows had been dropped to make room.
   */
  lemma FailedPutRestores(env: Env, st: Store, c: PutCall, loaded: Store, trimmed: Store, st': Store)
    requires Inv(st) && PutStep(env, st, c, loaded, trimmed, st', IoError)
    ensures c.s in st'.sessions
    ensures st'.sessions[c.s].rows == if c.s in st.sessions then st.sessions[c.s].rows else RowsOnDisk(st.files, c.s)
    ensures st'.sessions[c.s].bytes == RowBytes(st'.sessions[c.s].rows)
    ensures forall t :: t in st'.sessions && t != c.s ==> t in st.sessions && st'.sessions[t] == st.sessions[t]
    ensures st'.indexBytes == Total(st'.sessions, EntryBytes)
    ensures st'.diskBytes == st.diskBytes && st'.diskTouch == st.diskTouch
  {
    LoadInv(env, st, c.s, loaded);
    LoadKeepsRows(env, st, c.s, loaded);
    FailedWriteKeeps(env, loaded, c);
  }

  lemma LoadKeepsRows(env: Env, st: Store, s: SessionId, st': Store)
    requires LoadStep(env, st, s, st') && s in st'.sessions
    ensures st'.sessions[s].rows == if s in st.sessions then st.sessions[s].rows else RowsOnDisk(st.files, s)
    ensures forall t :: t in st'.sessions && t != s ==> t in st.sessions && st'.sessions[t] == st.sessions[t]
    ensures st'.diskBytes == st.diskBytes && st'.diskTouch == st.diskTouch
  {
  }

  lemma FailedWriteKeeps(env: Env, st: Store, c: PutCall)
    requires c.s in st.sessions && c.fate != Written
    ensures WriteOut(env, st, c) == st.(files := WriteOut(env, st, c).files)
  {
  }

  // ---------- bounds and order after a put ----------

  /** Whatever a successful put found or wrote, its page is in memory afterwards and the index bound holds. */
  lemma PutMeetsIndexBound(env: Env, st: Store, c: PutCall, loaded: Store, trimmed: Store, st': Store, r: PutResult)
    requires Inv(st) && PutStep(env, st, c, loaded, trimmed, st', r) && r.Stored?
    ensures c.s in st'.sessions && HasPage(st'.sessions[c.s].rows, env.hash(c.text))
    ensures st'.indexBytes <= env.maxIndex || st'.sessions.Keys <= {c.s}
  {
    PutInv(env, st, c, loaded, trimmed, st', r);
    if !HasPage(loaded.sessions[c.s].rows, env.hash(c.text)) {
      NewPageMeetsBounds(env, c, loaded, trimmed, st');
    }
  }

  /** Every session that a put sheds from memory was touched strictly before every session it keeps there. */
  lemma PutShedsOldest(env: Env, st: Store, c: PutCall, loaded: Store, trimmed: Store, st': Store, r: PutResult)
    requires Inv(st) && PutStep(env, st, c, loaded, trimmed, st', r)
    ensures forall v, u :: v in st.sessions && v !in trimmed.sessions && u in trimmed.sessions ==>
              st.sessions[v].lastTouch < trimmed.sessions[u].lastTouch
  {
    var w := if trimmed == loaded then loaded else WriteOut(env, loaded, c);
    WriteOutTouches(env, loaded, c);
    forall v, u | v in st.sessions && v !in trimmed.sessions && u in trimmed.sessions
      ensures st.sessions[v].lastTouch < trimmed.sessions[u].lastTouch
    {
      TouchedEarlier(env, st, c.s, loaded, w, trimmed, v, u);
    }
  }

  /** The same sessions with the same touches. */
  ghost predicate SameTouches(a: map<SessionId, Entry>, b: map<SessionId, Entry>) {
    a.Keys == b.Keys && forall t :: t in a ==> a[t].lastTouch == b[t].lastTouch
  }

  lemma WriteOutTouches(env: Env, st: Store, c: PutCall)
    requires c.s in st.sessions
    ensures SameTouches(st.sessions, WriteOut(env, st, c).sessions)
  {
  }

  /** A put that stores a new page: the page cap, the index bound and the disk bound, each with its only exceptions. */
  lemma NewPageMeetsBounds(env: Env, c: PutCall, loaded: Store, trimmed: Store, st': Store)
    requires Inv(loaded) && c.s in loaded.sessions && c.fate == Written
    requires IndexShed(WriteOut(env, loaded, c), c.s, env.maxIndex, trimmed) && DiskShed(env, trimmed, c.s, c.denied, st')
    ensures c.s in st'.sessions && HasPage(st'.sessions[c.s].rows, env.hash(c.text))
    ensures st'.indexBytes <= env.maxIndex || st'.sessions.Keys <= {c.s}
    ensures || Total(st'.diskBytes, Same) <= env.maxTotal
            || st'.diskBytes.Keys == {StemOf(c.s)}
            || exists v :: v in c.denied && v in st'.files && v in st'.diskBytes
    ensures EndsWithNewest(env, c, st'.sessions[c.s].rows)
  {
    WriteOutInv(env, loaded, c);
    IndexBoundMet(env, WriteOut(env, loaded, c), c, trimmed, st');
    WriterKept(env, WriteOut(env, loaded, c), c, trimmed, st');
    NewRowsFit(env, loaded, c);
    DiskBoundMet(env, c, trimmed, st');
  }

  /** The new page is last, with what the put gave, and the page cap holds unless it is alone. */
  predicate EndsWithNewest(env: Env, c: PutCall, rows: seq<Page>) {
    && |rows| > 0 && IsPage(rows[|rows| - 1], env.hash(c.text), c.created, c.kind, c.text)
    && (RowBytes(rows) <= MAX_SESSION_BYTES || |rows| == 1)
  }

  predicate IsPage(p: Page, id: PageId, created: nat, kind: string, text: Text) {
    p.pageId == id && p.created == created && p.kind == kind && p.text == text && p.bytes == |text|
  }

  lemma IndexBoundMet(env: Env, w: Store, c: PutCall, trimmed: Store, st': Store)
    requires Accounted(w) && IndexShed(w, c.s, env.maxIndex, trimmed) && DiskShed(env, trimmed, c.s, c.denied, st')
    ensures st'.indexBytes <= env.maxIndex || st'.sessions.Keys <= {c.s}
  {
    TotalSubmap(st'.sessions, trimmed.sessions, EntryBytes);
  }

  lemma DiskBoundMet(env: Env, c: PutCall, a: Store, b: Store)
    requires DiskShed(env, a, c.s, c.denied, b)
    ensures || Total(b.diskBytes, Same) <= env.maxTotal
            || b.diskBytes.Keys <= {StemOf(c.s)}
            || exists v :: v in c.denied && v in b.files && v in b.diskBytes
  {
    if v :| Undeletable(b, c.s, c.denied, v) {
      assert v in c.denied && v in b.files && v in b.diskBytes;
    }
  }

  /** Neither bound touches the writer's own entry or file. */
  lemma WriterKept(env: Env, w: Store, c: PutCall, trimmed: Store, st': Store)
    requires c.s in w.sessions && StemOf(c.s) in w.diskBytes
    requires IndexShed(w, c.s, env.maxIndex, trimmed) && DiskShed(env, trimmed, c.s, c.denied, st')
    ensures c.s in st'.sessions && st'.sessions[c.s] == w.sessions[c.s] && StemOf(c.s) in st'.diskBytes
  {
    assert !Gone(trimmed, st', StemOf(c.s));
  }

  /** The rows written end with the new page and meet the page cap, unless the page is alone. */
  lemma NewRowsFit(env: Env, st: Store, c: PutCall)
    requires c.s in st.sessions && c.fate == Written
    ensures var rows := WriteOut(env, st, c).sessions[c.s].rows; EndsWithNewest(env, c, rows) && HasPage(rows, env.hash(c.text))
  {
    var all := Grown(env, st, c);
    EvictsShortestPrefix(all);
    var rows := all[EvictCount(all)..];
    assert rows[|rows| - 1] == all[|all| - 1] == NewPage(env, c);
  }

  /** Through both index bounds of a put, whoever is dropped was touched strictly before whoever is kept. */
  lemma TouchedEarlier(env: Env, st: Store, s: SessionId, loaded: Store, w: Store, trimmed: Store, v: SessionId, u: SessionId)
    requires Inv(st) && LoadStep(env, st, s, loaded) && s in loaded.sessions
    requires SameTouches(loaded.sessions, w.sessions) && (trimmed == w || IndexShed(w, s, env.maxIndex, trimmed))
    requires v in st.sessions && v !in trimmed.sessions && u in trimmed.sessions
    ensures st.sessions[v].lastTouch < trimmed.sessions[u].lastTouch
  {
    LoadedLast(st, s, v, u);
    DroppedInTurn(Loaded(st, s).sessions, loaded.sessions, w.sessions, trimmed.sessions, s, v, u);
  }

  lemma LoadedLast(st: Store, s: SessionId, v: SessionId, u: SessionId)
    requires Stamped(st) && v in st.sessions && v != s
    ensures var l := Loaded(st, s).sessions;
            && v in l && l[v].lastTouch == st.sessions[v].lastTouch
            && (u in l && u != v ==> l[v].lastTouch != l[u].lastTouch && (u == s ==> l[v].lastTouch < l[u].lastTouch))
  {
    LoadedStamped(st, s);
  }

  lemma DroppedInTurn(l: map<SessionId, Entry>, loaded: map<SessionId, Entry>, w: map<SessionId, Entry>, trimmed: map<SessionId, Entry>,
                      s: SessionId, v: SessionId, u: SessionId)
    requires Submap(loaded, l) && OldestGone(l, s, loaded) && SameTouches(loaded, w)
    requires trimmed == w || (Submap(trimmed, w) && OldestGone(w, s, trimmed))
    requires v in l && v !in trimmed && u in trimmed
    ensures u in l && trimmed[u].lastTouch == l[u].lastTouch && (u != s ==> l[v].lastTouch <= l[u].lastTouch)
  {
  }
}
