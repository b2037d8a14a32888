/**
 * The imperative store: the fields behind the lock, the directory of session files, and the
 * public operations, each proved to take exactly one step of CvmModel. The fields are `nat`,
 * so every subtraction below is also proved not to underflow.
 */
module CvmStore {
  import opened Common
  import opened CvmModel
  import opened CvmRows
  import opened CvmRuns

  lemma DeletionExtends(env: Env, a: Store, keep: SessionId, denied: set<Stem>, b: Store, v: Stem, b': Store)
    requires DiskShedSoFar(env, a, keep, denied, b) && Total(b.diskBytes, Same) > env.maxTotal
    requires a.diskTouch.Keys == a.diskBytes.Keys
    requires v in b.diskBytes && v != StemOf(keep) && !(v in b.files && v in denied)
    requires forall u :: u in b.diskBytes && u != StemOf(keep) ==> Le(TouchOf(b.diskTouch, v), TouchOf(b.diskTouch, u))
    requires SameButFiles(b, b') && b'.diskBytes == b.diskBytes - {v}
    ensures DiskShedSoFar(env, a, keep, denied, b')
  {
    GoneSteps(a, b, v, b');
    assert forall u :: u in b.diskBytes ==> TouchOf(b.diskTouch, u) == TouchOf(a.diskTouch, u);
    TotalRemove(b.diskBytes, v, Same);
    assert LastDiskVictim(env, a, b', v);
  }

  lemma GoneSteps(a: Store, b: Store, v: Stem, b': Store)
    requires SameButFiles(a, b) && SameButFiles(b, b') && v in b.diskBytes && b'.diskBytes == b.diskBytes - {v}
    ensures forall t :: Gone(a, b', t) <==> Gone(a, b, t) || t == v
    ensures forall t :: Gone(b, b', t) <==> t == v
    ensures SameButFiles(a, b')
  {
  }

  /** Dropping the least recently touched session from an index over its limit, and from nothing else, goes on as specified. */
  lemma EvictionExtends(a: Store, keep: SessionId, limit: nat, b: Store, v: SessionId, b': Store)
    requires Submap(b.sessions, a.sessions) && OldestGone(a.sessions, keep, b.sessions)
    requires v in b.sessions && v != keep && b.indexBytes > limit
    requires forall u :: u in b.sessions && u != keep ==> b.sessions[v].lastTouch <= b.sessions[u].lastTouch
    requires b.sessions == a.sessions || exists w :: LastIndexVictim(a, limit, b, w)
    requires keep in a.sessions ==> keep in b.sessions
    requires b'.sessions == b.sessions - {v} && b'.indexBytes == b.indexBytes - b.sessions[v].bytes
    ensures Submap(b'.sessions, a.sessions) && OldestGone(a.sessions, keep, b'.sessions)
    ensures LastIndexVictim(a, limit, b', v)
  {
  }

  lemma OpenedIs(env: Env, files: map<Stem, File>, lengths: map<Stem, nat>, touch: map<Stem, Stamp>)
    requires lengths.Keys == touch.Keys && forall t :: t in lengths <==> t in files && Listed(t)
    requires forall t :: t in lengths ==> lengths[t] == FileLen(files[t]) && touch[t] == Stamp(files[t].mtime, 0)
    ensures Store(map[], 0, lengths, touch, 0, files) == Opened(env, files) && Inv(Opened(env, files))
  {
    assert lengths == Opened(env, files).diskBytes;
    assert touch == Opened(env, files).diskTouch;
  }

  /** Popping the new row and putting the dropped ones back gives the entry that there was. */
  lemma UndoneEntry(sessions: map<SessionId, Entry>, s: SessionId, staged: Entry, rows: seq<Page>, page: Page, evicted: seq<Page>, total: nat)
    requires s in sessions && sessions[s].bytes == RowBytes(sessions[s].rows)
    requires Staged(sessions[s].rows, page, evicted, rows) && total == RowBytes(evicted + rows[..|rows| - 1])
    ensures sessions[s := staged][s := Entry(evicted + rows[..|rows| - 1], total, sessions[s].lastTouch)] == sessions
  {
    assert evicted + rows[..|rows| - 1] == (evicted + rows)[..|evicted + rows| - 1] == sessions[s].rows;
  }

  /** The first `i` rows are in the lines, `written` bytes long. */
  predicate RowsWritten(env: Env, rows: seq<Page>, i: nat, lines: seq<Line>, written: int) {
    i <= |rows| && lines == RowLines(env, rows[..i]) && written == TotalSize(lines)
  }

  lemma OneMoreRow(env: Env, rows: seq<Page>, i: nat, lines: seq<Line>, written: int)
    requires RowsWritten(env, rows, i, lines, written) && i < |rows|
    ensures RowsWritten(env, rows, i + 1, lines + [Encoded(env, rows[i])], written + env.bodyLen(rows[i]) + 1)
  {
    RowLinesGrow(env, rows, i);
  }

  lemma AppendedLen(f: File, l: Line, secs: nat)
    ensures FileLen(File(f.lines + [Joined(f.tail, l)], None, secs)) == FileLen(f) + l.size
  {
    assert (f.lines + [Joined(f.tail, l)])[..|f.lines|] == f.lines;
  }

  /** `rows` stay of the rows there were and the new page, and `evicted` go. */
  predicate Staged(before: seq<Page>, page: Page, evicted: seq<Page>, rows: seq<Page>) {
    rows != [] && before + [page] == evicted + rows
  }

  lemma LastStaged(before: seq<Page>, page: Page, evicted: seq<Page>, rows: seq<Page>)
    requires Staged(before, page, evicted, rows)
    ensures rows[|rows| - 1] == page
  {
    assert rows[|rows| - 1] == (evicted + rows)[|evicted + rows| - 1];
  }

  class CvmStore {
    const env: Env
    var sessions: map<SessionId, Entry>
    var indexBytes: nat
    var diskBytes: map<Stem, nat>
    var diskTouch: map<Stem, Stamp>
    var clock: nat
    /** The directory of session files; only this object writes it. */
    var files: map<Stem, File>

    ghost function View(): Store
      reads this
    {
      Store(sessions, indexBytes, diskBytes, diskTouch, clock, files)
    }

    constructor OpenWithLimits(env: Env, files: map<Stem, File>)
      ensures this.env == env && View() == Opened(env, files) && Inv(View())
    {
      this.env := env;
      this.files := files;
      sessions, indexBytes, diskBytes, diskTouch, clock := map[], 0, map[], map[], 0;
      new;
      var todo := files.Keys;
      while todo != {}
        invariant todo <= files.Keys
        invariant forall t :: t in diskBytes <==> t in files && t !in todo && Listed(t)
        invariant diskTouch.Keys == diskBytes.Keys
        invariant forall t :: t in diskBytes ==> diskBytes[t] == FileLen(files[t])
        invariant forall t :: t in diskTouch ==> diskTouch[t] == Stamp(files[t].mtime, 0)
        invariant this.env == env && this.files == files && sessions == map[] && indexBytes == 0 && clock == 0
      {
        var stem :| stem in todo;
        if Listed(stem) {
          diskBytes := diskBytes[stem := FileLen(files[stem])];
          diskTouch := diskTouch[stem := Stamp(files[stem].mtime, 0)];
        }
        todo := todo - {stem};
      }
      OpenedIs(env, files, diskBytes, diskTouch);
    }

    method Touch(s: SessionId)
      modifies this`clock, this`sessions
      ensures clock == old(clock) + 1
      ensures sessions == if s in old(sessions) then old(sessions)[s := old(sessions)[s].(lastTouch := clock)] else old(sessions)
    {
      clock := clock + 1;
      if s in sessions {
        sessions := sessions[s := sessions[s].(lastTouch := clock)];
      }
    }

    method Insert(s: SessionId, rows: seq<Page>)
      requires Accounted(View())
      modifies this`clock, this`sessions, this`indexBytes
      ensures Accounted(View())
      ensures clock == old(clock) + 1
      ensures sessions == old(sessions)[s := Entry(rows, RowBytes(rows), clock)]
      ensures indexBytes == old(indexBytes) - (if s in old(sessions) then old(sessions)[s].bytes else 0) + RowBytes(rows)
    {
      var bytes := RowBytes(rows);
      clock := clock + 1;
      var prev := if s in sessions then sessions[s].bytes else 0;
      TotalUpdate(sessions, s, Entry(rows, bytes, clock), EntryBytes);
      if s in sessions { TotalRemove(sessions, s, EntryBytes); }
      sessions := sessions[s := Entry(rows, bytes, clock)];
      indexBytes := indexBytes - prev + bytes;
    }

    method Remove(s: SessionId) returns (entry: Option<Entry>)
      requires Accounted(View())
      modifies this`sessions, this`indexBytes
      ensures Accounted(View())
      ensures entry == if s in old(sessions) then Some(old(sessions)[s]) else None
      ensures sessions == old(sessions) - {s}
      ensures indexBytes == old(indexBytes) - (if s in old(sessions) then old(sessions)[s].bytes else 0)
    {
      if s !in sessions {
        assert sessions == sessions - {s};
        return None;
      }
      TotalRemove(sessions, s, EntryBytes);
      entry := Some(sessions[s]);
      sessions := sessions - {s};
      indexBytes := indexBytes - entry.value.bytes;
    }

    method DiskTotal() returns (total: nat)
      ensures total == Total(diskBytes, Same)
    {
      total := 0;
      var rest := diskBytes;
      while rest != map[]
        invariant total + Total(rest, Same) == Total(diskBytes, Same)
        decreases |rest|
      {
        var stem :| stem in rest;
        TotalRemove(rest, stem, Same);
        RemoveShrinks(rest, stem);
        total := total + rest[stem];
        rest := rest - {stem};
      }
    }

    /** `min_by_key` over the index, `keep` left out. */
    method OldestSession(keep: SessionId) returns (victim: Option<SessionId>)
      ensures victim.None? ==> sessions.Keys <= {keep}
      ensures victim.Some? ==> victim.value in sessions && victim.value != keep
      ensures victim.Some? ==> forall u :: u in sessions && u != keep ==>
                sessions[victim.value].lastTouch <= sessions[u].lastTouch
    {
      victim := None;
      var todo := sessions.Keys - {keep};
      while todo != {}
        invariant todo <= sessions.Keys - {keep}
        invariant victim.None? ==> todo == sessions.Keys - {keep}
        invariant victim.Some? ==> victim.value in sessions.Keys - {keep}
        invariant victim.Some? ==> forall u :: u in sessions.Keys - {keep} - todo ==>
                    sessions[victim.value].lastTouch <= sessions[u].lastTouch
      {
        var s :| s in todo;
        if victim.None? || sessions[s].lastTouch < sessions[victim.value].lastTouch {
          victim := Some(s);
        }
        todo := todo - {s};
      }
      assert victim.None? ==> forall s :: s in sessions ==> s in {keep} by {
        if victim.None? {
          forall s | s in sessions ensures s in {keep} {
            assert s !in sessions.Keys - {keep};
          }
        }
      }
    }

    /** `min_by_key` over the session files, `keepStem` left out. */
    method OldestFile(keepStem: Stem) returns (victim: Option<Stem>)
      ensures victim.None? ==> diskBytes.Keys <= {keepStem}
      ensures victim.Some? ==> victim.value in diskBytes && victim.value != keepStem
      ensures victim.Some? ==> forall u :: u in diskBytes && u != keepStem ==>
                Le(TouchOf(diskTouch, victim.value), TouchOf(diskTouch, u))
    {
      victim := None;
      var todo := diskBytes.Keys - {keepStem};
      while todo != {}
        invariant todo <= diskBytes.Keys - {keepStem}
        invariant victim.None? ==> todo == diskBytes.Keys - {keepStem}
        invariant victim.Some? ==> victim.value in diskBytes.Keys - {keepStem}
        invariant victim.Some? ==> forall u :: u in diskBytes.Keys - {keepStem} - todo ==>
                    Le(TouchOf(diskTouch, victim.value), TouchOf(diskTouch, u))
      {
        var t :| t in todo;
        if victim.None? || !Le(TouchOf(diskTouch, victim.value), TouchOf(diskTouch, t)) {
          victim := Some(t);
        }
        todo := todo - {t};
      }
      assert victim.None? ==> forall s :: s in diskBytes ==> s in {keepStem} by {
        if victim.None? {
          forall s | s in diskBytes ensures s in {keepStem} {
            assert s !in diskBytes.Keys - {keepStem};
          }
        }
      }
    }

    method ShedIndex(keep: SessionId)
      requires Accounted(View())
      modifies this`sessions, this`indexBytes
      ensures Accounted(View())
      ensures IndexShed(old(View()), keep, env.maxIndex, View())
    {
      ghost var a := View();
      while indexBytes > env.maxIndex
        invariant Accounted(View())
        invariant Submap(sessions, a.sessions)
        invariant keep in a.sessions ==> keep in sessions
        invariant OldestGone(a.sessions, keep, sessions)
        invariant sessions == a.sessions || exists v :: LastIndexVictim(a, env.maxIndex, View(), v)
        decreases |sessions|
      {
        var victim := OldestSession(keep);
        if victim.None? { break; }
        ghost var b := View();
        var _ := Remove(victim.value);
        RemoveShrinks(b.sessions, victim.value);
        EvictionExtends(a, keep, env.maxIndex, b, victim.value, View());
      }
    }

    /** `denied` are the files whose deletion the system refuses. */
    method ShedDisk(keep: SessionId, denied: set<Stem>)
      requires Accounted(View()) && diskTouch.Keys == diskBytes.Keys
      modifies this
      ensures Accounted(View())
      ensures DiskShed(env, old(View()), keep, denied, View())
    {
      ghost var a := View();
      var keepStem := StemOf(keep);
      var total := DiskTotal();
      while total > env.maxTotal
        invariant total == Total(diskBytes, Same)
        invariant Accounted(View())
        invariant DiskShedSoFar(env, a, keep, denied, View())
        decreases |diskBytes|
      {
        var victim := OldestFile(keepStem);
        if victim.None? { break; }
        var stem := victim.value;
        if stem in files && stem in denied {
          assert Undeletable(View(), keep, denied, stem);
          break;
        }
        ghost var b := View();
        RemoveShrinks(diskBytes, stem);
        DropFile(stem);
        DeletionExtends(env, a, keep, denied, b, stem, View());
        total := DiskTotal();
      }
    }

    method DropFile(stem: Stem)
      requires Accounted(View()) && stem in diskBytes
      modifies this
      ensures Accounted(View())
      ensures SameButFiles(old(View()), View()) && diskBytes == old(diskBytes) - {stem}
    {
      files := files - {stem};
      diskBytes := diskBytes - {stem};
      diskTouch := diskTouch - {stem};
      DropCached(stem);
      assert forall t :: Gone(old(View()), View(), t) <==> t == stem;
    }

    /** Forget every session cached from the file `stem`. */
    method DropCached(stem: Stem)
      requires Accounted(View())
      modifies this`sessions, this`indexBytes
      ensures Accounted(View())
      ensures Submap(sessions, old(sessions))
      ensures forall s :: s in old(sessions) ==> (s in sessions <==> StemOf(s) != stem)
      ensures indexBytes + Total(old(sessions), EntryBytes) == old(indexBytes) + Total(sessions, EntryBytes)
    {
      var inMemory := set s | s in sessions && StemOf(s) == stem;
      while inMemory != {}
        invariant Accounted(View()) && Submap(sessions, old(sessions))
        invariant forall s :: s in inMemory ==> StemOf(s) == stem
        invariant forall s :: s in old(sessions) ==> (s in sessions <==> StemOf(s) != stem || s in inMemory)
      {
        var s :| s in inMemory;
        var _ := Remove(s);
        inMemory := inMemory - {s};
      }
    }

    method LoadAndTouch(s: SessionId)
      requires Accounted(View())
      modifies this
      ensures Accounted(View())
      ensures s in sessions
      ensures LoadStep(env, old(View()), s, View())
    {
      if s in sessions {
        TotalUpdate(sessions, s, sessions[s].(lastTouch := clock + 1), EntryBytes);
        Touch(s);
      } else {
        Insert(s, RowsOnDisk(files, s));
      }
      assert View() == Loaded(old(View()), s);
      ShedIndex(s);
    }

    method AppendRow(s: SessionId, row: Page, fate: Fate, secs: nat) returns (len: Option<nat>)
      modifies this`files
      ensures files == AppendFile(env, old(files), StemOf(s), row, fate, secs)
      ensures len.Some? <==> fate == Written
      ensures len.Some? ==> len.value == LenOnDisk(files, StemOf(s))
    {
      var stem := StemOf(s);
      if fate == OpenRefused { return None; }
      var f := FileOf(files, stem);   // created if missing
      var before := FileLen(f);
      if fate.WriteFailed? {
        var left := if fate.torn.None? then f.tail else Some(Joined(f.tail, Fragment(env, row, fate.torn.value)));
        files := files[stem := File(f.lines, if fate.cutBack then f.tail else left, secs)];
        return None;
      }
      var line := Encoded(env, row);
      AppendedLen(f, line, secs);
      files := files[stem := File(f.lines + [Joined(f.tail, line)], None, secs)];
      return Some(before + line.size);
    }

    method RewriteSessionFile(s: SessionId, rows: seq<Page>, fate: Fate, secs: nat) returns (len: Option<nat>)
      requires rows != []
      modifies this`files
      ensures files == RewriteFile(env, old(files), StemOf(s), rows, fate, secs)
      ensures len.Some? <==> fate == Written
      ensures len.Some? ==> len.value == LenOnDisk(files, StemOf(s))
    {
      var stem := StemOf(s);
      if fate == OpenRefused { return None; }
      var lines: seq<Line> := [];
      files := files[stem := File(lines, None, secs)];   // opening truncates
      var written := 0;
      assert rows[..0] == [];
      for i := 0 to |rows|
        invariant RowsWritten(env, rows, i, lines, written)
        invariant files == old(files)[stem := File(lines, None, secs)]
        invariant fate.WriteFailed? ==> i <= fate.whole && i < |rows|
      {
        if fate.WriteFailed? && (i == fate.whole || i == |rows| - 1) {
          files := files[stem := HalfWritten(env, rows, i, fate.torn, secs)];
          return None;
        }
        OneMoreRow(env, rows, i, lines, written);
        lines := lines + [Encoded(env, rows[i])];
        files := files[stem := File(lines, None, secs)];
        written := written + env.bodyLen(rows[i]) + 1;
      }
      assert rows[..|rows|] == rows;
      return Some(written);
    }

    /** The page cap: oldest rows go while the session is over it and has more than one row. */
    static method DropOldest(grown: seq<Page>, total: nat) returns (rows: seq<Page>, bytes: nat, evicted: seq<Page>)
      requires grown != [] && total == RowBytes(grown)
      ensures rows == grown[EvictCount(grown)..] && evicted == grown[..EvictCount(grown)]
      ensures bytes == RowBytes(rows)
    {
      rows, bytes, evicted := grown, total, [];
      while bytes > MAX_SESSION_BYTES && |rows| > 1
        invariant rows != [] && evicted + rows == grown && bytes == RowBytes(rows)
        invariant EvictCount(grown) == |evicted| + EvictCount(rows)
        decreases |rows|
      {
        var removed := rows[0];
        bytes := bytes - removed.bytes;
        evicted := evicted + [removed];
        rows := rows[1..];
      }
    }

    /** The undo of a failed write: the new row popped, the dropped rows put back in front, last dropped first. */
    static method Undo(rows: seq<Page>, bytes: nat, evicted: seq<Page>) returns (restored: seq<Page>, total: nat)
      requires rows != [] && bytes == RowBytes(rows)
      ensures restored == evicted + rows[..|rows| - 1]
      ensures total == RowBytes(restored)
    {
      ghost var kept := rows[..|rows| - 1];
      RowBytesLast(rows);
      restored, total := rows[..|rows| - 1], bytes - rows[|rows| - 1].bytes;
      var i := |evicted|;
      while i > 0
        invariant 0 <= i <= |evicted|
        invariant restored == evicted[i..] + kept
        invariant total == RowBytes(restored)
      {
        i := i - 1;
        FrontPutBack(evicted, i, kept);
        total := total + evicted[i].bytes;
        restored := [evicted[i]] + restored;
      }
      assert evicted[0..] == evicted;
    }

    /** A page that the session does not have: row pushed, cap met, then the write. */
    method WriteNew(c: PutCall, page: Page) returns (written: bool)
      requires Accounted(View()) && c.s in sessions && page == NewPage(env, c)
      modifies this
      ensures Accounted(View())
      ensures View() == WriteOut(env, old(View()), c)
      ensures written <==> c.fate == Written
    {
      var entry := sessions[c.s];
      RowBytesAppend(entry.rows, [page]);
      var rows, bytes, evicted := DropOldest(entry.rows + [page], entry.bytes + page.bytes);
      assert entry.rows + [page] == evicted + rows;
      WriteOutAccounted(env, View(), c);
      assert WriteOut(env, View(), c) == WriteRowsOut(env, View(), c, rows, evicted);
      written := WriteStaged(c, entry, rows, bytes, evicted);
    }

    /** File and bookkeeping for the staged rows; the entry is put back as it was if the write fails. */
    method WriteStaged(c: PutCall, entry: Entry, rows: seq<Page>, bytes: nat, evicted: seq<Page>) returns (written: bool)
      requires c.s in sessions && entry == sessions[c.s] && entry.bytes == RowBytes(entry.rows)
      requires Staged(entry.rows, NewPage(env, c), evicted, rows) && bytes == RowBytes(rows)
      requires indexBytes + |c.text| >= RowBytes(evicted)
      modifies this
      ensures View() == WriteRowsOut(env, old(View()), c, rows, evicted)
      ensures written <==> c.fate == Written
    {
      sessions := sessions[c.s := Entry(rows, bytes, entry.lastTouch)];
      var len := WriteRows(c, entry.rows, rows, evicted);
      if len.None? {
        RollBack(c, old(sessions), rows, bytes, evicted);
        return false;
      }
      BookWrite(c, len.value, old(View()), rows, evicted);
      return true;
    }

    method BookWrite(c: PutCall, len: nat, ghost before: Store, ghost rows: seq<Page>, evicted: seq<Page>)
      requires c.s in before.sessions && c.fate == Written && indexBytes + |c.text| >= RowBytes(evicted)
      requires View() == before.(sessions := before.sessions[c.s := Entry(rows, RowBytes(rows), before.sessions[c.s].lastTouch)], files := files)
      requires len == LenOnDisk(files, StemOf(c.s))
      modifies this`indexBytes, this`diskBytes, this`clock, this`diskTouch
      ensures View() == Booked(before, c, rows, evicted, files)
    {
      indexBytes := indexBytes + |c.text| - RowBytes(evicted);
      diskBytes := diskBytes[StemOf(c.s) := len];
      clock := clock + 1;
      diskTouch := diskTouch[StemOf(c.s) := Stamp(c.secs, clock)];
    }

    /** After a failed write the entry is what it was before the row was staged. */
    method RollBack(c: PutCall, ghost before: map<SessionId, Entry>, rows: seq<Page>, bytes: nat, evicted: seq<Page>)
      requires c.s in before && before[c.s].bytes == RowBytes(before[c.s].rows)
      requires Staged(before[c.s].rows, NewPage(env, c), evicted, rows) && bytes == RowBytes(rows)
      requires sessions == before[c.s := Entry(rows, bytes, before[c.s].lastTouch)]
      modifies this`sessions
      ensures sessions == before
    {
      var back, total := Undo(rows, bytes, evicted);
      UndoneEntry(before, c.s, sessions[c.s], rows, NewPage(env, c), evicted, total);
      sessions := sessions[c.s := Entry(back, total, sessions[c.s].lastTouch)];
    }

    /** Append-only unless rows were dropped: then the file must shrink. */
    method WriteRows(c: PutCall, ghost before: seq<Page>, rows: seq<Page>, evicted: seq<Page>) returns (len: Option<nat>)
      requires Staged(before, NewPage(env, c), evicted, rows)
      modifies this`files
      ensures files == WriteFile(env, old(files), c, rows, evicted)
      ensures len.Some? <==> c.fate == Written
      ensures len.Some? ==> len.value == LenOnDisk(files, StemOf(c.s))
    {
      LastStaged(before, NewPage(env, c), evicted, rows);
      if evicted == [] {
        len := AppendRow(c.s, rows[|rows| - 1], c.fate, c.secs);
      } else {
        len := RewriteSessionFile(c.s, rows, c.fate, c.secs);
      }
    }

    method Put(c: PutCall) returns (result: PutResult, ghost loaded: Store, ghost trimmed: Store)
      requires Inv(View())
      modifies this
      ensures Inv(View())
      ensures PutStep(env, old(View()), c, loaded, trimmed, View(), result)
    {
      var page := Page(env.hash(c.text), c.created, c.kind, |c.text|, c.text);
      ghost var st := View();
      LoadAndTouch(c.s);
      LoadInv(env, st, c.s, View());
      loaded, trimmed := View(), View();
      if HasPage(sessions[c.s].rows, page.pageId) {
        return Stored(page.pageId), loaded, trimmed;
      }
      var written := WriteNew(c, page);
      WriteOutInv(env, loaded, c);
      if !written {
        return IoError, loaded, trimmed;
      }
      ShedIndex(c.s);
      trimmed := View();
      IndexShedInv(WriteOut(env, loaded, c), c.s, env.maxIndex, trimmed);
      ShedDisk(c.s, c.denied);
      DiskShedInv(env, trimmed, c.s, c.denied, View());
      result := Stored(page.pageId);
    }

    method Get(s: SessionId, id: PageId) returns (text: Option<Text>)
      requires Inv(View())
      modifies this
      ensures Inv(View())
      ensures GetStep(env, old(View()), s, id, View(), text)
    {
      ghost var st := View();
      LoadAndTouch(s);
      LoadInv(env, st, s, View());
      var rows := sessions[s].rows;
      text := None;
      var i := |rows|;
      assert rows[..i] == rows;
      while i > 0
        invariant 0 <= i <= |rows| && text.None?
        invariant LastText(rows, id) == LastText(rows[..i], id)
        decreases i
      {
        i := i - 1;
        assert rows[..i + 1][..i] == rows[..i];
        if rows[i].pageId == id {
          text := Some(rows[i].text);
          break;
        }
      }
    }

    method DeleteSession(s: SessionId, refused: bool) returns (ok: bool)
      requires Inv(View())
      modifies this
      ensures Inv(View())
      ensures View() == Deleted(old(View()), s, refused)
      ensures ok == DeleteReportsOk(old(View()), s, refused)
    {
      var stem := StemOf(s);
      DeletedInv(View(), s, refused);
      var _ := Remove(s);
      diskBytes := diskBytes - {stem};
      diskTouch := diskTouch - {stem};
      if stem !in files {
        assert files == files - {stem};
        return true;
      }
      if refused { return false; }
      files := files - {stem};
      return true;
    }
  }
}
