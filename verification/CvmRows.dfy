/** Facts about sequences of rows and lines that the page-store proofs share. */
module CvmRows {
  import opened Common
  import opened CvmModel

  lemma {:induction false} RowBytesAppend(a: seq<Page>, b: seq<Page>)
    ensures RowBytes(a + b) == RowBytes(a) + RowBytes(b)
  {
    if a == [] {
      assert a + b == b;
    } else {
      assert (a + b)[1..] == a[1..] + b;
      RowBytesAppend(a[1..], b);
    }
  }

  lemma RowBytesLast(rows: seq<Page>)
    requires rows != []
    ensures RowBytes(rows) == RowBytes(rows[..|rows| - 1]) + rows[|rows| - 1].bytes
  {
    assert rows == rows[..|rows| - 1] + [rows[|rows| - 1]];
    RowBytesAppend(rows[..|rows| - 1], [rows[|rows| - 1]]);
  }

  lemma FrontPutBack(evicted: seq<Page>, i: nat, kept: seq<Page>)
    requires i < |evicted|
    ensures [evicted[i]] + (evicted[i + 1..] + kept) == evicted[i..] + kept
    ensures RowBytes(evicted[i..] + kept) == evicted[i].bytes + RowBytes(evicted[i + 1..] + kept)
  {
    assert evicted[i..] == [evicted[i]] + evicted[i + 1..];
    assert (evicted[i..] + kept)[1..] == evicted[i + 1..] + kept;
  }

  lemma RowLinesGrow(env: Env, rows: seq<Page>, i: nat)
    requires i < |rows|
    ensures RowLines(env, rows[..i + 1]) == RowLines(env, rows[..i]) + [Encoded(env, rows[i])]
    ensures TotalSize(RowLines(env, rows[..i + 1])) == TotalSize(RowLines(env, rows[..i])) + env.bodyLen(rows[i]) + 1
  {
    var lines := RowLines(env, rows[..i]);
    assert RowLines(env, rows[..i + 1]) == lines + [Encoded(env, rows[i])];
    assert (lines + [Encoded(env, rows[i])])[..i] == lines;
  }

  /** The dropped rows are the shortest oldest prefix that meets the cap, and never the newest row. */
  lemma {:induction false} EvictsShortestPrefix(rows: seq<Page>)
    requires rows != []
    ensures var n := EvictCount(rows);
            && n < |rows|
            && (RowBytes(rows[n..]) <= MAX_SESSION_BYTES || n == |rows| - 1)
            && forall k :: 0 <= k < n ==> RowBytes(rows[k..]) > MAX_SESSION_BYTES
  {
    var n := EvictCount(rows);
    assert rows[0..] == rows;
    if n > 0 {
      EvictsShortestPrefix(rows[1..]);
      assert rows[n..] == rows[1..][n - 1..];
      forall k | 0 <= k < n ensures RowBytes(rows[k..]) > MAX_SESSION_BYTES {
        if k > 0 {
          assert rows[k..] == rows[1..][k - 1..];
        }
      }
    }
  }

  lemma WriteOutAccounted(env: Env, st: Store, c: PutCall)
    requires Accounted(st) && c.s in st.sessions
    ensures Accounted(WriteOut(env, st, c))
    ensures var all := Grown(env, st, c); st.indexBytes + |c.text| >= RowBytes(all[..EvictCount(all)])
  {
    var all := Grown(env, st, c);
    var n := EvictCount(all);
    assert all == all[..n] + all[n..];
    RowBytesAppend(st.sessions[c.s].rows, [NewPage(env, c)]);
    RowBytesAppend(all[..n], all[n..]);
    TotalUpdate(st.sessions, c.s, Entry(all[n..], RowBytes(all[n..]), st.sessions[c.s].lastTouch), EntryBytes);
    TotalRemove(st.sessions, c.s, EntryBytes);
  }

  function RowOf(l: Line): seq<Page> { if l.Row? then [l.page] else [] }

  /** Scanning stops for good at an undecodable line, so a line behind one is never seen. */
  lemma {:induction false} ScanAppend(lines: seq<Line>, l: Line)
    ensures Scan(lines + [l]) == if Decodable(lines) then Scan(lines) + RowOf(l) else Scan(lines)
  {
    if lines == [] {
      assert [] + [l] == [l];
    } else {
      assert (lines + [l])[1..] == lines[1..] + [l];
      ScanAppend(lines[1..], l);
      assert Decodable(lines) <==> !lines[0].Undecodable? && Decodable(lines[1..]) by {
        assert lines == [lines[0]] + lines[1..];
      }
    }
  }

  /** What a scan of the file yields: the rows of its lines, and the one behind the last newline. */
  lemma ScanFile(f: File)
    ensures Scan(AllLines(f)) == Scan(f.lines) + (if Decodable(f.lines) && f.tail.Some? then RowOf(f.tail.value) else [])
  {
    if f.tail.Some? {
      ScanAppend(f.lines, f.tail.value);
    } else {
      assert AllLines(f) == f.lines;
    }
  }

  lemma {:induction false} ScanRowLines(env: Env, rows: seq<Page>)
    ensures Scan(RowLines(env, rows)) == rows && Decodable(RowLines(env, rows))
  {
    if rows != [] {
      assert RowLines(env, rows)[1..] == RowLines(env, rows[1..]);
      ScanRowLines(env, rows[1..]);
    }
  }
}
