/**
 * The CVM page store as a state machine: what one public operation does to the
 * in-memory index and to the session files, as functions and relations on values.
 * CvmStore.dfy proves the imperative operations against these; CvmRuns.dfy proves
 * what every run keeps.
 */
module CvmModel {
  import opened Common

  type SessionId = string
  type Stem = string
  type PageId = string
  /** UTF-8 bytes, so that the length of a text is what the store counts. */
  type Text = seq<byte>

  datatype Page = Page(pageId: PageId, created: nat, kind: string, bytes: nat, text: Text)

  /**
   * One line of a session file and its length in bytes. `Blank` is white space only, `Garbled` does
   * not parse as a page; `Undecodable` is not UTF-8, which ends the scan of the file.
   */
  datatype Line = Row(page: Page, size: Positive) | Blank(size: Positive) | Garbled(size: Positive) | Undecodable(size: Positive)

  type Positive = n: nat | n > 0 witness 1

  /** The lines that end in a newline, which their sizes include, and what stands behind the last newline. */
  datatype File = File(lines: seq<Line>, tail: Option<Line>, mtime: nat)

  datatype Entry = Entry(rows: seq<Page>, bytes: nat, lastTouch: nat)

  /** Disk recency: wall-clock seconds, then the in-process clock. */
  datatype Stamp = Stamp(secs: nat, clock: nat)

  /** The digest, the encoded length of a row without its newline, and the two cross-session limits. */
  datatype Env = Env(hash: Text -> PageId, bodyLen: Page -> Positive, maxIndex: nat, maxTotal: nat)

  const MAX_SESSION_BYTES: nat := 64 * 1024 * 1024

  datatype Store = Store(
    sessions: map<SessionId, Entry>,
    indexBytes: int,
    diskBytes: map<Stem, nat>,
    diskTouch: map<Stem, Stamp>,
    clock: nat,
    files: map<Stem, File>)

  /** What a failed write leaves of the row it was at: all but the newline, or part of it, perhaps cut inside a character. */
  datatype Torn = AllButNewline | Part(size: Positive, decodable: bool)

  /**
   * How the one file write of a `put` ends. A failed one has `whole` rows and perhaps a torn one in
   * the file; `cutBack` tells whether the truncation after a failed append worked.
   */
  datatype Fate =
    | Written
    | OpenRefused
    | WriteFailed(whole: nat, torn: Option<Torn>, cutBack: bool)

  datatype PutResult = Stored(id: PageId) | IoError

  // ---------- sessions and files ----------

  function SafeChar(c: char): char {
    if 'a' <= c <= 'z' || 'A' <= c <= 'Z' || '0' <= c <= '9' || c == '-' || c == '_' then c else '_'
  }

  function StemOf(s: SessionId): Stem {
    seq(|s|, i requires 0 <= i < |s| => SafeChar(s[i]))
  }

  function Scan(lines: seq<Line>): seq<Page> {
    if lines == [] then []
    else match lines[0]
      case Row(p, _) => [p] + Scan(lines[1..])
      case Undecodable(_) => []
      case _ => Scan(lines[1..])
  }

  predicate Decodable(lines: seq<Line>) {
    forall l | l in lines :: !l.Undecodable?
  }

  /** A scan also yields the last line when its newline is missing. */
  function AllLines(f: File): seq<Line> {
    f.lines + (if f.tail.Some? then [f.tail.value] else [])
  }

  /** Whatever is appended stands on a line of its own. */
  predicate Ended(f: File) {
    f.tail.None? || f.tail.value.Blank?
  }

  /** A row appended to this file will be read back. */
  predicate Appendable(f: File) {
    Decodable(f.lines) && Ended(f)
  }

  function FileOf(files: map<Stem, File>, stem: Stem): File {
    if stem in files then files[stem] else File([], None, 0)
  }

  function Encoded(env: Env, p: Page): Line { Row(p, env.bodyLen(p) + 1) }

  function Fragment(env: Env, p: Page, torn: Torn): Line {
    match torn
    case AllButNewline => Row(p, env.bodyLen(p))
    case Part(n, decodable) => if decodable then Garbled(n) else Undecodable(n)
  }

  /** Bytes written right behind a tail: they join its line, which parses only if the tail was blank. */
  function Joined(tail: Option<Line>, l: Line): Line {
    if tail.None? then l
    else
      var size := tail.value.size + l.size;
      if tail.value.Blank? then l.(size := size)
      else if tail.value.Undecodable? || l.Undecodable? then Undecodable(size)
      else Garbled(size)
  }

  function RowLines(env: Env, rows: seq<Page>): seq<Line> {
    seq(|rows|, i requires 0 <= i < |rows| => Encoded(env, rows[i]))
  }

  function RowsOnDisk(files: map<Stem, File>, s: SessionId): seq<Page> {
    Scan(AllLines(FileOf(files, StemOf(s))))
  }

  function TotalSize(lines: seq<Line>): nat {
    if lines == [] then 0 else TotalSize(lines[..|lines| - 1]) + lines[|lines| - 1].size
  }

  function FileLen(f: File): nat {
    TotalSize(f.lines) + (if f.tail.Some? then f.tail.value.size else 0)
  }

  function LenOnDisk(files: map<Stem, File>, stem: Stem): nat {
    FileLen(FileOf(files, stem))
  }

  // ---------- pages ----------

  function RowBytes(rows: seq<Page>): nat {
    if rows == [] then 0 else rows[0].bytes + RowBytes(rows[1..])
  }

  predicate HasPage(rows: seq<Page>, id: PageId) {
    exists i | 0 <= i < |rows| :: rows[i].pageId == id
  }

  /** The text of the last row with this id: what a scan of the file from its end finds. */
  function LastText(rows: seq<Page>, id: PageId): Option<Text> {
    if rows == [] then None
    else if rows[|rows| - 1].pageId == id then Some(rows[|rows| - 1].text)
    else LastText(rows[..|rows| - 1], id)
  }

  /** How many oldest rows a put drops: one at a time while over the cap and not down to one row. */
  function EvictCount(rows: seq<Page>): (n: nat)
    requires rows != []
    ensures n < |rows|
  {
    if RowBytes(rows) > MAX_SESSION_BYTES && |rows| > 1 then 1 + EvictCount(rows[1..]) else 0
  }

  ghost function EntryBytes(e: Entry): nat { e.bytes }

  ghost function Same(n: nat): nat { n }

  // ---------- the in-memory LRU ----------

  /** `s` stamped as most recently used, its rows read from its file if they were not in memory. */
  ghost function Loaded(st: Store, s: SessionId): Store {
    if s in st.sessions then
      st.(clock := st.clock + 1, sessions := st.sessions[s := st.sessions[s].(lastTouch := st.clock + 1)])
    else
      var rows := RowsOnDisk(st.files, s);
      st.(clock := st.clock + 1,
          sessions := st.sessions[s := Entry(rows, RowBytes(rows), st.clock + 1)],
          indexBytes := st.indexBytes + RowBytes(rows))
  }

  ghost predicate Submap<V(!new)>(b: map<string, V>, a: map<string, V>) {
    b.Keys <= a.Keys && forall k :: k in b ==> b[k] == a[k]
  }

  /**
   * `b` is `a` with least recently used sessions (never `keep`) dropped from memory:
   * oldest first, no further than needed, and as far as needed or possible.
   */
  ghost predicate IndexShed(a: Store, keep: SessionId, limit: nat, b: Store) {
    && b == a.(sessions := b.sessions, indexBytes := b.indexBytes)
    && Submap(b.sessions, a.sessions)
    && b.indexBytes + Total(a.sessions, EntryBytes) == a.indexBytes + Total(b.sessions, EntryBytes)
    && (keep in a.sessions ==> keep in b.sessions)
    && OldestGone(a.sessions, keep, b.sessions)
    && (b.indexBytes <= limit || b.sessions.Keys <= {keep})
    && (b.sessions == a.sessions ||
        exists v :: LastIndexVictim(a, limit, b, v))
  }

  /** Whoever is missing from `b` was touched no later than whoever is left, `keep` aside. */
  ghost predicate OldestGone(a: map<SessionId, Entry>, keep: SessionId, b: map<SessionId, Entry>)
    requires Submap(b, a)
  {
    forall v, u :: v in a && v !in b && u in b && u != keep ==> a[v].lastTouch <= a[u].lastTouch
  }

  /** `v` was shed last, and without shedding it the index would still have been over its limit. */
  ghost predicate LastIndexVictim(a: Store, limit: nat, b: Store, v: SessionId) {
    && v in a.sessions && v !in b.sessions
    && (forall w :: w in a.sessions && w !in b.sessions ==> a.sessions[w].lastTouch <= a.sessions[v].lastTouch)
    && b.indexBytes + a.sessions[v].bytes > limit
  }

  /** `load_and_touch`, as one atomic step. */
  ghost predicate LoadStep(env: Env, st: Store, s: SessionId, st': Store) {
    IndexShed(Loaded(st, s), s, env.maxIndex, st')
  }

  // ---------- the disk LRU ----------

  predicate Le(a: Stamp, b: Stamp) {
    a.secs < b.secs || (a.secs == b.secs && a.clock <= b.clock)
  }

  function TouchOf(touch: map<Stem, Stamp>, stem: Stem): Stamp {
    if stem in touch then touch[stem] else Stamp(0, 0)
  }

  /**
   * `b` is `a` with some least recently used session files (never `keep`'s) deleted, oldest
   * first and no further than needed, together with the sessions cached from them.
   * `denied` are the files the system refuses to delete.
   */
  ghost predicate DiskShedSoFar(env: Env, a: Store, keep: SessionId, denied: set<Stem>, b: Store) {
    && SameButFiles(a, b)
    && !Gone(a, b, StemOf(keep))
    && (forall v, u :: Gone(a, b, v) && u in b.diskBytes && u != StemOf(keep) ==>
          Le(TouchOf(a.diskTouch, v), TouchOf(a.diskTouch, u)))
    && (forall v :: Gone(a, b, v) && v in a.files ==> v !in denied)
    && (b.diskBytes == a.diskBytes || exists v :: LastDiskVictim(env, a, b, v))
  }

  ghost predicate Gone(a: Store, b: Store, t: Stem) {
    t in a.diskBytes && t !in b.diskBytes
  }

  /** `b` has lost the files that are gone, their bookkeeping and the sessions cached from them, and nothing else. */
  ghost predicate SameButFiles(a: Store, b: Store) {
    && b.clock == a.clock
    && Submap(b.diskBytes, a.diskBytes) && Submap(b.diskTouch, a.diskTouch)
    && Submap(b.files, a.files) && Submap(b.sessions, a.sessions)
    && (forall t :: t in a.diskTouch ==> (t in b.diskTouch <==> !Gone(a, b, t)))
    && (forall t :: t in a.files ==> (t in b.files <==> !Gone(a, b, t)))
    && (forall s :: s in a.sessions ==> (s in b.sessions <==> !Gone(a, b, StemOf(s))))
    && b.indexBytes + Total(a.sessions, EntryBytes) == a.indexBytes + Total(b.sessions, EntryBytes)
  }

  /** Deletion stops within budget, when only the writer's file is left, or at a file that cannot be deleted. */
  ghost predicate DiskShed(env: Env, a: Store, keep: SessionId, denied: set<Stem>, b: Store) {
    && DiskShedSoFar(env, a, keep, denied, b)
    && (|| Total(b.diskBytes, Same) <= env.maxTotal
        || b.diskBytes.Keys <= {StemOf(keep)}
        || exists v :: Undeletable(b, keep, denied, v))
  }

  /** The next victim is a file the system refuses to delete. */
  ghost predicate Undeletable(b: Store, keep: SessionId, denied: set<Stem>, v: Stem) {
    && v in b.diskBytes && v != StemOf(keep) && v in b.files && v in denied
    && forall u :: u in b.diskBytes && u != StemOf(keep) ==> Le(TouchOf(b.diskTouch, v), TouchOf(b.diskTouch, u))
  }

  ghost predicate LastDiskVictim(env: Env, a: Store, b: Store, v: Stem) {
    && Gone(a, b, v)
    && (forall w :: Gone(a, b, w) ==> Le(TouchOf(a.diskTouch, w), TouchOf(a.diskTouch, v)))
    && Total(b.diskBytes, Same) + a.diskBytes[v] > env.maxTotal
  }

  // ---------- put ----------

  datatype PutCall = PutCall(s: SessionId, kind: string, text: Text, created: nat, secs: nat, fate: Fate, denied: set<Stem>)

  function NewPage(env: Env, c: PutCall): Page {
    Page(env.hash(c.text), c.created, c.kind, |c.text|, c.text)
  }

  /**
   * The session file after appending `page`; a failed write is cut back to the old length, or,
   * when that fails too, leaves its fragment at the end.
   */
  function AppendFile(env: Env, files: map<Stem, File>, stem: Stem, page: Page, fate: Fate, secs: nat): map<Stem, File> {
    var f := FileOf(files, stem);
    match fate
    case Written => files[stem := File(f.lines + [Joined(f.tail, Encoded(env, page))], None, secs)]
    case OpenRefused => files
    case WriteFailed(_, torn, cutBack) =>
      files[stem := File(f.lines, if cutBack || torn.None? then f.tail else Some(Joined(f.tail, Fragment(env, page, torn.value))), secs)]
  }

  /** What a rewrite leaves that failed after `m` rows. */
  function HalfWritten(env: Env, rows: seq<Page>, m: nat, torn: Option<Torn>, secs: nat): File
    requires m < |rows|
  {
    File(RowLines(env, rows[..m]), if torn.Some? then Some(Fragment(env, rows[m], torn.value)) else None, secs)
  }

  /** The session file after rewriting it with `rows`; a failed write leaves a proper prefix and perhaps a torn row. */
  function RewriteFile(env: Env, files: map<Stem, File>, stem: Stem, rows: seq<Page>, fate: Fate, secs: nat): map<Stem, File>
    requires rows != []
  {
    match fate
    case Written => files[stem := File(RowLines(env, rows), None, secs)]
    case OpenRefused => files
    case WriteFailed(whole, torn, _) =>
      files[stem := HalfWritten(env, rows, if whole < |rows| then whole else |rows| - 1, torn, secs)]
  }

  /** Rows of the session with the new page, before any is dropped. */
  ghost function Grown(env: Env, st: Store, c: PutCall): seq<Page>
    requires c.s in st.sessions
  {
    st.sessions[c.s].rows + [NewPage(env, c)]
  }

  /** Must this put drop old rows, and so rewrite the file rather than append to it? */
  ghost predicate Evicts(env: Env, st: Store, c: PutCall)
    requires c.s in st.sessions
  {
    EvictCount(Grown(env, st, c)) > 0
  }

  /** The write of a new page: file, entry and bookkeeping, before the cross-session bounds. */
  ghost function WriteOut(env: Env, st: Store, c: PutCall): Store
    requires c.s in st.sessions
  {
    var all := Grown(env, st, c);
    var n := EvictCount(all);
    WriteRowsOut(env, st, c, all[n..], all[..n])
  }

  /** The same, given the rows that stay and the rows dropped. */
  ghost function WriteRowsOut(env: Env, st: Store, c: PutCall, rows: seq<Page>, evicted: seq<Page>): Store
    requires c.s in st.sessions && rows != []
  {
    Booked(st, c, rows, evicted, WriteFile(env, st.files, c, rows, evicted))
  }

  /** Entry and bookkeeping, given the files after the write. A failed write leaves the index as it was. */
  ghost function Booked(st: Store, c: PutCall, rows: seq<Page>, evicted: seq<Page>, files: map<Stem, File>): Store
    requires c.s in st.sessions
  {
    if c.fate != Written then st.(files := files)
    else
      Store(st.sessions[c.s := Entry(rows, RowBytes(rows), st.sessions[c.s].lastTouch)],
            st.indexBytes + |c.text| - RowBytes(evicted),
            st.diskBytes[StemOf(c.s) := LenOnDisk(files, StemOf(c.s))],
            st.diskTouch[StemOf(c.s) := Stamp(c.secs, st.clock + 1)],
            st.clock + 1,
            files)
  }

  /** Append-only unless rows were dropped: then the whole file is rewritten, because it must shrink. */
  function WriteFile(env: Env, files: map<Stem, File>, c: PutCall, rows: seq<Page>, evicted: seq<Page>): map<Stem, File>
    requires rows != []
  {
    if evicted == [] then AppendFile(env, files, StemOf(c.s), NewPage(env, c), c.fate, c.secs)
    else RewriteFile(env, files, StemOf(c.s), rows, c.fate, c.secs)
  }

  /** A whole put: load, then either a no-op, a failed write undone in memory, or a write and both bounds. */
  ghost predicate PutStep(env: Env, st: Store, c: PutCall, loaded: Store, trimmed: Store, st': Store, result: PutResult) {
    && LoadStep(env, st, c.s, loaded)
    && c.s in loaded.sessions
    && if HasPage(loaded.sessions[c.s].rows, env.hash(c.text)) then
         trimmed == loaded && st' == loaded && result == Stored(env.hash(c.text))
       else if c.fate != Written then
         trimmed == loaded && st' == WriteOut(env, loaded, c) && result == IoError
       else
         && IndexShed(WriteOut(env, loaded, c), c.s, env.maxIndex, trimmed)
         && DiskShed(env, trimmed, c.s, c.denied, st')
         && result == Stored(env.hash(c.text))
  }

  ghost predicate GetStep(env: Env, st: Store, s: SessionId, id: PageId, st': Store, result: Option<Text>) {
    && LoadStep(env, st, s, st')
    && s in st'.sessions
    && result == LastText(st'.sessions[s].rows, id)
  }

  // ---------- delete and open ----------

  /** Bookkeeping goes first; then the file, unless the system refuses. */
  ghost function Deleted(st: Store, s: SessionId, refused: bool): Store {
    var stem := StemOf(s);
    Store(st.sessions - {s},
          if s in st.sessions then st.indexBytes - st.sessions[s].bytes else st.indexBytes,
          st.diskBytes - {stem},
          st.diskTouch - {stem},
          st.clock,
          if refused then st.files else st.files - {stem})
  }

  predicate DeleteReportsOk(st: Store, s: SessionId, refused: bool) {
    !refused || StemOf(s) !in st.files
  }

  /** The file of the empty id is named `.jsonl`, which has no extension: opening does not list it. */
  predicate Listed(t: Stem) { t != "" }

  ghost function Opened(env: Env, files: map<Stem, File>): Store {
    Store(map[], 0,
          map t | t in files && Listed(t) :: FileLen(files[t]),
          map t | t in files && Listed(t) :: Stamp(files[t].mtime, 0),
          0,
          files)
  }

  // ---------- what is kept ----------

  /** Every running sum is the sum it stands for. */
  ghost predicate Accounted(st: Store) {
    BytesExact(st.sessions) && st.indexBytes == Total(st.sessions, EntryBytes)
  }

  ghost predicate BytesExact(sessions: map<SessionId, Entry>) {
    forall s :: s in sessions ==> sessions[s].bytes == RowBytes(sessions[s].rows)
  }

  /** Touch stamps are never in the future and never shared. */
  ghost predicate StampsDistinct(sessions: map<SessionId, Entry>, clock: nat) {
    && (forall s :: s in sessions ==> sessions[s].lastTouch <= clock)
    && (forall s, t :: s in sessions && t in sessions && sessions[s].lastTouch == sessions[t].lastTouch ==> s == t)
  }

  ghost predicate Stamped(st: Store) {
    StampsDistinct(st.sessions, st.clock) && st.diskTouch.Keys == st.diskBytes.Keys
  }

  ghost predicate Inv(st: Store) {
    Accounted(st) && Stamped(st)
  }

  /** The index is a copy of part of the disk. */
  ghost predicate Agrees(st: Store) {
    forall s :: s in st.sessions ==> st.sessions[s].rows == RowsOnDisk(st.files, s)
  }

  /** The disk bookkeeping is exact. */
  ghost predicate DiskExact(st: Store) {
    LengthsExact(st.files, st.diskBytes)
  }

  ghost predicate LengthsExact(files: map<Stem, File>, lengths: map<Stem, nat>) {
    forall t :: LenOnDisk(files, t) == (if t in lengths then lengths[t] else 0)
  }

  /** Every page, in memory or on disk, is filed under the digest of its text. */
  ghost predicate Addressed(env: Env, st: Store) {
    && (forall s :: s in st.sessions ==> RowsFiled(env, st.sessions[s].rows))
    && (forall t :: t in st.files ==> LinesFiled(env, AllLines(st.files[t])))
  }

  ghost predicate RowsFiled(env: Env, rows: seq<Page>) {
    forall i :: 0 <= i < |rows| ==> Filed(env, rows[i])
  }

  ghost predicate LinesFiled(env: Env, lines: seq<Line>) {
    forall i :: 0 <= i < |lines| && lines[i].Row? ==> Filed(env, lines[i].page)
  }

  predicate Filed(env: Env, p: Page) {
    p.pageId == env.hash(p.text)
  }
}
