/**
 * Proposed edits and their identity: the effective path-to-content map of an edit-set, the
 * sorted serialisation that is hashed into its fingerprint, and when that serialisation
 * tells two effective maps apart.
 */
module EditSets {
  import opened Common

  /** UTF-8 bytes of a path and of a file. */
  type Path = seq<byte>
  type Content = seq<byte>
  type Files = map<Path, Content>
  type Fingerprint = string

  datatype FileEdit = FileEdit(path: Path, content: Content)
  type EditSet = seq<FileEdit>

  const NUL: byte := 0
  const SOH: byte := 1

  /** Last write wins. */
  function Effective(edits: EditSet): Files {
    if edits == [] then map[]
    else
      var last := edits[|edits| - 1];
      Effective(edits[..|edits| - 1])[last.path := last.content]
  }

  function Paths(edits: EditSet): set<Path> {
    set e | e in edits :: e.path
  }

  // ---------- path order ----------

  /** Paths are ordered one way or another; all that matters is that the order is total. */
  ghost predicate TotalOrder(before: (Path, Path) -> bool) {
    && (forall a, b :: before(a, b) || before(b, a) || a == b)
    && (forall a, b :: !(before(a, b) && before(b, a)))
    && (forall a, b, c :: before(a, b) && before(b, c) ==> before(a, c))
  }

  type PathOrder = before: (Path, Path) -> bool | TotalOrder(before) ghost witness Bytewise()

  /** For example byte by byte. */
  ghost function Bytewise(): (before: (Path, Path) -> bool)
    ensures TotalOrder(before)
  {
    BytewiseIsTotal();
    (a, b) => Less(a, b)
  }

  /** What makes a fingerprint of an edit-set: the digest of bytes, and the order in which paths are written. */
  datatype Digest = Digest(hash: seq<byte> -> Fingerprint, before: PathOrder)

  predicate Less(a: Path, b: Path) {
    if b == [] then false
    else if a == [] then true
    else a[0] < b[0] || (a[0] == b[0] && Less(a[1..], b[1..]))
  }

  lemma {:induction false} LessTotal(a: Path, b: Path)
    ensures Less(a, b) || Less(b, a) || a == b
    ensures !(Less(a, b) && Less(b, a)) && !Less(a, a)
  {
    if a != [] && b != [] {
      LessTotal(a[1..], b[1..]);
      LessTotal(a[1..], a[1..]);
      assert a == [a[0]] + a[1..] && b == [b[0]] + b[1..];
    } else if a != [] {
      LessTotal(a[1..], a[1..]);
    }
  }

  lemma {:induction false} LessTransitive(a: Path, b: Path, c: Path)
    requires Less(a, b) && Less(b, c)
    ensures Less(a, c)
  {
    if a != [] && a[0] == b[0] && b[0] == c[0] {
      LessTransitive(a[1..], b[1..], c[1..]);
    }
  }

  lemma BytewiseIsTotal()
    ensures TotalOrder((a: Path, b: Path) => Less(a, b))
  {
    forall a: Path, b: Path
      ensures (Less(a, b) || Less(b, a) || a == b) && !(Less(a, b) && Less(b, a))
    {
      LessTotal(a, b);
    }
    forall a: Path, b: Path, c: Path | Less(a, b) && Less(b, c)
      ensures Less(a, c)
    {
      LessTransitive(a, b, c);
    }
  }

  ghost predicate IsFirst(p: Path, keys: set<Path>, before: PathOrder) {
    p in keys && forall q :: q in keys ==> q == p || before(p, q)
  }

  lemma FirstIsUnique(p: Path, q: Path, keys: set<Path>, before: PathOrder)
    requires IsFirst(p, keys, before) && IsFirst(q, keys, before)
    ensures p == q
  {
  }

  lemma {:induction false} FirstExists(keys: set<Path>, before: PathOrder)
    requires keys != {}
    ensures exists p :: IsFirst(p, keys, before)
    decreases |keys|
  {
    var x :| x in keys;
    var rest := keys - {x};
    assert rest + {x} == keys;
    if rest == {} {
      assert IsFirst(x, keys, before);
    } else {
      FirstExists(rest, before);
      var p :| IsFirst(p, rest, before);
      assert IsFirst(if before(x, p) then x else p, keys, before);
    }
  }

  // ---------- serialisation ----------

  function Entry(p: Path, c: Content): seq<byte> {
    p + [NUL] + c + [SOH]
  }

  /** Entries in path order, as an ordered map iterates. */
  ghost function Serialise(m: Files, before: PathOrder): seq<byte>
    decreases |m|
  {
    if m == map[] then []
    else
      FirstExists(m.Keys, before);
      var p :| IsFirst(p, m.Keys, before);
      RemoveShrinks(m, p);
      Entry(p, m[p]) + Serialise(m - {p}, before)
  }

  lemma SerialiseFirst(m: Files, p: Path, before: PathOrder)
    requires IsFirst(p, m.Keys, before)
    ensures Serialise(m, before) == Entry(p, m[p]) + Serialise(m - {p}, before)
  {
    var q :| IsFirst(q, m.Keys, before) && Serialise(m, before) == Entry(q, m[q]) + Serialise(m - {q}, before);
    FirstIsUnique(p, q, m.Keys, before);
  }

  ghost function FingerprintOf(d: Digest, edits: EditSet): Fingerprint {
    d.hash(Serialise(Effective(edits), d.before))
  }

  method FirstPath(m: Files, before: PathOrder) returns (p: Path)
    requires m != map[]
    ensures IsFirst(p, m.Keys, before)
  {
    p :| p in m;
    var todo := m.Keys - {p};
    while todo != {}
      invariant p in m && todo <= m.Keys
      invariant forall q :: q in m.Keys - todo ==> q == p || before(p, q)
    {
      var x :| x in todo;
      if before(x, p) { p := x; }
      todo := todo - {x};
    }
  }

  /** The content hash of the effective edit-set. */
  method ComputeFingerprint(d: Digest, edits: EditSet) returns (fp: Fingerprint)
    ensures fp == FingerprintOf(d, edits)
  {
    var latest: Files := map[];
    for i := 0 to |edits|
      invariant latest == Effective(edits[..i])
    {
      assert edits[..i + 1][..i] == edits[..i];
      latest := latest[edits[i].path := edits[i].content];
    }
    assert edits[..|edits|] == edits;
    var buf := WriteSorted(latest, d.before);
    return d.hash(buf);
  }

  lemma EntryMoves(rest: Files, p: Path, buf: seq<byte>, before: PathOrder)
    requires IsFirst(p, rest.Keys, before)
    ensures buf + Entry(p, rest[p]) + Serialise(rest - {p}, before) == buf + Serialise(rest, before)
  {
    SerialiseFirst(rest, p, before);
    Associates(buf, Entry(p, rest[p]), Serialise(rest - {p}, before));
  }

  lemma Associates(a: seq<byte>, b: seq<byte>, c: seq<byte>)
    ensures a + b + c == a + (b + c)
  {
  }

  method WriteSorted(latest: Files, before: PathOrder) returns (buf: seq<byte>)
    ensures buf == Serialise(latest, before)
  {
    buf := [];
    var rest := latest;
    while rest != map[]
      invariant buf + Serialise(rest, before) == Serialise(latest, before)
      decreases |rest|
    {
      var p := FirstPath(rest, before);
      EntryMoves(rest, p, buf, before);
      RemoveShrinks(rest, p);
      buf := buf + Entry(p, rest[p]);
      rest := rest - {p};
    }
  }

  // ---------- order and redundancy do not matter ----------

  lemma {:induction false} EffectiveAppend(a: EditSet, b: EditSet)
    ensures Effective(a + b) == Effective(a) + Effective(b)
  {
    if b == [] {
      assert a + b == a;
    } else {
      var n := |b| - 1;
      assert (a + b)[..|a| + n] == a + b[..n];
      EffectiveAppend(a, b[..n]);
    }
  }

  lemma {:induction false} EffectiveKeys(edits: EditSet)
    ensures Effective(edits).Keys == Paths(edits)
  {
    if edits != [] {
      var n := |edits| - 1;
      EffectiveKeys(edits[..n]);
      assert edits == edits[..n] + [edits[n]];
    }
  }

  lemma EffectiveOne(e: FileEdit)
    ensures Effective([e]) == map[e.path := e.content]
  {
    assert [e][..0] == [];
  }

  /** The last entry for this path. */
  ghost predicate WrittenLastAt(edits: EditSet, p: Path, i: nat) {
    i < |edits| && edits[i].path == p && forall j | i < j < |edits| :: edits[j].path != p
  }

  /** The same paths, with the same content in the last entry for each. */
  ghost predicate SameLastWrites(a: EditSet, b: EditSet) {
    && Paths(a) == Paths(b)
    && forall p, i: nat, j: nat :: WrittenLastAt(a, p, i) && WrittenLastAt(b, p, j) ==> a[i].content == b[j].content
  }

  /** The effective content of a path stands in its last entry. */
  lemma {:induction false} LastWriteIsEffective(edits: EditSet, p: Path) returns (i: nat)
    requires p in Paths(edits)
    ensures WrittenLastAt(edits, p, i) && p in Effective(edits) && Effective(edits)[p] == edits[i].content
  {
    var n := |edits| - 1;
    assert edits == edits[..n] + [edits[n]];
    if edits[n].path == p {
      i := n;
    } else {
      i := LastWriteIsEffective(edits[..n], p);
      assert WrittenLastAt(edits[..n], p, i);
    }
  }

  lemma WrittenLastOnce(edits: EditSet, p: Path, i: nat, j: nat)
    requires WrittenLastAt(edits, p, i) && WrittenLastAt(edits, p, j)
    ensures i == j
  {
  }

  /** Order and redundant entries do not matter: two edit-sets have one effect exactly when the last writes are the same for every path. */
  lemma OrderIrrelevant(a: EditSet, b: EditSet, d: Digest)
    ensures Effective(a) == Effective(b) <==> SameLastWrites(a, b)
    ensures SameLastWrites(a, b) ==> FingerprintOf(d, a) == FingerprintOf(d, b)
  {
    EffectiveKeys(a);
    EffectiveKeys(b);
    if SameLastWrites(a, b) {
      forall p | p in Effective(a)
        ensures Effective(a)[p] == Effective(b)[p]
      {
        var i := LastWriteIsEffective(a, p);
        var j := LastWriteIsEffective(b, p);
      }
    } else if Paths(a) == Paths(b) {
      var p, i: nat, j: nat :| WrittenLastAt(a, p, i) && WrittenLastAt(b, p, j) && a[i].content != b[j].content;
      assert a[i] in a && b[j] in b;
      var i' := LastWriteIsEffective(a, p);
      var j' := LastWriteIsEffective(b, p);
      WrittenLastOnce(a, p, i, i');
      WrittenLastOnce(b, p, j, j');
    }
  }

  /** An entry that a later entry overwrites can be left out. */
  lemma OverwrittenIrrelevant(a: EditSet, e: FileEdit, b: EditSet)
    requires e.path in Paths(b)
    ensures Effective(a + ([e] + b)) == Effective(a + b)
  {
    assert Effective([e] + b) == Effective(b) by {
      EffectiveOne(e);
      EffectiveAppend([e], b);
      EffectiveKeys(b);
    }
    EffectiveAppend(a, [e] + b);
    EffectiveAppend(a, b);
  }

  // ---------- the serialisation decodes ----------

  function IndexOfByte(s: seq<byte>, b: byte): (i: nat)
    ensures i <= |s| && (i < |s| ==> s[i] == b) && forall k :: 0 <= k < i ==> s[k] != b
  {
    if s == [] || s[0] == b then 0 else 1 + IndexOfByte(s[1..], b)
  }

  function Decode(buf: seq<byte>): Files
    decreases |buf|, 1
  {
    var i := IndexOfByte(buf, NUL);
    if i == |buf| then map[] else DecodeContent(buf[..i], buf[i + 1..])
  }

  /** A path has been read; its content ends at the next U+0001. */
  function DecodeContent(p: Path, rest: seq<byte>): Files
    decreases |rest|, 2
  {
    var j := IndexOfByte(rest, SOH);
    if j == |rest| then map[] else Decode(rest[j + 1..])[p := rest[..j]]
  }

  /** Paths without NUL (the system has no others) and contents without U+0001. */
  predicate Clean(m: Files) {
    forall p | p in m :: NUL !in p && SOH !in m[p]
  }

  lemma FindsSeparator(front: seq<byte>, b: byte, rest: seq<byte>)
    requires b !in front
    ensures IndexOfByte(front + [b] + rest, b) == |front|
    ensures (front + [b] + rest)[..|front|] == front && (front + [b] + rest)[|front| + 1..] == rest
  {
    var s := front + [b] + rest;
    assert forall k :: 0 <= k < |front| ==> s[k] == front[k];
    assert s[|front|] == b;
  }

  lemma EntryParts(p: Path, c: Content, rest: seq<byte>)
    ensures Entry(p, c) + rest == p + [NUL] + (c + [SOH] + rest)
  {
  }

  lemma DecodeEntry(p: Path, c: Content, rest: seq<byte>)
    requires NUL !in p && SOH !in c
    ensures Decode(Entry(p, c) + rest) == Decode(rest)[p := c]
  {
    var tail := c + [SOH] + rest;
    EntryParts(p, c, rest);
    FindsSeparator(p, NUL, tail);
    FindsSeparator(c, SOH, rest);
    assert DecodeContent(p, tail) == Decode(rest)[p := c];
  }

  lemma DecodeStep(m: Files, p: Path, rest: seq<byte>)
    requires p in m && Clean(m) && Decode(rest) == m - {p}
    ensures Decode(Entry(p, m[p]) + rest) == m
  {
    DecodeEntry(p, m[p], rest);
    assert (m - {p})[p := m[p]] == m;
  }

  lemma {:induction false} DecodeSerialise(m: Files, before: PathOrder)
    requires Clean(m)
    ensures Decode(Serialise(m, before)) == m
    decreases |m|
  {
    if m != map[] {
      FirstExists(m.Keys, before);
      var p :| IsFirst(p, m.Keys, before);
      RemoveShrinks(m, p);
      DecodeSerialise(m - {p}, before);
      DecodeStep(m, p, Serialise(m - {p}, before));
      SerialiseFirst(m, p, before);
    }
  }

  /** For clean edit-sets the serialisation is the identity of the effective map: equal exactly when the maps are. */
  lemma SameBytesSameEffect(a: EditSet, b: EditSet, before: PathOrder)
    requires Clean(Effective(a)) && Clean(Effective(b))
    ensures Serialise(Effective(a), before) == Serialise(Effective(b), before) <==> Effective(a) == Effective(b)
  {
    DecodeSerialise(Effective(a), before);
    DecodeSerialise(Effective(b), before);
  }

  lemma SerialiseOne(p: Path, c: Content, before: PathOrder)
    ensures Serialise(map[p := c], before) == Entry(p, c)
  {
    var m: Files := map[p := c];
    assert IsFirst(p, m.Keys, before);
    SerialiseFirst(m, p, before);
    assert m - {p} == map[];
    assert Entry(p, c) + [] == Entry(p, c);
  }

  lemma SerialiseTwo(p: Path, x: Content, q: Path, y: Content, before: PathOrder)
    requires before(p, q)
    ensures p != q && Serialise(map[p := x, q := y], before) == Entry(p, x) + Entry(q, y)
  {
    var m: Files := map[p := x, q := y];
    assert IsFirst(p, m.Keys, before);
    SerialiseFirst(m, p, before);
    assert m - {p} == map[q := y];
    SerialiseOne(q, y, before);
  }

  lemma EffectiveTwo(e: FileEdit, f: FileEdit)
    ensures Effective([e, f]) == map[e.path := e.content, f.path := f.content]
  {
    assert [e, f][..1] == [e];
    EffectiveOne(e);
  }

  /**
   * Why the contents must be clean: whatever two files hold, one file whose content is the first
   * one's, the separators and the second one's is serialised to the same bytes.
   */
  lemma SeparatorsCollide(p: Path, x: Content, q: Path, y: Content, before: PathOrder)
    requires before(p, q)
    ensures var one := [FileEdit(p, x + [SOH] + q + [NUL] + y)];
            var two := [FileEdit(p, x), FileEdit(q, y)];
            Effective(one) != Effective(two) && Serialise(Effective(one), before) == Serialise(Effective(two), before)
  {
    var c := x + [SOH] + q + [NUL] + y;
    EffectiveOne(FileEdit(p, c));
    EffectiveTwo(FileEdit(p, x), FileEdit(q, y));
    SerialiseOne(p, c, before);
    SerialiseTwo(p, x, q, y, before);
    EntriesJoin(p, x, q, y);
    assert q !in map[p := c] && q in map[p := x, q := y];
  }

  lemma EntriesJoin(p: Path, x: Content, q: Path, y: Content)
    ensures Entry(p, x + [SOH] + q + [NUL] + y) == Entry(p, x) + Entry(q, y)
  {
  }
}
