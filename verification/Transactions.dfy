/**
 * All-or-nothing application of an edit-set to the files: snapshot, apply, commit, rollback
 * and drop; and exactly when a rollback or a failed apply leaves every file as it was.
 */
module Transactions {
  import opened Common
  import opened EditSets

  /** Where, if anywhere, the system refuses: making a parent directory, or writing a file (perhaps half-way). */
  datatype Fault =
    | NoFault
    | MkdirRefused(at: nat)
    | WriteRefused(at: nat, torn: Option<Content>)

  type Snapshot = map<Path, Option<Content>>

  // ---------- specification ----------

  /** Bytes before the transaction; `None` for a file that was missing or could not be read. */
  ghost function Snap(fs: Files, edits: EditSet, unreadable: set<Path>): Snapshot {
    map p | p in Paths(edits) :: Readable(fs, p, unreadable)
  }

  function Readable(fs: Files, p: Path, unreadable: set<Path>): Option<Content> {
    if p in fs && p !in unreadable then Some(fs[p]) else None
  }

  ghost function Restore(fs: Files, snapshot: Snapshot): Files {
    map p | p in fs.Keys + snapshot.Keys && (p in snapshot ==> snapshot[p].Some?) ::
      if p in snapshot then snapshot[p].value else fs[p]
  }

  ghost function Tear(fs: Files, p: Path, torn: Option<Content>): Files {
    if torn.Some? then fs[p := torn.value] else fs
  }

  predicate Succeeds(edits: EditSet, fault: Fault) {
    fault.NoFault? || fault.at >= |edits|
  }

  /** The files after `apply`, whether it succeeds or not. */
  ghost function Applied(fs: Files, edits: EditSet, unreadable: set<Path>, fault: Fault): Files {
    if Succeeds(edits, fault) then fs + Effective(edits)
    else match fault
      case MkdirRefused(i) => fs + Effective(edits[..i])
      case WriteRefused(i, torn) =>
        Restore(Tear(fs + Effective(edits[..i]), edits[i].path, torn), Snap(fs, edits[..i + 1], unreadable))
  }

  lemma PathsExtend(edits: EditSet, i: nat)
    requires i < |edits|
    ensures Paths(edits[..i + 1]) == Paths(edits[..i]) + {edits[i].path}
  {
    assert edits[..i + 1] == edits[..i] + [edits[i]];
  }

  /** A file's bytes are remembered the first time it is targeted. */
  ghost function Saved(was: Snapshot, now: Files, p: Path, unreadable: set<Path>): Snapshot {
    if p in was then was else was[p := Readable(now, p, unreadable)]
  }

  /** One more edit: one more overlay, and one more snapshot entry unless its file was targeted before. */
  lemma OverlayExtends(fs: Files, edits: EditSet, i: nat)
    requires i < |edits|
    ensures fs + Effective(edits[..i + 1]) == (fs + Effective(edits[..i]))[edits[i].path := edits[i].content]
  {
    assert edits[..i + 1][..i] == edits[..i];
  }

  lemma SnapshotExtends(fs: Files, edits: EditSet, i: nat, unreadable: set<Path>)
    requires i < |edits|
    ensures var p := edits[i].path;
            Snap(fs, edits[..i + 1], unreadable) == Saved(Snap(fs, edits[..i], unreadable), fs + Effective(edits[..i]), p, unreadable)
  {
    PathsExtend(edits, i);
    EffectiveKeys(edits[..i]);
  }

  // ---------- the objects ----------

  class Disk {
    var files: Files

    constructor (files: Files)
      ensures this.files == files
    {
      this.files := files;
    }
  }

  class Transaction {
    const disk: Disk
    var snapshot: Snapshot
    var applied: bool

    constructor Begin(disk: Disk)
      ensures this.disk == disk && snapshot == map[] && !applied
    {
      this.disk := disk;
      snapshot, applied := map[], false;
    }

    static method Apply(disk: Disk, edits: EditSet, unreadable: set<Path>, fault: Fault) returns (tx: Transaction?)
      modifies disk
      ensures disk.files == Applied(old(disk.files), edits, unreadable, fault)
      ensures tx != null <==> Succeeds(edits, fault)
      ensures tx != null ==> fresh(tx) && tx.disk == disk && tx.applied
      ensures tx != null ==> tx.snapshot == Snap(old(disk.files), edits, unreadable)
    {
      tx := new Transaction.Begin(disk);
      ghost var fs := disk.files;
      for i := 0 to |edits|
        invariant fresh(tx) && tx.disk == disk && !tx.applied
        invariant Succeeds(edits, fault) || i <= fault.at
        invariant tx.snapshot == Snap(fs, edits[..i], unreadable)
        invariant disk.files == fs + Effective(edits[..i])
      {
        var path := edits[i].path;
        OverlayExtends(fs, edits, i);
        SnapshotExtends(fs, edits, i, unreadable);
        tx.Save(path, unreadable);
        if fault == MkdirRefused(i) { return null; }
        if fault.WriteRefused? && fault.at == i {
          tx.WriteFails(path, fault.torn);
          return null;
        }
        disk.files := disk.files[path := edits[i].content];
      }
      assert edits[..|edits|] == edits;
      tx.applied := true;
    }

    /** A write that fails, perhaps leaving a torn file, is undone together with all before it. */
    method WriteFails(path: Path, torn: Option<Content>)
      modifies this, disk
      ensures disk.files == Restore(Tear(old(disk.files), path, torn), old(snapshot))
    {
      if torn.Some? { disk.files := disk.files[path := torn.value]; }
      Rollback();
    }

    /** Remember a file's bytes the first time it is targeted: the true state before the transaction. */
    method Save(path: Path, unreadable: set<Path>)
      modifies this`snapshot
      ensures snapshot == Saved(old(snapshot), disk.files, path, unreadable)
    {
      if path !in snapshot {
        snapshot := snapshot[path := Readable(disk.files, path, unreadable)];
      }
    }

    method Commit()
      modifies this
      ensures !applied && snapshot == map[]
    {
      applied := false;
      snapshot := map[];
    }

    method Rollback()
      modifies this, disk
      ensures !applied && snapshot == old(snapshot)
      ensures disk.files == Restore(old(disk.files), snapshot)
    {
      ghost var fs := disk.files;
      var todo := snapshot.Keys;
      while todo != {}
        invariant todo <= snapshot.Keys && snapshot == old(snapshot)
        invariant forall p :: p in snapshot.Keys - todo ==>
                    (p in disk.files <==> snapshot[p].Some?) && (p in disk.files ==> disk.files[p] == snapshot[p].value)
        invariant forall p :: p !in snapshot.Keys - todo ==>
                    (p in disk.files <==> p in fs) && (p in disk.files ==> disk.files[p] == fs[p])
      {
        var path :| path in todo;
        match snapshot[path] {
          case Some(bytes) => disk.files := disk.files[path := bytes];
          case None => disk.files := disk.files - {path};
        }
        todo := todo - {path};
      }
      assert disk.files == Restore(fs, snapshot);
      applied := false;
    }

    /** What happens when the transaction goes out of scope. */
    method Drop()
      modifies this, disk
      ensures !applied
      ensures disk.files == if old(applied) then Restore(old(disk.files), old(snapshot)) else old(disk.files)
    {
      if applied { Rollback(); }
    }
  }

  // ---------- what it guarantees ----------

  /** The targeted files that exist but cannot be read. */
  function Hidden(fs: Files, edits: EditSet, unreadable: set<Path>): set<Path> {
    set p | p in Paths(edits) && p in fs && p in unreadable
  }

  /** A rollback gives back every file except the hidden ones, which it deletes as if newly created. */
  lemma RollbackRestores(fs: Files, mid: Files, edits: EditSet, unreadable: set<Path>)
    requires forall p :: p !in Paths(edits) ==> (p in mid <==> p in fs) && (p in mid ==> mid[p] == fs[p])
    ensures Restore(mid, Snap(fs, edits, unreadable)) == fs - Hidden(fs, edits, unreadable)
  {
  }

  /** A verified-and-rejected transaction leaves every file as it was, exactly when every targeted existing file could be read. */
  lemma RejectedIsUndone(fs: Files, edits: EditSet, unreadable: set<Path>)
    ensures Restore(fs + Effective(edits), Snap(fs, edits, unreadable)) == fs <==> Hidden(fs, edits, unreadable) == {}
  {
    EffectiveKeys(edits);
    RollbackRestores(fs, fs + Effective(edits), edits, unreadable);
    var h := Hidden(fs, edits, unreadable);
    if p :| p in h {
      assert p in fs && p !in fs - h;
    }
  }

  /**
   * Exactly when an apply that fails leaves every file as it was. A failed write is undone; a
   * directory that cannot be made is not, so then nothing may have been changed before it.
   */
  lemma FailedApplyIsUndone(fs: Files, edits: EditSet, unreadable: set<Path>, fault: Fault)
    requires !Succeeds(edits, fault)
    ensures Applied(fs, edits, unreadable, fault) == fs <==>
      match fault
      case WriteRefused(i, _) => Hidden(fs, edits[..i + 1], unreadable) == {}
      case MkdirRefused(i) => forall p :: p in Effective(edits[..i]) ==> p in fs && fs[p] == Effective(edits[..i])[p]
  {
    match fault {
      case WriteRefused(i, torn) =>
        var tried := edits[..i + 1];
        PathsExtend(edits, i);
        EffectiveKeys(edits[..i]);
        RollbackRestores(fs, Tear(fs + Effective(edits[..i]), edits[i].path, torn), tried, unreadable);
        var h := Hidden(fs, tried, unreadable);
        if p :| p in h {
          assert p in fs && p !in fs - h;
        }
      case MkdirRefused(i) =>
        var m := Effective(edits[..i]);
        if fs + m == fs {
          forall p | p in m ensures p in fs && fs[p] == m[p] {
            assert p in fs + m && (fs + m)[p] == m[p];
          }
        }
    }
  }
}
