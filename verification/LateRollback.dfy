/**
  A rollback that begins after the metadata was replaced, from the first system call to the crash.

  `Transactions.RollbackBoundary` says when such a rollback cannot be interrupted safely; here the
  failing side is reached, call by call, from every clean disk and for every unit that appends to one
  log: the transaction runs up to the rename of the metadata, the directory sync after it fails, and
  the rollback is interrupted after its first call.
*/
module LateRollback {
  import opened Wrappers
  import opened Splitting
  import opened FileSystem
  import opened Transactions

  /** Every call of the list can succeed when its turn comes, and is one the session store makes. */
  ghost predicate Taken(fs: Fs, ops: seq<Syscall>) {
    ops == [] ||
    var n := |ops| - 1;
    Taken(fs, ops[..n]) && Enabled(After(fs, ops[..n]), ops[n]) && Disciplined(After(fs, ops[..n]), ops[n])
  }

  lemma {:induction false} TakenAppend(fs: Fs, a: seq<Syscall>, b: seq<Syscall>)
    requires Taken(fs, a) && Taken(After(fs, a), b)
    ensures Taken(fs, a + b) && After(fs, a + b) == After(After(fs, a), b)
  {
    AfterAppend(fs, a, b);
    if b == [] {
      assert a + b == a;
    } else {
      var n := |b| - 1;
      assert (a + b)[..|a| + n] == a + b[..n];
      TakenAppend(fs, a, b[..n]);
    }
  }

  lemma OneTaken(fs: Fs, op: Syscall)
    requires Sound(fs) && Enabled(fs, op) && Disciplined(fs, op)
    ensures Taken(fs, [op]) && After(fs, [op]) == Apply(fs, op) && Sound(Apply(fs, op))
    ensures forall n :: Read(Apply(fs, op), n) == ReadAfter(fs, op, n)
  {
    var one := [op];
    assert one[..0] == [] && Taken(fs, one[..0]) && After(fs, one[..0]) == fs;
    ApplySound(fs, op);
  }

  // ----- Replacing one file -----

  /** The state-changing calls of `write_serialized`. Syncing the directory changes nothing, so the list is
      the same whether that succeeds or fails. */
  function Serialized(serial: nat, name: Name, content: Content): seq<Syscall> {
    var t := Temporary(serial);
    [Create(t)] + [Fill(t, content)] + [Rename(t, name)] + [Unlink(t)]
  }

  lemma SerializedReplaces(fs: Fs, name: Name, content: Content) returns (g: Fs)
    requires Sound(fs) && !name.Temporary? && !name.Log?
    ensures var ops := Serialized(fs.nextInode, name, content);
            Taken(fs, ops) && g == After(fs, ops)
    ensures Sound(g) && Replaced(fs, g, name, content) && g.nextInode == fs.nextInode + 1
  {
    var t := Temporary(fs.nextInode);
    TemporaryUnused(fs);
    hide Taken, After, WellFormed, Separate;
    OneTaken(fs, Create(t));
    var g1 := Apply(fs, Create(t));
    OneTaken(g1, Fill(t, content));
    var g2 := Apply(g1, Fill(t, content));
    OneTaken(g2, Rename(t, name));
    var g3 := Apply(g2, Rename(t, name));
    OneTaken(g3, Unlink(t));
    g := Apply(g3, Unlink(t));
    TakenAppend(fs, [Create(t)], [Fill(t, content)]);
    TakenAppend(fs, [Create(t)] + [Fill(t, content)], [Rename(t, name)]);
    TakenAppend(fs, [Create(t)] + [Fill(t, content)] + [Rename(t, name)], [Unlink(t)]);
    TemporaryIsAlone(fs, g2, t, name);
  }

  lemma TemporaryIsAlone(fs: Fs, g: Fs, t: Name, name: Name)
    requires Sound(g) && t.Temporary? && !name.Temporary?
    ensures !SameFile(g, t, name)
  {
  }

  // ----- A unit that appends to one log -----

  function Preparation(v: View, f: LogFile): MarkerRecord
    requires f in v.logs
  {
    MarkerRecord(Prepared, [(f, |v.logs[f]|)], false, Digest(v.metadata), None, None)
  }

  function Announcement(v: View, f: LogFile, metadata: seq<byte>): MarkerRecord
    requires f in v.logs
  {
    Preparation(v, f).(state := EvidenceWritten, expectedMetadata := Some(Digest(metadata)))
  }

  function Beginning(fs: Fs, v: View, f: LogFile): seq<Syscall>
    requires f in v.logs
  {
    [Link(Metadata, MetadataBackup)] + Serialized(fs.nextInode, Marker, Json(Preparation(v, f)))
  }

  function Body(fs: Fs, v: View, f: LogFile, data: seq<byte>, metadata: seq<byte>): seq<Syscall>
    requires f in v.logs
  {
    [Write(Log(f), data)]
    + Serialized(fs.nextInode + 1, Marker, Json(Announcement(v, f, metadata)))
    + Serialized(fs.nextInode + 2, Metadata, Bytes(metadata))
  }

  lemma BackupTaken(fs: Fs, v: View, f: LogFile) returns (g: Fs)
    requires Clean(fs, v)
    ensures var link := Link(Metadata, MetadataBackup); Taken(fs, [link]) && g == After(fs, [link])
    ensures Sound(g) && g.nextInode == fs.nextInode
    ensures f in v.logs && Preparing(g, Preparation(v, f), v, false) && BackedUp(g, Preparation(v, f), v)
  {
    hide Taken, After, Separate;
    var link := Link(Metadata, MetadataBackup);
    assert Holds(fs, Metadata, v.metadata);
    assert MetadataBackup !in fs.names;
    OneTaken(fs, link);
    g := Apply(fs, link);
    assert forall x: LogFile :: Holds(fs, Log(x), v.logs[x]) ==> Holds(g, Log(x), v.logs[x]);
  }

  /** `begin_evidence_transaction` leads to the body. */
  lemma BeginningTaken(fs: Fs, v: View, f: LogFile) returns (g: Fs)
    requires Clean(fs, v)
    ensures Taken(fs, Beginning(fs, v, f)) && g == After(fs, Beginning(fs, v, f))
    ensures InBody(g, Preparation(v, f), v) && Shows(g, v) && g.nextInode == fs.nextInode + 1
  {
    hide Taken, After, Sound, Apply, Shows, Clean, Serialized, InBody, Preparing, BackedUp, Replaced;
    var linked := BackupTaken(fs, v, f);
    var m, link := Preparation(v, f), Link(Metadata, MetadataBackup);
    g := SerializedReplaces(linked, Marker, Json(m));
    TakenAppend(fs, [link], Serialized(fs.nextInode, Marker, Json(m)));
    MarkerPrepared(linked, g, m, v, true);
    PreparationSettles(g, m, v, true);
  }

  lemma AppendTaken(g: Fs, v: View, f: LogFile, data: seq<byte>) returns (h: Fs)
    requires Total(v) && InBody(g, Preparation(v, f), v) && Shows(g, v)
    ensures Taken(g, [Write(Log(f), data)]) && h == After(g, [Write(Log(f), data)])
    ensures InBody(h, Preparation(v, f), v) && Sound(h) && h.nextInode == g.nextInode
    ensures LogIs(g, h, f, v.logs[f] + data)
  {
    hide Taken, After, WellFormed, Separate, LogUndoable;
    var m, write := Preparation(v, f), Write(Log(f), data);
    assert Holds(g, Log(f), v.logs[f]);
    assert m.appendOffsets[0].0 == f;
    OneTaken(g, write);
    h := Apply(g, write);
    AppendKeepsBody(g, h, m, v, f, v.logs[f] + data);
  }

  /** The body runs to its end: all-new is shown and the marker is effective. */
  lemma BodyTaken(fs: Fs, g: Fs, v: View, f: LogFile, data: seq<byte>, metadata: seq<byte>) returns (h: Fs)
    requires Total(v) && InBody(g, Preparation(v, f), v) && Shows(g, v) && g.nextInode == fs.nextInode + 1
    ensures Taken(g, Body(fs, v, f, data, metadata)) && h == After(g, Body(fs, v, f, data, metadata))
    ensures var d := Announcement(v, f, metadata);
            InBody(h, d, v) && Effective(h, d) && Shows(h, NewView(v, Unit([(f, data)], None, metadata)))
  {
    hide Taken, After, WellFormed, Separate, InBody, AppendAll, Shows, NewView, Apply, Serialized;
    var m, d, write := Preparation(v, f), Announcement(v, f, metadata), Write(Log(f), data);
    var g1 := AppendTaken(g, v, f, data);
    var g2 := SerializedReplaces(g1, Marker, Json(d));
    MarkerKeepsBody(g1, g2, m, d, v);
    h := SerializedReplaces(g2, Metadata, Bytes(metadata));
    MetadataKeepsBody(g2, h, d, v, metadata);
    var announcing, replacing := Serialized(fs.nextInode + 1, Marker, Json(d)), Serialized(fs.nextInode + 2, Metadata, Bytes(metadata));
    TakenAppend(g, [write], announcing);
    TakenAppend(g, [write] + announcing, replacing);
    NewShown(g, h, v, f, data, metadata);
  }

  lemma NewShown(g: Fs, h: Fs, v: View, f: LogFile, data: seq<byte>, metadata: seq<byte>)
    requires Total(v) && Shows(g, v) && Holds(h, Metadata, metadata) && Holds(h, Log(f), v.logs[f] + data)
    requires Read(h, Patterns) == Read(g, Patterns)
    requires forall x: LogFile :: x != f ==> Read(h, Log(x)) == Read(g, Log(x))
    ensures Shows(h, NewView(v, Unit([(f, data)], None, metadata)))
  {
    var appends := [(f, data)];
    assert appends[..0] == [];
    assert AppendAll(v.logs, appends) == v.logs[f := v.logs[f] + data];
    assert forall x: LogFile :: Holds(g, Log(x), v.logs[x]);
  }

  // ----- The rollback that comes too late -----

  /** From every clean disk: the unit's calls lead to a state in which a failing sync makes the session
      store roll back, and if that rollback is interrupted after its first call, recovery brings back
      neither the old nor the new evidence, but the old logs under the new metadata. */
  lemma LateRollbackBreaks(fs: Fs, v: View, f: LogFile, data: seq<byte>, metadata: seq<byte>) returns (g: Fs, h: Fs)
    requires Clean(fs, v) && data != [] && metadata != v.metadata
    ensures var ops := Beginning(fs, v, f) + Body(fs, v, f, data, metadata);
            Taken(fs, ops) && g == After(fs, ops)
    ensures var d, new' := Announcement(v, f, metadata), NewView(v, Unit([(f, data)], None, metadata));
            && CanRollBack(g, d, v) && Read(g, Marker) == Some(Json(d)) && Effective(g, d) && Shows(g, new')
            && h == After(g, [Truncate(Log(f), |v.logs[f]|)]) && ReachedBy(g, RollbackCalls(g, d), h)
            && !Settles(h, v) && !Settles(h, new')
            && Settles(h, v.(metadata := metadata))
  {
    var d, new' := Announcement(v, f, metadata), NewView(v, Unit([(f, data)], None, metadata));
    var begun := BeginningTaken(fs, v, f);
    g := BodyTaken(fs, begun, v, f, data, metadata);
    TakenAppend(fs, Beginning(fs, v, f), Body(fs, v, f, data, metadata));
    hide Taken, Beginning, Body, WellFormed, Separate;
    var ops := RollbackCalls(g, d);
    assert PatternsStep(g, d) == [];
    assert ops[..1] == [Truncate(Log(f), |v.logs[f]|)];
    h := After(g, ops[..1]);
    assert ReachedBy(g, ops, h);
    RollbackStages(g, d, v, 1);
    LogsDiffer(v, f, data, metadata);
    MixedStageIsNeither(g, d, v, new', 1, h);
    MixedSettles(g, h, d, v, metadata);
  }

  lemma LogsDiffer(v: View, f: LogFile, data: seq<byte>, metadata: seq<byte>)
    requires Total(v) && data != []
    ensures NewView(v, Unit([(f, data)], None, metadata)).logs != v.logs
    ensures NewView(v, Unit([(f, data)], None, metadata)).metadata == metadata
  {
    var appends := [(f, data)];
    assert appends[..0] == [];
    assert AppendAll(v.logs, appends)[f] == v.logs[f] + data;
    assert |v.logs[f] + data| > |v.logs[f]|;
  }

  lemma MixedSettles(g: Fs, h: Fs, d: MarkerRecord, v: View, metadata: seq<byte>)
    requires CanRollBack(g, d, v) && InRollback(g, d, v, 1, h) && |d.appendOffsets| == 1 && !d.replacePatterns
    requires Read(g, Marker) == Some(Json(d)) && d.state == EvidenceWritten && d.expectedMetadata == Some(Digest(metadata))
    requires Holds(g, Metadata, metadata)
    ensures Settles(h, v.(metadata := metadata))
  {
    assert forall x: LogFile :: Holds(h, Log(x), v.logs[x]);
  }

  // ----- A clean disk exists -----

  const EMPTY_LOGS: map<LogFile, seq<byte>> :=
    map[UartRaw := [], UartEvents := [], OperationEvents := [], HardwareEvents := [], ConnectionEvents := []]

  const NEW_SESSION := View(EMPTY_LOGS, [0], [])

  const NEW_DISK := Fs(
    map[Metadata := 0, Patterns := 1, Log(UartRaw) := 2, Log(UartEvents) := 3, Log(OperationEvents) := 4,
        Log(HardwareEvents) := 5, Log(ConnectionEvents) := 6],
    map[0 := Bytes([0]), 1 := Bytes([]), 2 := Bytes([]), 3 := Bytes([]), 4 := Bytes([]), 5 := Bytes([]), 6 := Bytes([])],
    7)

  lemma NewDiskIsSound()
    ensures Sound(NEW_DISK)
  {
    var fs := NEW_DISK;
    forall n | n in fs.names
      ensures fs.names[n] in fs.files && !n.Temporary?
    {
    }
    forall a, b | SameFile(fs, a, b)
      ensures a == b
    {
    }
  }

  lemma NewDiskIsClean()
    ensures Clean(NEW_DISK, NEW_SESSION)
  {
    hide Sound;
    NewDiskIsSound();
    forall f: LogFile
      ensures f in EMPTY_LOGS && EMPTY_LOGS[f] == [] && Read(NEW_DISK, Log(f)) == Some(Bytes([]))
    {
      match f case UartRaw => case UartEvents => case OperationEvents => case HardwareEvents => case ConnectionEvents =>
    }
  }

  /** One received byte in a new session is enough. */
  lemma LateRollbackHappens() returns (g: Fs, h: Fs)
    ensures Clean(NEW_DISK, NEW_SESSION)
    ensures var d, new' := Announcement(NEW_SESSION, UartRaw, [1]), NewView(NEW_SESSION, Unit([(UartRaw, [7])], None, [1]));
            && g == After(NEW_DISK, Beginning(NEW_DISK, NEW_SESSION, UartRaw) + Body(NEW_DISK, NEW_SESSION, UartRaw, [7], [1]))
            && CanRollBack(g, d, NEW_SESSION) && Effective(g, d) && Shows(g, new')
            && ReachedBy(g, RollbackCalls(g, d), h) && !Settles(h, NEW_SESSION) && !Settles(h, new')
  {
    hide Taken, After, Settles, CanRollBack, Clean, Effective, NewView, Shows, RollbackCalls, ReachedBy, Beginning, Body;
    NewDiskIsClean();
    assert NEW_SESSION.metadata[0] == 0;
    g, h := LateRollbackBreaks(NEW_DISK, NEW_SESSION, UartRaw, [7], [1]);
  }
}
