/**
  Crash-recoverable evidence transactions.

  One evidence unit appends to several logs, may replace the detected-pattern file, and replaces
  the metadata file. `Settles(fs, v)` says that recovery started on disk `fs` brings back exactly
  the evidence `v`; it holds in every state a crash can leave behind, including a crash inside
  recovery, and no disk settles on two different views.
*/
module Transactions {
  import opened Wrappers
  import opened Splitting
  import opened FileSystem

  /** The evidence a session shows: its five logs, its metadata and its pattern file. */
  datatype View = View(logs: map<LogFile, seq<byte>>, metadata: seq<byte>, patterns: seq<byte>)

  /** One evidence unit, as the session store builds it. */
  datatype Unit = Unit(appends: seq<(LogFile, seq<byte>)>, patterns: Option<seq<byte>>, metadata: seq<byte>)

  ghost predicate Total(v: View) {
    forall f: LogFile :: f in v.logs
  }

  ghost function AppendAll(logs: map<LogFile, seq<byte>>, appends: seq<(LogFile, seq<byte>)>): map<LogFile, seq<byte>>
    requires forall f: LogFile :: f in logs
    ensures forall f: LogFile :: f in AppendAll(logs, appends)
  {
    if appends == [] then logs
    else
      var before := AppendAll(logs, appends[..|appends| - 1]);
      var (f, data) := appends[|appends| - 1];
      before[f := before[f] + data]
  }

  /** All of the unit applied to `v`. */
  ghost function NewView(v: View, unit: Unit): View
    requires Total(v)
  {
    View(AppendAll(v.logs, unit.appends), unit.metadata, if unit.patterns.Some? then unit.patterns.value else v.patterns)
  }

  ghost predicate Shows(fs: Fs, v: View) {
    && Total(v)
    && Holds(fs, Metadata, v.metadata)
    && Holds(fs, Patterns, v.patterns)
    && forall f: LogFile :: Holds(fs, Log(f), v.logs[f])
  }

  /** The evidence and no transaction bookkeeping. */
  ghost predicate Clean(fs: Fs, v: View) {
    && Sound(fs) && Shows(fs, v)
    && Read(fs, Marker) == None && Read(fs, MetadataBackup) == None && Read(fs, PatternsBackup) == None
  }

  // ----- The marker -----

  predicate Declared(m: MarkerRecord, f: LogFile) {
    exists k :: 0 <= k < |m.appendOffsets| && m.appendOffsets[k].0 == f
  }

  /** `_marker_from_json` accepts the document. */
  predicate ValidMarker(m: MarkerRecord) {
    && (m.replacePatterns <==> m.patternsBefore.Some?)
    && (m.state == Prepared <==> m.expectedMetadata.None?)
  }

  /** Two markers that undo the same unit. */
  ghost predicate SameUndo(a: MarkerRecord, b: MarkerRecord) {
    && a.appendOffsets == b.appendOffsets && a.replacePatterns == b.replacePatterns
    && a.metadataBefore == b.metadataBefore && a.patternsBefore == b.patternsBefore
  }

  /** `_metadata_matches_expected`: the metadata file is already the one the marker announces. */
  predicate MatchesExpected(fs: Fs, m: MarkerRecord) {
    HoldsBytes(fs, Metadata) && m.expectedMetadata == Some(Digest(Read(fs, Metadata).value.bytes))
  }

  /** Recovery will keep the unit rather than undo it. */
  predicate Effective(fs: Fs, m: MarkerRecord) {
    m.state == Committed || (m.state == EvidenceWritten && MatchesExpected(fs, m))
  }

  // ----- What a crash may leave behind -----

  ghost predicate LogUndoable(fs: Fs, m: MarkerRecord, v: View, f: LogFile)
    requires Total(v)
  {
    if Declared(m, f) then HoldsBytes(fs, Log(f)) && v.logs[f] <= Read(fs, Log(f)).value.bytes
    else Holds(fs, Log(f), v.logs[f])
  }

  ghost predicate Restorable(fs: Fs, target: Name, backup: Name, bytes: seq<byte>) {
    HoldsBytes(fs, target) && Holds(fs, if Read(fs, backup).Some? then backup else target, bytes)
  }

  /** The marker `m` and what is on disk suffice to bring back `v`. */
  ghost predicate Undoable(fs: Fs, m: MarkerRecord, v: View) {
    && Total(v)
    && (forall k :: 0 <= k < |m.appendOffsets| ==> m.appendOffsets[k].1 == |v.logs[m.appendOffsets[k].0]|)
    && (forall f: LogFile :: LogUndoable(fs, m, v, f))
    && m.metadataBefore == Digest(v.metadata)
    && Restorable(fs, Metadata, MetadataBackup, v.metadata)
    && (m.replacePatterns ==> m.patternsBefore == Some(Digest(v.patterns)) && Restorable(fs, Patterns, PatternsBackup, v.patterns))
    && (!m.replacePatterns ==> Holds(fs, Patterns, v.patterns))
  }

  /** Recovery from here, however often it is interrupted, ends in `Clean(_, v)`. */
  ghost predicate Settles(fs: Fs, v: View) {
    && Sound(fs)
    && match Read(fs, Marker)
       case None => Shows(fs, v)
       case Some(Json(m)) => ValidMarker(m) && if Effective(fs, m) then Shows(fs, v) else Undoable(fs, m, v)
       case _ => false
  }

  /** A disk settles on one view only, so "all-old" and "all-new" cannot be confused. */
  lemma SettlesUnique(fs: Fs, v: View, w: View)
    requires Settles(fs, v) && Settles(fs, w)
    ensures v == w
  {
    if Read(fs, Marker).Some? && !Effective(fs, Read(fs, Marker).value.marker) {
      var m := Read(fs, Marker).value.marker;
      forall f: LogFile
        ensures v.logs[f] == w.logs[f]
      {
        assert LogUndoable(fs, m, v, f) && LogUndoable(fs, m, w, f);
        if Declared(m, f) {
          var k :| 0 <= k < |m.appendOffsets| && m.appendOffsets[k].0 == f;
          assert m.appendOffsets[k].1 == |v.logs[f]| == |w.logs[f]|;
        }
      }
    }
    assert v.logs == w.logs;
  }

  /** Nothing but temporary files differs. */
  ghost predicate SameVisible(fs: Fs, g: Fs) {
    forall n: Name :: !n.Temporary? ==> Read(g, n) == Read(fs, n)
  }

  ghost predicate Replaced(fs: Fs, g: Fs, name: Name, content: Content) {
    forall n: Name :: !n.Temporary? ==> Read(g, n) == if n == name then Some(content) else Read(fs, n)
  }

  /** Removing bookkeeping from a disk that already shows `v` keeps it settled on `v`. */
  lemma UnlinkSettled(fs: Fs, g: Fs, v: View, n: Name)
    requires Settles(fs, v) && Shows(fs, v) && Sound(g)
    requires n == Marker || n == MetadataBackup || n == PatternsBackup
    requires forall x :: Read(g, x) == if x == n then None else Read(fs, x)
    ensures Settles(g, v) && Shows(g, v)
  {
    if n != Marker && Read(fs, Marker).Some? {
      var m := Read(fs, Marker).value.marker;
      assert forall f: LogFile :: LogUndoable(fs, m, v, f) ==> LogUndoable(g, m, v, f);
    }
  }

  // ----- Rollback, as the list of its state-changing calls -----

  ghost function Truncates(offsets: seq<(LogFile, nat)>): (ops: seq<Syscall>)
    ensures |ops| == |offsets|
    ensures forall k :: 0 <= k < |ops| ==> ops[k] == Truncate(Log(offsets[k].0), offsets[k].1)
  {
    seq(|offsets|, k requires 0 <= k < |offsets| => Truncate(Log(offsets[k].0), offsets[k].1))
  }

  ghost function PatternsStep(fs: Fs, m: MarkerRecord): seq<Syscall> {
    if m.replacePatterns && Read(fs, PatternsBackup).Some? then [Rename(PatternsBackup, Patterns)] else []
  }

  ghost function MetadataStep(fs: Fs): seq<Syscall> {
    if Read(fs, MetadataBackup).Some? then [Rename(MetadataBackup, Metadata)] else []
  }

  const CLEANUP := [Unlink(MetadataBackup), Unlink(PatternsBackup), Unlink(Marker)]

  ghost function RollbackCalls(fs: Fs, m: MarkerRecord): seq<Syscall> {
    Truncates(m.appendOffsets) + PatternsStep(fs, m) + MetadataStep(fs) + CLEANUP
  }

  ghost function After(fs: Fs, ops: seq<Syscall>): Fs {
    if ops == [] then fs
    else
      var g := After(fs, ops[..|ops| - 1]);
      if Enabled(g, ops[|ops| - 1]) then Apply(g, ops[|ops| - 1]) else g
  }

  ghost predicate ReachedBy(fs: Fs, ops: seq<Syscall>, g: Fs) {
    exists k :: 0 <= k <= |ops| && g == After(fs, ops[..k])
  }

  /** Where rollback may begin: an undo marker on disk and everything needed to undo. */
  ghost predicate CanRollBack(fs: Fs, m: MarkerRecord, v: View) {
    && Sound(fs) && Undoable(fs, m, v)
    && Read(fs, Marker).Some? && Read(fs, Marker).value.Json?
    && ValidMarker(Read(fs, Marker).value.marker) && SameUndo(Read(fs, Marker).value.marker, m)
  }

  ghost predicate LogsRestored(g: Fs, v: View)
    requires Total(v)
  {
    forall f: LogFile :: Holds(g, Log(f), v.logs[f])
  }

  /** The disk `g` after the first `k` rollback calls from `fs`. */
  ghost predicate InRollback(fs: Fs, m: MarkerRecord, v: View, k: nat, g: Fs)
    requires CanRollBack(fs, m, v)
  {
    var nT := |m.appendOffsets|;
    var nP := nT + |PatternsStep(fs, m)|;
    var nM := nP + |MetadataStep(fs)|;
    && Sound(g)
    && (k <= nM ==> CanRollBack(g, m, v) && Read(g, Marker) == Read(fs, Marker))
    && (k <= nT ==> forall n: Name :: !n.Log? ==> Read(g, n) == Read(fs, n))
    && (k <= nT ==> forall j :: 0 <= j < k ==> Holds(g, Log(m.appendOffsets[j].0), v.logs[m.appendOffsets[j].0]))
    && (forall f: LogFile :: Read(g, Log(f)) == Read(fs, Log(f)) || Holds(g, Log(f), v.logs[f]))
    && (k <= nP ==> Read(g, Metadata) == Read(fs, Metadata) && Read(g, MetadataBackup) == Read(fs, MetadataBackup))
    && (k >= nT ==> LogsRestored(g, v))
    && (k >= nP ==> Holds(g, Patterns, v.patterns))
    && (k >= nM ==> Shows(g, v) && Settles(g, v))
  }

  lemma AllLogsRestored(g: Fs, m: MarkerRecord, v: View)
    requires Undoable(g, m, v)
    requires forall j :: 0 <= j < |m.appendOffsets| ==> Holds(g, Log(m.appendOffsets[j].0), v.logs[m.appendOffsets[j].0])
    ensures LogsRestored(g, v)
  {
    forall f: LogFile
      ensures Holds(g, Log(f), v.logs[f])
    {
      assert LogUndoable(g, m, v, f);
    }
  }

  /** A disk that shows `v` under an undo marker for `v` is settled on it either way. */
  lemma ShownSettles(g: Fs, m: MarkerRecord, v: View)
    requires CanRollBack(g, m, v) && Shows(g, v)
    ensures Settles(g, v)
  {
    var d := Read(g, Marker).value.marker;
    assert forall f: LogFile :: LogUndoable(g, m, v, f) ==> LogUndoable(g, d, v, f);
  }

  lemma RollbackBegins(fs: Fs, m: MarkerRecord, v: View)
    requires CanRollBack(fs, m, v)
    ensures InRollback(fs, m, v, 0, fs)
  {
    if |m.appendOffsets| == 0 {
      AllLogsRestored(fs, m, v);
      if Read(fs, MetadataBackup).None? && PatternsStep(fs, m) == [] {
        ShownSettles(fs, m, v);
      }
    }
  }

  lemma NextTruncate(fs: Fs, m: MarkerRecord, v: View, k: nat, g: Fs)
    requires CanRollBack(fs, m, v) && InRollback(fs, m, v, k, g) && k < |m.appendOffsets|
    ensures var op := Truncate(Log(m.appendOffsets[k].0), m.appendOffsets[k].1);
            Enabled(g, op) && Disciplined(g, op) && InRollback(fs, m, v, k + 1, Apply(g, op))
  {
    var (f, length) := m.appendOffsets[k];
    var op := Truncate(Log(f), length);
    TruncateEnabled(m, v, k, g);
    ApplySound(g, op);
    var h := Apply(g, op);
    LogCutBack(g, h, m, v, f);
    if k + 1 == |m.appendOffsets| {
      hide Apply, CanRollBack, Sound, Shows;
      TruncatesDone(fs, m, v, h);
    }
    hide Apply, CanRollBack, Sound, Shows, Settles, LogsRestored;
  }

  lemma TruncateEnabled(m: MarkerRecord, v: View, k: nat, g: Fs)
    requires CanRollBack(g, m, v) && k < |m.appendOffsets|
    ensures var (f, length) := m.appendOffsets[k];
            HoldsBytes(g, Log(f)) && length <= |Read(g, Log(f)).value.bytes| && Read(g, Log(f)).value.bytes[..length] == v.logs[f]
  {
    var (f, length) := m.appendOffsets[k];
    assert LogUndoable(g, m, v, f) && Declared(m, f);
  }

  /** Cutting one declared log back to its saved length keeps everything rollback needs. */
  lemma LogCutBack(g: Fs, h: Fs, m: MarkerRecord, v: View, f: LogFile)
    requires CanRollBack(g, m, v) && Sound(h)
    requires forall n :: Read(h, n) == if n == Log(f) then Some(Bytes(v.logs[f])) else Read(g, n)
    ensures CanRollBack(h, m, v)
  {
    hide Sound;
    forall x: LogFile
      ensures LogUndoable(h, m, v, x)
    {
      assert LogUndoable(g, m, v, x);
    }
  }

  lemma TruncatesDone(fs: Fs, m: MarkerRecord, v: View, h: Fs)
    requires CanRollBack(fs, m, v) && CanRollBack(h, m, v)
    requires forall n: Name :: !n.Log? ==> Read(h, n) == Read(fs, n)
    requires forall j :: 0 <= j < |m.appendOffsets| ==> Holds(h, Log(m.appendOffsets[j].0), v.logs[m.appendOffsets[j].0])
    ensures LogsRestored(h, v)
    ensures PatternsStep(fs, m) == [] ==> Holds(h, Patterns, v.patterns)
    ensures PatternsStep(fs, m) == [] && Read(fs, MetadataBackup).None? ==> Shows(h, v) && Settles(h, v)
  {
    AllLogsRestored(h, m, v);
    if Read(fs, MetadataBackup).None? && PatternsStep(fs, m) == [] {
      ShownSettles(h, m, v);
    }
  }

  lemma NextPatterns(fs: Fs, m: MarkerRecord, v: View, g: Fs)
    requires CanRollBack(fs, m, v) && InRollback(fs, m, v, |m.appendOffsets|, g)
    requires m.replacePatterns && Read(fs, PatternsBackup).Some?
    ensures var op := Rename(PatternsBackup, Patterns);
            Enabled(g, op) && Disciplined(g, op) && InRollback(fs, m, v, |m.appendOffsets| + 1, Apply(g, op))
  {
    var op := Rename(PatternsBackup, Patterns);
    ApplySound(g, op);
    var h := Apply(g, op);
    PatternsRestored(g, h, m, v);
    if Read(fs, MetadataBackup).None? {
      ShownSettles(h, m, v);
    }
    hide Apply, CanRollBack, Sound, Settles, LogsRestored;
  }

  /** The backup now stands for the pattern file, or both names still do. */
  lemma PatternsRestored(g: Fs, h: Fs, m: MarkerRecord, v: View)
    requires CanRollBack(g, m, v) && Sound(h) && m.replacePatterns && Read(g, PatternsBackup).Some?
    requires forall n :: n != Patterns && n != PatternsBackup ==> Read(h, n) == Read(g, n)
    requires Read(h, Patterns) == Read(g, PatternsBackup)
    requires Read(h, PatternsBackup).None? || Read(h, PatternsBackup) == Read(g, PatternsBackup)
    ensures CanRollBack(h, m, v) && Holds(h, Patterns, v.patterns)
  {
    hide Sound;
    forall x: LogFile
      ensures LogUndoable(h, m, v, x)
    {
      assert LogUndoable(g, m, v, x);
    }
  }

  lemma NextMetadata(fs: Fs, m: MarkerRecord, v: View, g: Fs)
    requires CanRollBack(fs, m, v) && InRollback(fs, m, v, |m.appendOffsets| + |PatternsStep(fs, m)|, g)
    requires Read(fs, MetadataBackup).Some?
    ensures var op := Rename(MetadataBackup, Metadata);
            Enabled(g, op) && Disciplined(g, op) && InRollback(fs, m, v, |m.appendOffsets| + |PatternsStep(fs, m)| + 1, Apply(g, op))
  {
    var op := Rename(MetadataBackup, Metadata);
    ApplySound(g, op);
    var h := Apply(g, op);
    MetadataRestored(g, h, m, v);
    ShownSettles(h, m, v);
    hide Apply, CanRollBack, Sound, Settles, LogsRestored;
  }

  lemma MetadataRestored(g: Fs, h: Fs, m: MarkerRecord, v: View)
    requires CanRollBack(g, m, v) && LogsRestored(g, v) && Holds(g, Patterns, v.patterns)
    requires Sound(h) && Read(g, MetadataBackup).Some?
    requires forall n :: n != Metadata && n != MetadataBackup ==> Read(h, n) == Read(g, n)
    requires Read(h, Metadata) == Read(g, MetadataBackup)
    requires Read(h, MetadataBackup).None? || Read(h, MetadataBackup) == Read(g, MetadataBackup)
    ensures CanRollBack(h, m, v) && Shows(h, v) && LogsRestored(h, v)
  {
    hide Sound;
    forall x: LogFile
      ensures LogUndoable(h, m, v, x) && Holds(h, Log(x), v.logs[x])
    {
      assert LogUndoable(g, m, v, x) && Holds(g, Log(x), v.logs[x]);
    }
  }

  lemma NextUnlink(fs: Fs, m: MarkerRecord, v: View, k: nat, g: Fs, n: Name)
    requires CanRollBack(fs, m, v) && InRollback(fs, m, v, k, g)
    requires k >= |m.appendOffsets| + |PatternsStep(fs, m)| + |MetadataStep(fs)|
    requires n == Marker || n == MetadataBackup || n == PatternsBackup
    ensures InRollback(fs, m, v, k + 1, Apply(g, Unlink(n)))
  {
    ApplySound(g, Unlink(n));
    UnlinkSettled(g, Apply(g, Unlink(n)), v, n);
  }

  /** Every rollback call succeeds when it is made, and leads to the next stage. */
  lemma RollbackAdvances(fs: Fs, m: MarkerRecord, v: View, k: nat, g: Fs)
    requires CanRollBack(fs, m, v) && InRollback(fs, m, v, k, g) && k < |RollbackCalls(fs, m)|
    ensures var op := RollbackCalls(fs, m)[k];
            Enabled(g, op) && Disciplined(g, op) && InRollback(fs, m, v, k + 1, Apply(g, op))
  {
    var nT := |m.appendOffsets|;
    var nP := nT + |PatternsStep(fs, m)|;
    var nM := nP + |MetadataStep(fs)|;
    var op := RollbackCalls(fs, m)[k];
    if k < nT {
      NextTruncate(fs, m, v, k, g);
    } else if k < nP {
      NextPatterns(fs, m, v, g);
    } else if k < nM {
      NextMetadata(fs, m, v, g);
    } else {
      assert op == CLEANUP[k - nM];
      NextUnlink(fs, m, v, k, g, op.name);
    }
  }

  /** The disk after any number of rollback calls. */
  lemma {:induction false} RollbackStages(fs: Fs, m: MarkerRecord, v: View, k: nat)
    requires CanRollBack(fs, m, v) && k <= |RollbackCalls(fs, m)|
    ensures InRollback(fs, m, v, k, After(fs, RollbackCalls(fs, m)[..k]))
  {
    var ops := RollbackCalls(fs, m);
    hide InRollback, RollbackCalls, CanRollBack;
    if k == 0 {
      RollbackBegins(fs, m, v);
    } else {
      RollbackStages(fs, m, v, k - 1);
      assert ops[..k][..k - 1] == ops[..k - 1];
      RollbackAdvances(fs, m, v, k - 1, After(fs, ops[..k - 1]));
    }
  }

  // ----- The exact boundary of crash-safe rollback -----

  /** A rollback that starts before the metadata was replaced can be cut short anywhere. */
  lemma EarlyStageSettles(fs: Fs, m: MarkerRecord, v: View, k: nat, g: Fs)
    requires CanRollBack(fs, m, v) && InRollback(fs, m, v, k, g)
    requires !Effective(fs, Read(fs, Marker).value.marker)
    ensures Settles(g, v)
  {
    if k <= |m.appendOffsets| + |PatternsStep(fs, m)| {
      var d := Read(fs, Marker).value.marker;
      assert forall f: LogFile :: LogUndoable(g, m, v, f) ==> LogUndoable(g, d, v, f);
    }
  }

  /** One that starts afterwards, with nothing to undo but the metadata, as well. */
  lemma IdleStageSettles(fs: Fs, m: MarkerRecord, v: View, new': View, k: nat, g: Fs)
    requires CanRollBack(fs, m, v) && InRollback(fs, m, v, k, g)
    requires Effective(fs, Read(fs, Marker).value.marker) && Shows(fs, new')
    requires new'.logs == v.logs && new'.patterns == v.patterns
    ensures Settles(g, v) || Settles(g, new')
  {
    if k <= |m.appendOffsets| + |PatternsStep(fs, m)| {
      assert Shows(g, new');
    }
  }

  /** Cut short with evidence restored but metadata still new, recovery keeps the new metadata. */
  lemma MixedStageIsNeither(fs: Fs, m: MarkerRecord, v: View, new': View, k: nat, g: Fs)
    requires CanRollBack(fs, m, v) && InRollback(fs, m, v, k, g)
    requires Effective(fs, Read(fs, Marker).value.marker) && Shows(fs, new')
    requires v.metadata != new'.metadata
    requires k == |m.appendOffsets| + |PatternsStep(fs, m)|
    requires new'.logs != v.logs || new'.patterns != v.patterns
    ensures !Settles(g, v) && !Settles(g, new')
  {
    ShownAgrees(g, v, new');
    assert Read(g, Metadata) == Read(fs, Metadata);
  }

  lemma ShownAgrees(g: Fs, v: View, w: View)
    requires Total(v) && LogsRestored(g, v) && Holds(g, Patterns, v.patterns)
    ensures Shows(g, w) ==> w.logs == v.logs && w.patterns == v.patterns
  {
    if Shows(g, w) {
      forall f: LogFile
        ensures w.logs[f] == v.logs[f]
      {
        assert Holds(g, Log(f), w.logs[f]) && Holds(g, Log(f), v.logs[f]);
      }
      assert w.logs == v.logs;
    }
  }

  /** Rollback survives a crash at every call if and only if the metadata had not been replaced when
      it began, or the unit had changed nothing else. */
  lemma RollbackBoundary(fs: Fs, m: MarkerRecord, v: View, new': View)
    requires CanRollBack(fs, m, v) && v.metadata != new'.metadata
    requires Effective(fs, Read(fs, Marker).value.marker) ==> Shows(fs, new')
    ensures (forall g :: ReachedBy(fs, RollbackCalls(fs, m), g) ==> Settles(g, v) || Settles(g, new'))
            <==> (!Effective(fs, Read(fs, Marker).value.marker) || (new'.logs == v.logs && new'.patterns == v.patterns))
  {
    var ops := RollbackCalls(fs, m);
    var late := Effective(fs, Read(fs, Marker).value.marker);
    var idle := new'.logs == v.logs && new'.patterns == v.patterns;
    if !late || idle {
      forall g | ReachedBy(fs, ops, g)
        ensures Settles(g, v) || Settles(g, new')
      {
        var k :| 0 <= k <= |ops| && g == After(fs, ops[..k]);
        RollbackStages(fs, m, v, k);
        if !late { EarlyStageSettles(fs, m, v, k, g); } else { IdleStageSettles(fs, m, v, new', k, g); }
      }
    } else {
      var k := |m.appendOffsets| + |PatternsStep(fs, m)|;
      var g := After(fs, ops[..k]);
      assert ReachedBy(fs, ops, g);
      RollbackStages(fs, m, v, k);
      MixedStageIsNeither(fs, m, v, new', k, g);
    }
  }

  // ----- File steps (persistence.py) -----

  /** Write a temporary file and rename it over `name`: other names never see a torn file. */
  method WriteSerialized(disk: Disk, name: Name, content: Content) returns (s: Status, ghost renamed: bool)
    requires Sound(disk.fs) && !name.Temporary? && !name.Log?
    modifies disk
    ensures Sound(disk.fs)
    ensures if renamed then Replaced(old(disk.fs), disk.fs, name, content) else SameVisible(old(disk.fs), disk.fs)
    ensures s.Done? ==> renamed
    ensures s.Raised? ==> !s.unsafe
    ensures Faults(disk.fates) <= Faults(old(disk.fates)) && (!s.Done? ==> Faults(disk.fates) < Faults(old(disk.fates)))
  {
    renamed := false;
    var temporary := Temporary(disk.fs.nextInode);
    TemporaryUnused(disk.fs);
    s := WriteTemporary(disk, temporary, content);
    if s.Done? {
      s := disk.Call(Rename(temporary, name));
    }
    if s.Done? {
      renamed := true;
      s := disk.Call(Sync);
    }
    if !s.Crashed? {
      var suppressed := disk.Call(Unlink(temporary));
      if suppressed.Crashed? {
        s := Crashed;
      }
    }
  }

  method WriteTemporary(disk: Disk, temporary: Name, content: Content) returns (s: Status)
    requires Sound(disk.fs) && temporary == Temporary(disk.fs.nextInode) && temporary !in disk.fs.names
    modifies disk
    ensures Sound(disk.fs) && SameVisible(old(disk.fs), disk.fs)
    ensures s.Done? ==> Read(disk.fs, temporary) == Some(content)
    ensures s.Raised? ==> !s.unsafe
    ensures Faults(disk.fates) <= Faults(old(disk.fates)) && (!s.Done? ==> Faults(disk.fates) < Faults(old(disk.fates)))
  {
    hide WellFormed, Separate, Apply;
    :- disk.Call(Create(temporary));
    :- disk.Call(Fill(temporary, Torn));
    :- disk.Call(Fill(temporary, content));
    s := disk.Call(Sync);
  }

  ghost predicate LogIs(fs: Fs, g: Fs, f: LogFile, bytes: seq<byte>) {
    forall n: Name :: Read(g, n) == if n == Log(f) then Some(Bytes(bytes)) else Read(fs, n)
  }

  lemma LogGrows(g0: Fs, g: Fs, h: Fs, f: LogFile, bytes: seq<byte>, data: seq<byte>, from: nat, to: nat)
    requires from <= to <= |data| && LogIs(g0, g, f, bytes + data[..from])
    requires forall n :: Read(h, n) == if n == Log(f) then Some(Bytes((bytes + data[..from]) + data[from..to])) else Read(g, n)
    ensures LogIs(g0, h, f, bytes + data[..to])
  {
    assert (bytes + data[..from]) + data[from..to] == bytes + data[..to];
  }

  /** `_write_all`: as many short writes as the system takes. */
  method WriteAll(disk: Disk, f: LogFile, data: seq<byte>) returns (s: Status, ghost written: nat)
    requires Sound(disk.fs) && HoldsBytes(disk.fs, Log(f))
    modifies disk
    ensures Sound(disk.fs)
    ensures written <= |data| && LogIs(old(disk.fs), disk.fs, f, Read(old(disk.fs), Log(f)).value.bytes + data[..written])
    ensures s.Done? ==> written == |data|
    ensures s.Raised? ==> !s.unsafe
    ensures Faults(disk.fates) <= Faults(old(disk.fates)) && (!s.Done? ==> Faults(disk.fates) < Faults(old(disk.fates)))
  {
    ghost var original := Read(disk.fs, Log(f)).value.bytes;
    hide WellFormed, Separate, Apply;
    var done := 0;
    assert original + data[..0] == original;
    s, written := Done, 0;
    while done < |data| && s.Done?
      invariant done <= |data| && done == written
      invariant Sound(disk.fs) && LogIs(old(disk.fs), disk.fs, f, original + data[..done])
      invariant s.Raised? ==> !s.unsafe
      invariant Faults(disk.fates) <= Faults(old(disk.fates)) && (!s.Done? ==> Faults(disk.fates) < Faults(old(disk.fates)))
      decreases |data| - done, s.Done?
    {
      var count := disk.ChunkSize(|data| - done);
      ghost var g := disk.fs;
      s := disk.Call(Write(Log(f), data[done..done + count]));
      if s.Done? {
        LogGrows(old(disk.fs), g, disk.fs, f, original, data, done, done + count);
        done, written := done + count, done + count;
      }
    }
  }

  /** Append, and on an error try to cut back to the original size. */
  method AppendSerialized(disk: Disk, f: LogFile, data: seq<byte>) returns (s: Status, ghost written: nat)
    requires Sound(disk.fs) && HoldsBytes(disk.fs, Log(f))
    modifies disk
    ensures Sound(disk.fs)
    ensures written <= |data| && LogIs(old(disk.fs), disk.fs, f, Read(old(disk.fs), Log(f)).value.bytes + data[..written])
    ensures s.Done? ==> written == |data|
    ensures s.Raised? ==> !s.unsafe
    ensures Faults(disk.fates) <= Faults(old(disk.fates)) && (!s.Done? ==> Faults(disk.fates) < Faults(old(disk.fates)))
  {
    ghost var original := Read(disk.fs, Log(f)).value.bytes;
    hide WellFormed, Separate, Apply, Faults;
    written := 0;
    assert original + data[..0] == original;
    s := disk.Call(Sync);
    if !s.Done? { return; }
    var originalSize := |Read(disk.fs, Log(f)).value.bytes|;
    s, written := WriteAll(disk, f, data);
    if s.Done? {
      s := disk.Call(Sync);
    }
    if s.Raised? {
      var suppressed := disk.Call(Truncate(Log(f), originalSize));
      if suppressed.Done? {
        assert (original + data[..written])[..originalSize] == original + data[..0];
        written := 0;
        suppressed := disk.Call(Sync);
      }
      if suppressed.Crashed? {
        s := Crashed;
      }
    }
  }

  // ----- Recovery (transactions.py) -----

  method Cleanup(disk: Disk, ghost v: View) returns (s: Status)
    requires Settles(disk.fs, v) && Shows(disk.fs, v)
    modifies disk
    ensures Settles(disk.fs, v) && Shows(disk.fs, v)
    ensures s.Done? ==> Clean(disk.fs, v)
    ensures ReachedBy(old(disk.fs), CLEANUP, disk.fs) && (s.Done? ==> disk.fs == After(old(disk.fs), CLEANUP))
    ensures s.Raised? ==> !s.unsafe
    ensures Faults(disk.fates) <= Faults(old(disk.fates)) && (!s.Done? ==> Faults(disk.fates) < Faults(old(disk.fates)))
  {
    ghost var g0 := disk.fs;
    CleanupStates(g0);
    hide Settles, Shows, After, ReachedBy;
    SettlesIsSound(g0, v);
    :- disk.Call(Unlink(MetadataBackup));
    ghost var g1 := disk.fs;
    UnlinkSettled(g0, g1, v, MetadataBackup);
    :- disk.Call(Unlink(PatternsBackup));
    ghost var g2 := disk.fs;
    UnlinkSettled(g1, g2, v, PatternsBackup);
    :- disk.Call(Unlink(Marker));
    UnlinkSettled(g2, disk.fs, v, Marker);
    s := disk.Call(Sync);
  }

  lemma CleanupStates(fs: Fs)
    ensures var g1 := Apply(fs, Unlink(MetadataBackup));
            var g2 := Apply(g1, Unlink(PatternsBackup));
            var g3 := Apply(g2, Unlink(Marker));
            && ReachedBy(fs, CLEANUP, fs) && ReachedBy(fs, CLEANUP, g1) && ReachedBy(fs, CLEANUP, g2)
            && ReachedBy(fs, CLEANUP, g3) && After(fs, CLEANUP) == g3
  {
    assert After(fs, CLEANUP[..0]) == fs;
    AfterSnoc(fs, CLEANUP, 0);
    AfterSnoc(fs, CLEANUP, 1);
    AfterSnoc(fs, CLEANUP, 2);
    assert CLEANUP[..3] == CLEANUP;
  }

  lemma AfterSnoc(fs: Fs, ops: seq<Syscall>, k: nat)
    requires k < |ops| && Enabled(After(fs, ops[..k]), ops[k])
    ensures After(fs, ops[..k + 1]) == Apply(After(fs, ops[..k]), ops[k])
  {
    assert ops[..k + 1][..k] == ops[..k];
  }

  lemma {:induction false} AfterAppend(fs: Fs, a: seq<Syscall>, b: seq<Syscall>)
    ensures After(fs, a + b) == After(After(fs, a), b)
  {
    if b == [] {
      assert a + b == a;
    } else {
      var n := |b| - 1;
      assert (a + b)[..|a| + n] == a + b[..n];
      AfterAppend(fs, a, b[..n]);
    }
  }

  lemma SettlesIsSound(fs: Fs, v: View)
    requires Settles(fs, v)
    ensures Sound(fs)
  {
  }

  /** The rollback in progress: `k` of its calls made since `fs0`. */
  ghost predicate Rolling(fs0: Fs, m: MarkerRecord, v: View, k: nat, g: Fs) {
    && CanRollBack(fs0, m, v) && k <= |RollbackCalls(fs0, m)|
    && g == After(fs0, RollbackCalls(fs0, m)[..k]) && InRollback(fs0, m, v, k, g)
  }

  lemma RollingStops(fs0: Fs, m: MarkerRecord, v: View, k: nat, g: Fs)
    requires Rolling(fs0, m, v, k, g)
    ensures Sound(g) && ReachedBy(fs0, RollbackCalls(fs0, m), g)
    ensures !Effective(fs0, Read(fs0, Marker).value.marker) ==> Settles(g, v)
    ensures k == |RollbackCalls(fs0, m)| ==> Settles(g, v) && Shows(g, v)
  {
    if !Effective(fs0, Read(fs0, Marker).value.marker) {
      EarlyStageSettles(fs0, m, v, k, g);
    }
  }

  /** One of rollback's state-changing calls; it can only fail for an injected error. */
  method RollbackCall(disk: Disk, op: Syscall, ghost fs0: Fs, ghost m: MarkerRecord, ghost v: View, ghost k: nat)
    returns (s: Status, ghost next: nat)
    requires Rolling(fs0, m, v, k, disk.fs) && k < |RollbackCalls(fs0, m)| && op == RollbackCalls(fs0, m)[k]
    modifies disk
    ensures next == (if s.Done? then k + 1 else k) && Rolling(fs0, m, v, next, disk.fs)
    ensures s.Raised? ==> !s.unsafe
    ensures Faults(disk.fates) <= Faults(old(disk.fates)) && (!s.Done? ==> Faults(disk.fates) < Faults(old(disk.fates)))
  {
    RollbackAdvances(fs0, m, v, k, disk.fs);
    AfterSnoc(fs0, RollbackCalls(fs0, m), k);
    assert Sound(disk.fs);
    hide InRollback, RollbackCalls, CanRollBack, Apply, After;
    s := disk.Call(op);
    next := if s.Done? then k + 1 else k;
  }

  /** `_truncate_to`. A log shorter than its saved offset would raise; it never is. */
  method TruncateTo(disk: Disk, f: LogFile, offset: nat, ghost fs0: Fs, ghost m: MarkerRecord, ghost v: View, ghost k: nat)
    returns (s: Status, ghost next: nat)
    requires Rolling(fs0, m, v, k, disk.fs) && k < |m.appendOffsets| && m.appendOffsets[k] == (f, offset)
    modifies disk
    ensures k <= next <= k + 1 && (s.Done? ==> next == k + 1) && Rolling(fs0, m, v, next, disk.fs)
    ensures s.Raised? ==> !s.unsafe
    ensures Faults(disk.fates) <= Faults(old(disk.fates)) && (!s.Done? ==> Faults(disk.fates) < Faults(old(disk.fates)))
  {
    next := k;
    assert RollbackCalls(fs0, m)[k] == Truncate(Log(f), offset);
    RollbackAdvances(fs0, m, v, k, disk.fs);
    RollingStops(fs0, m, v, k, disk.fs);
    hide Rolling, InRollback, RollbackCalls, CanRollBack;
    s := disk.Call(Sync);
    if !s.Done? { return; }
    if !HoldsBytes(disk.fs, Log(f)) || |Read(disk.fs, Log(f)).value.bytes| < offset {
      return Raised(false), next;
    }
    s, next := RollbackCall(disk, Truncate(Log(f), offset), fs0, m, v, k);
    RollingStops(fs0, m, v, next, disk.fs);
    if s.Done? {
      s := disk.Call(Sync);
    }
  }

  /** `_restore_backup`. An unavailable preimage would raise; it always is available. */
  method RestoreBackup(disk: Disk, target: Name, backup: Name, expected: Digest,
                       ghost fs0: Fs, ghost m: MarkerRecord, ghost v: View, ghost k: nat)
    returns (s: Status, ghost next: nat)
    requires Rolling(fs0, m, v, k, disk.fs)
    requires Read(disk.fs, backup).Some? ==> k < |RollbackCalls(fs0, m)| && RollbackCalls(fs0, m)[k] == Rename(backup, target)
    requires Read(disk.fs, backup).None? ==> Holds(disk.fs, target, expected.of)
    modifies disk
    ensures Rolling(fs0, m, v, next, disk.fs)
    ensures next == (if s.Done? && old(Read(disk.fs, backup)).Some? then k + 1 else k)
    ensures s.Raised? ==> !s.unsafe
    ensures Faults(disk.fates) <= Faults(old(disk.fates)) && (!s.Done? ==> Faults(disk.fates) < Faults(old(disk.fates)))
  {
    next := k;
    RollingStops(fs0, m, v, k, disk.fs);
    hide Rolling, RollbackCalls;
    if Read(disk.fs, backup).Some? {
      s, next := RollbackCall(disk, Rename(backup, target), fs0, m, v, k);
      return;
    }
    s := disk.Call(Sync);
    if s.Done? && Digest(Read(disk.fs, target).value.bytes) != expected {
      s := Raised(false);
    }
  }

  /** What the two restore steps rely on when their turn comes. */
  lemma RestoreFacts(fs0: Fs, m: MarkerRecord, v: View, k: nat, g: Fs)
    requires Rolling(fs0, m, v, k, g)
    ensures k == |m.appendOffsets| && m.replacePatterns ==>
              if Read(g, PatternsBackup).Some?
              then PatternsStep(fs0, m) != [] && RollbackCalls(fs0, m)[k] == Rename(PatternsBackup, Patterns)
              else PatternsStep(fs0, m) == [] && m.patternsBefore.Some? && Holds(g, Patterns, m.patternsBefore.value.of)
    ensures k == |m.appendOffsets| + |PatternsStep(fs0, m)| ==>
              if Read(g, MetadataBackup).Some?
              then MetadataStep(fs0) != [] && RollbackCalls(fs0, m)[k] == Rename(MetadataBackup, Metadata)
              else MetadataStep(fs0) == [] && Holds(g, Metadata, m.metadataBefore.of)
  {
  }

  lemma RestoredFacts(fs0: Fs, m: MarkerRecord, v: View, k: nat, g: Fs)
    requires Rolling(fs0, m, v, k, g) && k == |m.appendOffsets| + |PatternsStep(fs0, m)| + |MetadataStep(fs0)|
    ensures Settles(g, v) && Shows(g, v)
  {
  }

  lemma CleanupReached(fs0: Fs, m: MarkerRecord, v: View, k: nat, g: Fs, h: Fs)
    requires Rolling(fs0, m, v, k, g) && k == |m.appendOffsets| + |PatternsStep(fs0, m)| + |MetadataStep(fs0)|
    requires ReachedBy(g, CLEANUP, h)
    ensures ReachedBy(fs0, RollbackCalls(fs0, m), h)
  {
    var ops := RollbackCalls(fs0, m);
    var j :| 0 <= j <= |CLEANUP| && h == After(g, CLEANUP[..j]);
    AfterAppend(fs0, ops[..k], CLEANUP[..j]);
    assert ops[..k + j] == ops[..k] + CLEANUP[..j];
  }

  /** `_rollback`: truncate every log, restore the patterns, restore the metadata, clean up. */
  method RollbackFiles(disk: Disk, marker: MarkerRecord, ghost v: View) returns (s: Status)
    requires CanRollBack(disk.fs, marker, v) && ValidMarker(marker)
    modifies disk
    ensures ReachedBy(old(disk.fs), RollbackCalls(old(disk.fs), marker), disk.fs)
    ensures s.Done? ==> Clean(disk.fs, v)
    ensures !Effective(old(disk.fs), Read(old(disk.fs), Marker).value.marker) ==> Settles(disk.fs, v)
    ensures Sound(disk.fs) && (s.Raised? ==> !s.unsafe)
    ensures Faults(disk.fates) <= Faults(old(disk.fates)) && (!s.Done? ==> Faults(disk.fates) < Faults(old(disk.fates)))
  {
    ghost var fs0, k: nat := disk.fs, 0;
    ghost var nT := |marker.appendOffsets|;
    ghost var nP := nT + |PatternsStep(fs0, marker)|;
    ghost var nM := nP + |MetadataStep(fs0)|;
    RollbackBegins(fs0, marker, v);
    assert Rolling(fs0, marker, v, 0, fs0);
    assert !marker.replacePatterns ==> nP == nT;
    hide Rolling, InRollback, RollbackCalls, CanRollBack, PatternsStep, MetadataStep, Settles, Effective, ReachedBy, Shows;
    s := Done;
    var i := 0;
    while i < |marker.appendOffsets| && s.Done?
      invariant i <= nT && k <= nT && (s.Done? ==> k == i)
      invariant Rolling(fs0, marker, v, k, disk.fs) && (s.Raised? ==> !s.unsafe)
      invariant Faults(disk.fates) <= Faults(old(disk.fates)) && (!s.Done? ==> Faults(disk.fates) < Faults(old(disk.fates)))
      decreases nT - i
    {
      var (f, offset) := marker.appendOffsets[i];
      s, k := TruncateTo(disk, f, offset, fs0, marker, v, k);
      i := i + 1;
    }
    if s.Done? && marker.replacePatterns {
      RestoreFacts(fs0, marker, v, k, disk.fs);
      s, k := RestoreBackup(disk, Patterns, PatternsBackup, marker.patternsBefore.value, fs0, marker, v, k);
    }
    if s.Done? {
      assert k == nP;
      RestoreFacts(fs0, marker, v, k, disk.fs);
      s, k := RestoreBackup(disk, Metadata, MetadataBackup, marker.metadataBefore, fs0, marker, v, k);
    }
    RollingStops(fs0, marker, v, k, disk.fs);
    if s.Done? {
      s := disk.Call(Sync);
    }
    if s.Done? {
      ghost var g := disk.fs;
      RestoredFacts(fs0, marker, v, k, g);
      s := Cleanup(disk, v);
      CleanupReached(fs0, marker, v, k, g, disk.fs);
    }
  }

  datatype Recovery = CommittedUnit | RolledBackUnit

  /** `recover_evidence_transaction`: run at start-up and before every new transaction. Whatever
      interrupts it, running it again still leads to the same view. */
  method RecoverEvidenceTransaction(disk: Disk, ghost v: View) returns (s: Status, outcome: Option<Recovery>)
    requires Settles(disk.fs, v)
    modifies disk
    ensures Settles(disk.fs, v)
    ensures s.Done? ==> Clean(disk.fs, v)
    ensures s.Done? ==>
              outcome == match old(Read(disk.fs, Marker))
                         case Some(Json(m)) => Some(if Effective(old(disk.fs), m) then CommittedUnit else RolledBackUnit)
                         case _ => None
    ensures s.Raised? ==> (s.unsafe <==> old(Read(disk.fs, Marker)).Some?)
    ensures !s.Done? && old(Read(disk.fs, Marker)).None? ==> Read(disk.fs, Marker).None?
    ensures Faults(disk.fates) <= Faults(old(disk.fates)) && (!s.Done? ==> Faults(disk.fates) < Faults(old(disk.fates)))
  {
    outcome := None;
    if Read(disk.fs, Marker).None? {
      s := CleanupOrphanBackups(disk, v);
      return;
    }
    s := disk.Call(Sync);
    if !s.Done? {
      return if s.Raised? then Raised(true) else s, None;
    }
    var content := Read(disk.fs, Marker).value;
    if !content.Json? || !ValidMarker(content.marker) {
      return Raised(true), None;
    }
    var marker := content.marker;
    if marker.state == Committed || (marker.state == EvidenceWritten && MatchesExpected(disk.fs, marker)) {
      s := Cleanup(disk, v);
      outcome := Some(CommittedUnit);
    } else {
      s := RollbackFiles(disk, marker, v);
      outcome := Some(RolledBackUnit);
    }
    if s.Raised? {
      s := Raised(true);
    }
  }

  /** `_cleanup_orphan_backups`: backups without a marker are superfluous. */
  method CleanupOrphanBackups(disk: Disk, ghost v: View) returns (s: Status)
    requires Settles(disk.fs, v) && Read(disk.fs, Marker).None?
    modifies disk
    ensures Settles(disk.fs, v)
    ensures s.Done? ==> Clean(disk.fs, v)
    ensures Read(disk.fs, Marker).None? && (s.Raised? ==> !s.unsafe)
    ensures Faults(disk.fates) <= Faults(old(disk.fates)) && (!s.Done? ==> Faults(disk.fates) < Faults(old(disk.fates)))
  {
    if Read(disk.fs, MetadataBackup).None? && Read(disk.fs, PatternsBackup).None? {
      return Done;
    }
    :- RestoreOrRemoveOrphan(disk, Metadata, MetadataBackup, v);
    :- RestoreOrRemoveOrphan(disk, Patterns, PatternsBackup, v);
    s := disk.Call(Sync);
  }

  /** `_restore_or_remove_orphan`. Recovery only meets it with the target present. */
  method RestoreOrRemoveOrphan(disk: Disk, target: Name, backup: Name, ghost v: View) returns (s: Status)
    requires Sound(disk.fs) && Read(disk.fs, Marker).None?
    requires Read(disk.fs, target).Some? ==> Settles(disk.fs, v)
    requires (target == Metadata && backup == MetadataBackup) || (target == Patterns && backup == PatternsBackup)
    modifies disk
    ensures Sound(disk.fs) && (!s.Done? ==> disk.fs == old(disk.fs)) && (s.Raised? ==> !s.unsafe)
    ensures s.Done? && old(Read(disk.fs, backup)).None? ==> disk.fs == old(disk.fs)
    ensures s.Done? && old(Read(disk.fs, target)).Some? ==>
              && Settles(disk.fs, v)
              && forall n :: Read(disk.fs, n) == if n == backup then None else old(Read(disk.fs, n))
    ensures s.Done? && old(Read(disk.fs, target)).None? && old(Read(disk.fs, backup)).Some? ==>
              Read(disk.fs, target) == old(Read(disk.fs, backup)) && Read(disk.fs, backup).None?
    ensures Faults(disk.fates) <= Faults(old(disk.fates)) && (!s.Done? ==> Faults(disk.fates) < Faults(old(disk.fates)))
  {
    ghost var g := disk.fs;
    if Read(disk.fs, backup).None? {
      return Done;
    }
    if Read(disk.fs, target).Some? {
      hide Shows;
      s := disk.Call(Unlink(backup));
      if s.Done? {
        OrphanRemoved(g, disk.fs, v, backup);
      }
    } else {
      s := disk.Call(Rename(backup, target));
    }
  }

  lemma OrphanRemoved(g: Fs, h: Fs, v: View, backup: Name)
    requires Settles(g, v) && Read(g, Marker).None? && Sound(h)
    requires backup == MetadataBackup || backup == PatternsBackup
    requires forall x :: Read(h, x) == if x == backup then None else Read(g, x)
    ensures Settles(h, v)
  {
    UnlinkSettled(g, h, v, backup);
  }

  /** Restart after restart, each interrupted or failing anywhere, until one recovery completes. */
  method RecoverAcrossRestarts(disk: Disk, ghost v: View)
    requires Settles(disk.fs, v)
    modifies disk
    ensures Clean(disk.fs, v)
  {
    var s, outcome := RecoverEvidenceTransaction(disk, v);
    while !s.Done?
      invariant Settles(disk.fs, v) && (s.Done? ==> Clean(disk.fs, v))
      decreases Faults(disk.fates), if s.Done? then 0 else 1
    {
      s, outcome := RecoverEvidenceTransaction(disk, v);
    }
  }

  // ----- One transaction -----

  /** During the body: the undo marker and both backups are in place. */
  ghost predicate InBody(fs: Fs, m: MarkerRecord, v: View) {
    && CanRollBack(fs, m, v) && ValidMarker(m) && Read(fs, Marker) == Some(Json(m))
    && Holds(fs, MetadataBackup, v.metadata)
    && (m.replacePatterns ==> Holds(fs, PatternsBackup, v.patterns))
  }

  /** Stopped somewhere in the body. */
  ghost predicate Interrupted(fs: Fs, m: MarkerRecord, v: View, new': View) {
    && CanRollBack(fs, m, v)
    && var d := Read(fs, Marker).value.marker;
       && (Effective(fs, d) ==> Shows(fs, new'))
       && (Effective(fs, d) || Holds(fs, Metadata, v.metadata))
  }

  lemma InterruptedSettles(fs: Fs, m: MarkerRecord, v: View, new': View)
    requires Interrupted(fs, m, v, new')
    ensures Settles(fs, if Effective(fs, Read(fs, Marker).value.marker) then new' else v)
  {
    var d := Read(fs, Marker).value.marker;
    assert forall f: LogFile :: LogUndoable(fs, m, v, f) ==> LogUndoable(fs, d, v, f);
  }

  lemma AppendKeepsBody(g: Fs, h: Fs, m: MarkerRecord, v: View, f: LogFile, bytes: seq<byte>)
    requires InBody(g, m, v) && Sound(h) && LogIs(g, h, f, bytes)
    requires Declared(m, f) && v.logs[f] <= bytes
    ensures InBody(h, m, v)
  {
    forall x: LogFile
      ensures LogUndoable(h, m, v, x)
    {
      assert LogUndoable(g, m, v, x);
    }
  }

  lemma ReplaceKeepsLogs(g: Fs, h: Fs, m: MarkerRecord, d: MarkerRecord, v: View, name: Name, content: Content)
    requires Total(v) && SameUndo(m, d) && !name.Log?
    requires Replaced(g, h, name, content)
    requires forall f: LogFile :: LogUndoable(g, m, v, f)
    ensures forall f: LogFile :: LogUndoable(h, d, v, f)
  {
    forall f: LogFile
      ensures LogUndoable(h, d, v, f)
    {
      assert LogUndoable(g, m, v, f);
    }
  }

  lemma PatternsKeepBody(g: Fs, h: Fs, m: MarkerRecord, v: View, bytes: seq<byte>)
    requires InBody(g, m, v) && m.replacePatterns && Sound(h) && Replaced(g, h, Patterns, Bytes(bytes))
    ensures InBody(h, m, v)
  {
    ReplaceKeepsLogs(g, h, m, m, v, Patterns, Bytes(bytes));
  }

  lemma MarkerKeepsBody(g: Fs, h: Fs, m: MarkerRecord, d: MarkerRecord, v: View)
    requires InBody(g, m, v) && SameUndo(m, d) && ValidMarker(d) && Sound(h) && Replaced(g, h, Marker, Json(d))
    ensures InBody(h, d, v)
  {
    ReplaceKeepsLogs(g, h, m, d, v, Marker, Json(d));
  }

  lemma MetadataKeepsBody(g: Fs, h: Fs, m: MarkerRecord, v: View, bytes: seq<byte>)
    requires InBody(g, m, v) && Sound(h) && Replaced(g, h, Metadata, Bytes(bytes))
    ensures InBody(h, m, v)
  {
    ReplaceKeepsLogs(g, h, m, m, v, Metadata, Bytes(bytes));
  }

  lemma VisibleKeepsBody(g: Fs, h: Fs, m: MarkerRecord, v: View, w: View)
    requires InBody(g, m, v) && Sound(h) && SameVisible(g, h)
    ensures InBody(h, m, v) && (Shows(g, w) ==> Shows(h, w))
  {
    forall x: LogFile
      ensures LogUndoable(h, m, v, x)
    {
      assert LogUndoable(g, m, v, x);
    }
  }

  class EvidenceTransaction {
    const disk: Disk
    var marker: MarkerRecord

    constructor (disk: Disk, marker: MarkerRecord)
      ensures this.disk == disk && this.marker == marker
    {
      this.disk, this.marker := disk, marker;
    }

    /** Durably announce the new metadata before replacing it. */
    method PrepareMetadata(metadata: seq<byte>, ghost v: View) returns (s: Status)
      requires InBody(disk.fs, marker, v)
      modifies this, disk
      ensures SameUndo(old(marker), marker) && ValidMarker(marker)
      ensures marker.state == EvidenceWritten && marker.expectedMetadata == Some(Digest(metadata))
      ensures if Read(disk.fs, Marker) == Some(Json(marker)) then
                InBody(disk.fs, marker, v) && Replaced(old(disk.fs), disk.fs, Marker, Json(marker))
              else InBody(disk.fs, old(marker), v)
      ensures Read(disk.fs, Metadata) == old(Read(disk.fs, Metadata))
      ensures s.Done? ==> Read(disk.fs, Marker) == Some(Json(marker))
      ensures s.Raised? ==> !s.unsafe
      ensures Faults(disk.fates) <= Faults(old(disk.fates)) && (!s.Done? ==> Faults(disk.fates) < Faults(old(disk.fates)))
    {
      ghost var g, before := disk.fs, marker;
      marker := marker.(state := EvidenceWritten, expectedMetadata := Some(Digest(metadata)));
      ghost var renamed;
      s, renamed := WriteSerialized(disk, Marker, Json(marker));
      if renamed {
        MarkerKeepsBody(g, disk.fs, before, marker, v);
      } else {
        VisibleKeepsBody(g, disk.fs, before, v, v);
      }
    }

    /** Mark the unit committed and drop the bookkeeping; the unit stays whatever happens here. A body
        that never announced its metadata is refused before any file is touched. */
    method Commit(ghost v: View) returns (s: Status)
      requires marker.state == EvidenceWritten ==>
                 Settles(disk.fs, v) && Shows(disk.fs, v) && Read(disk.fs, Marker) == Some(Json(marker)) && ValidMarker(marker)
      modifies disk
      ensures if marker.state == EvidenceWritten then Settles(disk.fs, v) && Shows(disk.fs, v) && (s.Raised? ==> s.unsafe)
              else s == Raised(false) && disk.fs == old(disk.fs)
      ensures Faults(disk.fates) <= Faults(old(disk.fates))
      ensures marker.state == EvidenceWritten && Faults(disk.fates) == Faults(old(disk.fates)) ==> s.Done? && Clean(disk.fs, v)
      ensures marker.state == EvidenceWritten && s.Raised? ==> Faults(disk.fates) + 2 <= Faults(old(disk.fates))
    {
      if marker.state != EvidenceWritten {
        return Raised(false);
      }
      ghost var g := disk.fs;
      var committed := marker.(state := Committed);
      var written, renamed := WriteSerialized(disk, Marker, Json(committed));
      MarkerCommitted(g, disk.fs, marker, v, renamed);
      if written.Crashed? {
        return Crashed;
      }
      s := Cleanup(disk, v);
      if s.Raised? {
        s := if written.Done? then Done else Raised(true);
      }
    }

    /** Undo everything. Only injected errors and crashes can stop it, and only a rollback begun
        after the metadata was replaced can leave a disk that does not settle on `v`. */
    method Rollback(ghost v: View) returns (s: Status)
      requires CanRollBack(disk.fs, marker, v) && ValidMarker(marker)
      modifies disk
      ensures ReachedBy(old(disk.fs), RollbackCalls(old(disk.fs), marker), disk.fs)
      ensures s.Done? ==> Clean(disk.fs, v)
      ensures !Effective(old(disk.fs), Read(old(disk.fs), Marker).value.marker) ==> Settles(disk.fs, v)
      ensures s.Raised? ==> s.unsafe
      ensures Faults(disk.fates) <= Faults(old(disk.fates)) && (!s.Done? ==> Faults(disk.fates) < Faults(old(disk.fates)))
    {
      s := RollbackFiles(disk, marker, v);
      if s.Raised? {
        s := Raised(true);
      }
    }
  }

  lemma MarkerCommitted(g: Fs, h: Fs, m: MarkerRecord, v: View, renamed: bool)
    requires Settles(g, v) && Shows(g, v) && Read(g, Marker) == Some(Json(m)) && m.state == EvidenceWritten
    requires Sound(h)
    requires if renamed then Replaced(g, h, Marker, Json(m.(state := Committed))) else SameVisible(g, h)
    ensures Settles(h, v) && Shows(h, v)
  {
    if !renamed {
      assert forall f: LogFile :: Read(h, Log(f)) == Read(g, Log(f));
      assert forall f: LogFile :: LogUndoable(g, m, v, f) ==> LogUndoable(h, m, v, f);
    }
  }

  /** `_append_offsets`: each declared log once, with its current size. */
  method AppendOffsets(disk: Disk, files: seq<LogFile>, ghost v: View) returns (s: Status, offsets: seq<(LogFile, nat)>)
    requires Sound(disk.fs) && Shows(disk.fs, v)
    modifies disk
    ensures disk.fs == old(disk.fs)
    ensures s.Done? ==> forall k :: 0 <= k < |offsets| ==> offsets[k].1 == |v.logs[offsets[k].0]|
    ensures s.Done? ==> forall i :: 0 <= i < |files| ==> Recorded(offsets, files[i])
    ensures forall k :: 0 <= k < |offsets| ==> offsets[k].0 in files
    ensures forall j, k :: 0 <= j < k < |offsets| ==> offsets[j].0 != offsets[k].0
    ensures s.Raised? ==> !s.unsafe
    ensures Faults(disk.fates) <= Faults(old(disk.fates)) && (!s.Done? ==> Faults(disk.fates) < Faults(old(disk.fates)))
  {
    s, offsets := Done, [];
    var i := 0;
    while i < |files|
      invariant i <= |files| && s.Done? && disk.fs == old(disk.fs) && Faults(disk.fates) <= Faults(old(disk.fates))
      invariant forall k :: 0 <= k < |offsets| ==> offsets[k].1 == |v.logs[offsets[k].0]|
      invariant forall j :: 0 <= j < i ==> Recorded(offsets, files[j])
      invariant forall k :: 0 <= k < |offsets| ==> offsets[k].0 in files
      invariant forall j, k :: 0 <= j < k < |offsets| ==> offsets[j].0 != offsets[k].0
    {
      if !Recorded(offsets, files[i]) {
        s := disk.Call(Sync);
        if !s.Done? { return; }
        assert Holds(disk.fs, Log(files[i]), v.logs[files[i]]);
        ghost var before := offsets;
        offsets := offsets + [(files[i], |Read(disk.fs, Log(files[i])).value.bytes|)];
        RecordedGrows(before, offsets[|before|]);
        assert offsets[|before|].0 == files[i];
      }
      i := i + 1;
    }
  }

  predicate Recorded(offsets: seq<(LogFile, nat)>, f: LogFile) {
    exists k :: 0 <= k < |offsets| && offsets[k].0 == f
  }

  lemma RecordedGrows(offsets: seq<(LogFile, nat)>, entry: (LogFile, nat))
    ensures forall f :: Recorded(offsets, f) ==> Recorded(offsets + [entry], f)
  {
    forall f | Recorded(offsets, f)
      ensures Recorded(offsets + [entry], f)
    {
      var k :| 0 <= k < |offsets| && offsets[k].0 == f;
      assert (offsets + [entry])[k].0 == f;
    }
  }

  /** `begin_evidence_transaction`: resolve an earlier transaction, take backups, write the marker. */
  method BeginEvidenceTransaction(disk: Disk, appendFiles: seq<LogFile>, replacePatterns: bool, ghost v: View)
    returns (s: Status, transaction: EvidenceTransaction?)
    requires Settles(disk.fs, v)
    modifies disk
    ensures s.Done? ==>
              && transaction != null && fresh(transaction) && transaction.disk == disk
              && InBody(disk.fs, transaction.marker, v) && Shows(disk.fs, v)
              && transaction.marker.state == Prepared && transaction.marker.replacePatterns == replacePatterns
              && forall i :: 0 <= i < |appendFiles| ==> Declared(transaction.marker, appendFiles[i])
    ensures !s.Done? ==> Settles(disk.fs, v)
    ensures s.Raised? && !s.unsafe ==> Read(disk.fs, Marker).None?
    ensures Faults(disk.fates) <= Faults(old(disk.fates)) && (!s.Done? ==> Faults(disk.fates) < Faults(old(disk.fates)))
  {
    transaction := null;
    var outcome, offsets;
    s, outcome := RecoverEvidenceTransaction(disk, v);
    if !s.Done? { return; }
    s, offsets := AppendOffsets(disk, appendFiles, v);
    if !s.Done? { return; }
    s := disk.Call(Sync);
    if !s.Done? { return; }
    var marker := MarkerRecord(
      Prepared, offsets, replacePatterns, Digest(Read(disk.fs, Metadata).value.bytes),
      if replacePatterns then Some(Digest(Read(disk.fs, Patterns).value.bytes)) else None, None);
    ghost var renamed;
    s, renamed := WritePreparation(disk, marker, v);
    if s.Raised? {
      PreparationSettles(disk.fs, marker, v, renamed);
      var cleaned := Cleanup(disk, v);
      if !cleaned.Done? {
        s := if cleaned.Raised? then Raised(true) else Crashed;
      }
      return;
    }
    if s.Crashed? {
      PreparationSettles(disk.fs, marker, v, renamed);
      return;
    }
    assert forall i :: 0 <= i < |appendFiles| ==> Recorded(offsets, appendFiles[i]) ==> Declared(marker, appendFiles[i]);
    transaction := new EvidenceTransaction(disk, marker);
  }

  ghost predicate Prepares(m: MarkerRecord, v: View)
    requires Total(v)
  {
    && m.state == Prepared && ValidMarker(m)
    && (forall k :: 0 <= k < |m.appendOffsets| ==> m.appendOffsets[k].1 == |v.logs[m.appendOffsets[k].0]|)
    && m.metadataBefore == Digest(v.metadata)
    && (m.replacePatterns ==> m.patternsBefore == Some(Digest(v.patterns)))
  }

  /** `v` shown, backups possibly taken, and the marker written or not. */
  ghost predicate Preparing(fs: Fs, m: MarkerRecord, v: View, renamed: bool) {
    && Sound(fs) && Shows(fs, v) && Prepares(m, v)
    && (Read(fs, MetadataBackup).Some? ==> Holds(fs, MetadataBackup, v.metadata))
    && (Read(fs, PatternsBackup).Some? ==> Holds(fs, PatternsBackup, v.patterns))
    && Read(fs, Marker) == if renamed then Some(Json(m)) else None
  }

  lemma PreparationSettles(fs: Fs, m: MarkerRecord, v: View, renamed: bool)
    requires Preparing(fs, m, v, renamed)
    ensures Settles(fs, v) && Shows(fs, v)
    ensures renamed ==> CanRollBack(fs, m, v)
  {
    if renamed {
      forall f: LogFile
        ensures LogUndoable(fs, m, v, f)
      {
        assert Holds(fs, Log(f), v.logs[f]);
      }
    }
  }

  method WritePreparation(disk: Disk, marker: MarkerRecord, ghost v: View) returns (s: Status, ghost renamed: bool)
    requires Clean(disk.fs, v) && Prepares(marker, v)
    modifies disk
    ensures Preparing(disk.fs, marker, v, renamed)
    ensures s.Done? ==> renamed && InBody(disk.fs, marker, v)
    ensures s.Raised? ==> !s.unsafe
    ensures Faults(disk.fates) <= Faults(old(disk.fates)) && (!s.Done? ==> Faults(disk.fates) < Faults(old(disk.fates)))
  {
    renamed := false;
    s := TakeBackups(disk, marker, v);
    if !s.Done? { return; }
    ghost var g := disk.fs;
    assert Sound(g);
    hide Preparing, InBody, BackedUp;
    s, renamed := WriteSerialized(disk, Marker, Json(marker));
    MarkerPrepared(g, disk.fs, marker, v, renamed);
  }

  /** Hard links to the files the unit will replace. */
  method TakeBackups(disk: Disk, marker: MarkerRecord, ghost v: View) returns (s: Status)
    requires Clean(disk.fs, v) && Prepares(marker, v)
    modifies disk
    ensures Preparing(disk.fs, marker, v, false)
    ensures s.Done? ==> BackedUp(disk.fs, marker, v)
    ensures s.Raised? ==> !s.unsafe
    ensures Faults(disk.fates) <= Faults(old(disk.fates)) && (!s.Done? ==> Faults(disk.fates) < Faults(old(disk.fates)))
  {
    hide WellFormed, Separate, Apply;
    assert Holds(disk.fs, Metadata, v.metadata) && Holds(disk.fs, Patterns, v.patterns);
    Absent(disk.fs, MetadataBackup);
    s := disk.Call(Link(Metadata, MetadataBackup));
    if !s.Done? { return; }
    if marker.replacePatterns {
      Absent(disk.fs, PatternsBackup);
      s := disk.Call(Link(Patterns, PatternsBackup));
      if !s.Done? { return; }
    }
    s := disk.Call(Sync);
  }

  lemma Absent(fs: Fs, n: Name)
    requires WellFormed(fs) && Read(fs, n).None?
    ensures n !in fs.names
  {
  }

  ghost predicate BackedUp(fs: Fs, m: MarkerRecord, v: View) {
    Holds(fs, MetadataBackup, v.metadata) && (m.replacePatterns ==> Holds(fs, PatternsBackup, v.patterns))
  }

  lemma MarkerPrepared(g: Fs, h: Fs, m: MarkerRecord, v: View, renamed: bool)
    requires Preparing(g, m, v, false) && BackedUp(g, m, v) && Sound(h)
    requires if renamed then Replaced(g, h, Marker, Json(m)) else SameVisible(g, h)
    ensures Preparing(h, m, v, renamed) && (renamed ==> InBody(h, m, v))
  {
    assert forall f: LogFile :: Read(h, Log(f)) == Read(g, Log(f));
    if renamed {
      PreparationSettles(h, m, v, renamed);
    }
  }

  ghost predicate Covers(m: MarkerRecord, unit: Unit) {
    && m.replacePatterns == unit.patterns.Some?
    && forall i :: 0 <= i < |unit.appends| ==> Declared(m, unit.appends[i].0)
  }

  /** The body's appends, in order. */
  method AppendEvidence(transaction: EvidenceTransaction, unit: Unit, ghost v: View) returns (s: Status)
    requires InBody(transaction.disk.fs, transaction.marker, v) && Shows(transaction.disk.fs, v)
    requires Covers(transaction.marker, unit)
    modifies transaction.disk
    ensures InBody(transaction.disk.fs, transaction.marker, v)
    ensures Holds(transaction.disk.fs, Metadata, v.metadata)
    ensures s.Done? ==> Shows(transaction.disk.fs, v.(logs := AppendAll(v.logs, unit.appends)))
    ensures Faults(transaction.disk.fates) <= Faults(old(transaction.disk.fates))
    ensures !s.Done? ==> Faults(transaction.disk.fates) < Faults(old(transaction.disk.fates))
    ensures s.Raised? ==> !s.unsafe
  {
    var disk := transaction.disk;
    ghost var m := transaction.marker;
    s := Done;
    var i := 0;
    ghost var logs := v.logs;
    assert unit.appends[..0] == [];
    hide InBody, Shows, LogIs;
    while i < |unit.appends|
      invariant i <= |unit.appends| && s.Done? && Faults(disk.fates) <= Faults(old(disk.fates))
      invariant Total(v) && Grown(v, logs) && logs == AppendAll(v.logs, unit.appends[..i])
      invariant InBody(disk.fs, m, v) && Shows(disk.fs, v.(logs := logs))
    {
      var (f, data) := unit.appends[i];
      ghost var g, written := disk.fs, 0;
      LogInBody(g, m, v, logs, f);
      s, written := AppendSerialized(disk, f, data);
      AppendedInBody(g, disk.fs, m, v, logs, f, data, written);
      if !s.Done? { return; }
      AppendAllNext(v.logs, unit.appends, i);
      logs := logs[f := logs[f] + data];
      i := i + 1;
    }
    assert unit.appends[..i] == unit.appends;
  }

  /** The logs only ever grew. */
  ghost predicate Grown(v: View, logs: map<LogFile, seq<byte>>)
    requires Total(v)
  {
    forall f: LogFile :: f in logs && v.logs[f] <= logs[f]
  }

  lemma AppendAllNext(logs: map<LogFile, seq<byte>>, appends: seq<(LogFile, seq<byte>)>, i: nat)
    requires i < |appends| && forall f: LogFile :: f in logs
    ensures var before, (f, data) := AppendAll(logs, appends[..i]), appends[i];
            AppendAll(logs, appends[..i + 1]) == before[f := before[f] + data]
  {
    assert appends[..i + 1][..i] == appends[..i];
  }

  lemma LogInBody(g: Fs, m: MarkerRecord, v: View, logs: map<LogFile, seq<byte>>, f: LogFile)
    requires InBody(g, m, v) && Shows(g, v.(logs := logs))
    ensures Sound(g) && f in logs && Holds(g, Log(f), logs[f]) && Holds(g, Metadata, v.metadata)
  {
  }

  lemma AppendedInBody(g: Fs, h: Fs, m: MarkerRecord, v: View, logs: map<LogFile, seq<byte>>, f: LogFile, data: seq<byte>, written: nat)
    requires InBody(g, m, v) && Declared(m, f) && Total(v) && Grown(v, logs) && Shows(g, v.(logs := logs))
    requires written <= |data| && Sound(h) && LogIs(g, h, f, logs[f] + data[..written])
    ensures InBody(h, m, v) && Holds(h, Metadata, v.metadata)
    ensures written == |data| ==>
              var next := logs[f := logs[f] + data];
              Grown(v, next) && Shows(h, v.(logs := next))
  {
    AppendKeepsBody(g, h, m, v, f, logs[f] + data[..written]);
    assert Holds(g, Metadata, v.metadata) && Holds(g, Patterns, v.patterns);
    hide InBody, CanRollBack, Sound;
    if written == |data| {
      assert data[..written] == data;
      var next := logs[f := logs[f] + data];
      forall x: LogFile
        ensures Holds(h, Log(x), next[x])
      {
        assert Holds(g, Log(x), logs[x]);
      }
    }
  }

  /** The `with` body the session store runs: evidence, patterns, announced metadata, metadata. */
  method WriteUnit(transaction: EvidenceTransaction, unit: Unit, ghost v: View) returns (s: Status)
    requires InBody(transaction.disk.fs, transaction.marker, v) && Shows(transaction.disk.fs, v)
    requires transaction.marker.state == Prepared && Covers(transaction.marker, unit)
    modifies transaction, transaction.disk
    ensures Interrupted(transaction.disk.fs, transaction.marker, v, NewView(v, unit)) && ValidMarker(transaction.marker)
    ensures s.Done? ==>
              && Read(transaction.disk.fs, Marker) == Some(Json(transaction.marker))
              && transaction.marker.state == EvidenceWritten
              && Effective(transaction.disk.fs, transaction.marker) && Shows(transaction.disk.fs, NewView(v, unit))
    ensures Faults(transaction.disk.fates) <= Faults(old(transaction.disk.fates))
    ensures !s.Done? ==> Faults(transaction.disk.fates) < Faults(old(transaction.disk.fates))
    ensures s.Raised? ==> !s.unsafe
  {
    var disk := transaction.disk;
    ghost var m, w := transaction.marker, v.(logs := AppendAll(v.logs, unit.appends));
    BodyIsInterrupted(disk.fs, m, v, NewView(v, unit));
    UnitShown(v, unit, w);
    hide InBody, Shows, Interrupted, Covers, NewView, Replaced, SameVisible;
    s := AppendEvidence(transaction, unit, v);
    BodyIsInterrupted(disk.fs, m, v, NewView(v, unit));
    if !s.Done? { return; }
    if unit.patterns.Some? {
      s := ReplacePatterns(transaction, unit.patterns.value, v, w);
      BodyIsInterrupted(disk.fs, m, v, NewView(v, unit));
      if !s.Done? { return; }
      w := w.(patterns := unit.patterns.value);
    }
    ghost var g1, renamed := disk.fs, false;
    s := transaction.PrepareMetadata(unit.metadata, v);
    AnnouncedIsInterrupted(g1, disk.fs, m, transaction.marker, v, w, unit.metadata);
    if !s.Done? { return; }
    ghost var g2 := disk.fs;
    BodyIsSound(g2, transaction.marker, v);
    s, renamed := WriteSerialized(disk, Metadata, Bytes(unit.metadata));
    MetadataIsInterrupted(g2, disk.fs, transaction.marker, v, w, unit.metadata, renamed);
  }

  method ReplacePatterns(transaction: EvidenceTransaction, patterns: seq<byte>, ghost v: View, ghost w: View) returns (s: Status)
    requires InBody(transaction.disk.fs, transaction.marker, v) && Shows(transaction.disk.fs, w)
    requires transaction.marker.replacePatterns && w.metadata == v.metadata
    modifies transaction.disk
    ensures InBody(transaction.disk.fs, transaction.marker, v)
    ensures Holds(transaction.disk.fs, Metadata, v.metadata)
    ensures s.Done? ==> Shows(transaction.disk.fs, w.(patterns := patterns))
    ensures Faults(transaction.disk.fates) <= Faults(old(transaction.disk.fates))
    ensures !s.Done? ==> Faults(transaction.disk.fates) < Faults(old(transaction.disk.fates))
    ensures s.Raised? ==> !s.unsafe
  {
    var disk := transaction.disk;
    ghost var g, m, renamed := disk.fs, transaction.marker, false;
    BodyIsSound(g, m, v);
    hide InBody, Shows, Replaced, SameVisible;
    s, renamed := WriteSerialized(disk, Patterns, Bytes(patterns));
    PatternsReplaced(g, disk.fs, m, v, w, patterns, renamed);
  }

  lemma PatternsReplaced(g: Fs, h: Fs, m: MarkerRecord, v: View, w: View, patterns: seq<byte>, renamed: bool)
    requires InBody(g, m, v) && Shows(g, w) && m.replacePatterns && w.metadata == v.metadata && Sound(h)
    requires if renamed then Replaced(g, h, Patterns, Bytes(patterns)) else SameVisible(g, h)
    ensures InBody(h, m, v) && Holds(h, Metadata, v.metadata)
    ensures renamed ==> Shows(h, w.(patterns := patterns))
  {
    assert Holds(g, Metadata, v.metadata);
    if renamed {
      PatternsKeepBody(g, h, m, v, patterns);
      hide InBody;
      assert forall f: LogFile :: Holds(g, Log(f), w.logs[f]) ==> Holds(h, Log(f), w.logs[f]);
    } else {
      VisibleKeepsBody(g, h, m, v, w);
    }
  }

  lemma BodyIsSound(g: Fs, m: MarkerRecord, v: View)
    requires InBody(g, m, v)
    ensures Sound(g)
  {
  }

  lemma UnitShown(v: View, unit: Unit, w: View)
    requires Total(v) && w == v.(logs := AppendAll(v.logs, unit.appends))
    ensures NewView(v, unit) == (if unit.patterns.Some? then w.(patterns := unit.patterns.value) else w).(metadata := unit.metadata)
  {
  }

  /** While the metadata is still the old one, a stop in the body is undone. */
  lemma BodyIsInterrupted(g: Fs, m: MarkerRecord, v: View, new': View)
    requires InBody(g, m, v)
    ensures m.state == Prepared && Holds(g, Metadata, v.metadata) ==> Interrupted(g, m, v, new')
    ensures ValidMarker(m) && Total(v)
  {
  }

  lemma AnnouncedIsInterrupted(g: Fs, h: Fs, m: MarkerRecord, d: MarkerRecord, v: View, w: View, metadata: seq<byte>)
    requires InBody(g, m, v) && m.state == Prepared && Shows(g, w) && w.metadata == v.metadata
    requires SameUndo(m, d) && d.state == EvidenceWritten && d.expectedMetadata == Some(Digest(metadata))
    requires if Read(h, Marker) == Some(Json(d)) then InBody(h, d, v) && Replaced(g, h, Marker, Json(d)) else InBody(h, m, v)
    requires Holds(h, Metadata, v.metadata)
    ensures Interrupted(h, d, v, w.(metadata := metadata))
    ensures Read(h, Marker) == Some(Json(d)) ==> Shows(h, w)
  {
    if Read(h, Marker) == Some(Json(d)) {
      assert forall f: LogFile :: Holds(g, Log(f), w.logs[f]) ==> Holds(h, Log(f), w.logs[f]);
    } else {
      assert forall f: LogFile :: LogUndoable(h, m, v, f) ==> LogUndoable(h, d, v, f);
    }
  }

  lemma MetadataIsInterrupted(g: Fs, h: Fs, d: MarkerRecord, v: View, w: View, metadata: seq<byte>, renamed: bool)
    requires InBody(g, d, v) && d.state == EvidenceWritten && d.expectedMetadata == Some(Digest(metadata))
    requires Shows(g, w) && Interrupted(g, d, v, w.(metadata := metadata)) && Sound(h)
    requires if renamed then Replaced(g, h, Metadata, Bytes(metadata)) else SameVisible(g, h)
    ensures Interrupted(h, d, v, w.(metadata := metadata)) && Read(h, Marker) == Some(Json(d))
    ensures renamed ==> Effective(h, d) && Shows(h, w.(metadata := metadata))
  {
    if renamed {
      MetadataKeepsBody(g, h, d, v, metadata);
      assert forall f: LogFile :: Holds(g, Log(f), w.logs[f]) ==> Holds(h, Log(f), w.logs[f]);
    } else {
      VisibleKeepsBody(g, h, d, v, w);
      if Effective(g, d) {
        VisibleKeepsBody(g, h, d, v, w.(metadata := metadata));
      }
    }
  }

  /** What a transaction may leave on the disk `h`: all-old or all-new, and all-new exactly when the
      metadata file already is the new one, unless a rollback was begun `late`, after the metadata was
      replaced; then `h` is one of the stages `RollbackBoundary` speaks about. */
  ghost predicate Outcome(h: Fs, v: View, unit: Unit, s: Status, began: bool, late: Option<(Fs, MarkerRecord)>)
    requires Total(v)
  {
    var new' := NewView(v, unit);
    && (s.Done? ==> began && late.None? && Settles(h, new') && Shows(h, new'))
    && (s.Raised? && !s.unsafe ==> Settles(h, v) && Read(h, Marker).None? && (began ==> Clean(h, v)))
    && (!began ==> late.None? && Settles(h, v))
    && (late.None? ==> Settles(h, v) || Settles(h, new'))
    && (began && late.None? && v.metadata != unit.metadata ==>
          Settles(h, if Holds(h, Metadata, unit.metadata) then new' else v))
    && (late.Some? ==>
          var (g, m) := late.value;
          && CanRollBack(g, m, v) && Effective(g, Read(g, Marker).value.marker) && Shows(g, new')
          && ReachedBy(g, RollbackCalls(g, m), h))
  }

  /** `evidence_transaction`, over every spread of errors and crashes. Without any it commits; an error is
      reported as unsafe only when undoing or the commit bookkeeping failed as well. */
  method RunEvidenceTransaction(disk: Disk, appendFiles: seq<LogFile>, unit: Unit, ghost v: View)
    returns (s: Status, ghost began: bool, ghost late: Option<(Fs, MarkerRecord)>)
    requires Settles(disk.fs, v) && Total(v)
    requires forall i :: 0 <= i < |unit.appends| ==> unit.appends[i].0 in appendFiles
    modifies disk
    ensures Outcome(disk.fs, v, unit, s, began, late)
    ensures Faults(disk.fates) <= Faults(old(disk.fates))
    ensures Faults(disk.fates) == Faults(old(disk.fates)) ==> s.Done? && Clean(disk.fs, NewView(v, unit))
    ensures s.Raised? && s.unsafe && began ==> Faults(disk.fates) + 2 <= Faults(old(disk.fates))
  {
    hide *;
    late, began := None, false;
    var transaction;
    s, transaction := BeginEvidenceTransaction(disk, appendFiles, unit.patterns.Some?, v);
    if !s.Done? {
      NotBegun(disk.fs, v, unit, s);
      return;
    }
    began := true;
    ghost var new' := NewView(v, unit);
    CoversDeclared(transaction.marker, appendFiles, unit);
    s := WriteUnit(transaction, unit, v);
    ghost var g, m := disk.fs, transaction.marker;
    if s.Crashed? {
      StoppedInBody(g, m, v, unit);
      return;
    }
    if s.Raised? {
      InterruptedOutcome(g, m, v, new', unit);
      var undone := transaction.Rollback(v);
      if Effective(g, Read(g, Marker).value.marker) {
        late := Some((g, m));
      }
      if !undone.Done? {
        s := if undone.Raised? then Raised(true) else Crashed;
      }
      Undone(g, m, v, unit, disk.fs, s);
      return;
    }
    ReadyToCommit(g, m, v, new');
    s := transaction.Commit(new');
    Kept(disk.fs, v, unit, s);
  }

  lemma NotBegun(h: Fs, v: View, unit: Unit, s: Status)
    requires Total(v) && Settles(h, v) && !s.Done? && (s.Raised? && !s.unsafe ==> Read(h, Marker).None?)
    ensures Outcome(h, v, unit, s, false, None)
  {
  }

  lemma StoppedInBody(g: Fs, m: MarkerRecord, v: View, unit: Unit)
    requires Total(v) && Interrupted(g, m, v, NewView(v, unit))
    ensures Outcome(g, v, unit, Crashed, true, None)
  {
    hide Interrupted, CanRollBack, Settles, Effective;
    InterruptedOutcome(g, m, v, NewView(v, unit), unit);
  }

  /** After a rollback that began in the body, complete or not. */
  lemma Undone(g: Fs, m: MarkerRecord, v: View, unit: Unit, h: Fs, s: Status)
    requires Total(v) && Interrupted(g, m, v, NewView(v, unit)) && ReachedBy(g, RollbackCalls(g, m), h) && !s.Done?
    requires !Effective(g, Read(g, Marker).value.marker) ==> Settles(h, v)
    requires s.Raised? && !s.unsafe ==> Clean(h, v)
    ensures Outcome(h, v, unit, s, true, if Effective(g, Read(g, Marker).value.marker) then Some((g, m)) else None)
  {
    hide Interrupted, CanRollBack, ReachedBy, RollbackCalls, Effective;
    InterruptedOutcome(g, m, v, NewView(v, unit), unit);
    if !Effective(g, Read(g, Marker).value.marker) {
      EarlyRollbackOutcome(g, m, v, h);
    }
  }

  lemma ReadyToCommit(g: Fs, m: MarkerRecord, v: View, new': View)
    requires Interrupted(g, m, v, new') && Read(g, Marker) == Some(Json(m)) && Effective(g, m)
    ensures Settles(g, new')
  {
    hide Interrupted, Settles, Effective;
    InterruptedSettles(g, m, v, new');
  }

  lemma Kept(h: Fs, v: View, unit: Unit, s: Status)
    requires Total(v) && Settles(h, NewView(v, unit)) && Shows(h, NewView(v, unit)) && (s.Raised? ==> s.unsafe)
    ensures Outcome(h, v, unit, s, true, None)
  {
    hide Settles;
    CommittedOutcome(h, v, unit);
  }

  lemma CoversDeclared(m: MarkerRecord, files: seq<LogFile>, unit: Unit)
    requires m.replacePatterns == unit.patterns.Some?
    requires forall i :: 0 <= i < |unit.appends| ==> unit.appends[i].0 in files
    requires forall i :: 0 <= i < |files| ==> Declared(m, files[i])
    ensures Covers(m, unit)
  {
    forall i | 0 <= i < |unit.appends|
      ensures Declared(m, unit.appends[i].0)
    {
      var j :| 0 <= j < |files| && files[j] == unit.appends[i].0;
    }
  }

  lemma InterruptedOutcome(g: Fs, m: MarkerRecord, v: View, new': View, unit: Unit)
    requires Total(v) && new' == NewView(v, unit) && Interrupted(g, m, v, new')
    ensures CanRollBack(g, m, v)
    ensures Settles(g, v) || Settles(g, new')
    ensures v.metadata != unit.metadata ==> Settles(g, if Holds(g, Metadata, unit.metadata) then new' else v)
    ensures Effective(g, Read(g, Marker).value.marker) ==> Shows(g, new')
    ensures Effective(g, Read(g, Marker).value.marker) || Holds(g, Metadata, v.metadata)
  {
    InterruptedSettles(g, m, v, new');
  }

  lemma EarlyRollbackOutcome(g: Fs, m: MarkerRecord, v: View, h: Fs)
    requires CanRollBack(g, m, v) && Holds(g, Metadata, v.metadata)
    requires ReachedBy(g, RollbackCalls(g, m), h) && Settles(h, v)
    ensures forall bytes :: bytes != v.metadata ==> !Holds(h, Metadata, bytes)
  {
    var k :| 0 <= k <= |RollbackCalls(g, m)| && h == After(g, RollbackCalls(g, m)[..k]);
    RollbackStages(g, m, v, k);
  }

  lemma CommittedOutcome(h: Fs, v: View, unit: Unit)
    requires Total(v) && Shows(h, NewView(v, unit))
    ensures Holds(h, Metadata, unit.metadata)
  {
  }
}
