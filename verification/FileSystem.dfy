/**
  A session directory as names, inodes and bytes.

  Every system call is one atomic step, persisted in program order. Before each step a fate is
  drawn: the call proceeds, fails with an operating-system error, or the process crashes. A fate
  list is finite, so any finite number of failures and crashes can be spread over any run.
*/
module FileSystem {
  import opened Wrappers
  import opened Splitting

  datatype LogFile = UartRaw | UartEvents | OperationEvents | HardwareEvents | ConnectionEvents

  datatype Name =
    | Metadata
    | Patterns
    | Log(file: LogFile)
    | MetadataBackup
    | PatternsBackup
    | Marker
    | Temporary(serial: nat)

  /** SHA-256 seen as an injective function of the bytes. */
  datatype Digest = Digest(of: seq<byte>)

  datatype MarkerState = Prepared | EvidenceWritten | Committed

  datatype MarkerRecord = MarkerRecord(
    state: MarkerState,
    appendOffsets: seq<(LogFile, nat)>,
    replacePatterns: bool,
    metadataBefore: Digest,
    patternsBefore: Option<Digest>,
    expectedMetadata: Option<Digest>)

  /** File contents: evidence bytes, a marker document, or a half-written temporary file. */
  datatype Content = Bytes(bytes: seq<byte>) | Json(marker: MarkerRecord) | Torn

  datatype Fs = Fs(names: map<Name, nat>, files: map<nat, Content>, nextInode: nat)

  datatype Syscall =
    | Link(source: Name, target: Name)
    | Rename(source: Name, target: Name)
    | Unlink(name: Name)
    | Truncate(name: Name, length: nat)
    | Write(name: Name, data: seq<byte>)
    | Create(name: Name)
    | Fill(name: Name, content: Content)
    | Sync

  ghost predicate WellFormed(fs: Fs) {
    && (forall n :: n in fs.names ==> fs.names[n] in fs.files)
    && (forall i :: i in fs.files ==> i < fs.nextInode)
    && (forall k: nat :: Temporary(k) in fs.names ==> k < fs.nextInode)
  }

  /** Two names may share a file only when one is the hard-link backup of the other. */
  predicate BackupPair(a: Name, b: Name) {
    || (a == Metadata && b == MetadataBackup) || (a == MetadataBackup && b == Metadata)
    || (a == Patterns && b == PatternsBackup) || (a == PatternsBackup && b == Patterns)
  }

  predicate SameFile(fs: Fs, a: Name, b: Name) {
    a in fs.names && b in fs.names && fs.names[a] == fs.names[b]
  }

  ghost predicate Separate(fs: Fs) {
    forall a, b :: SameFile(fs, a, b) ==> a == b || BackupPair(a, b)
  }

  ghost predicate Sound(fs: Fs) {
    WellFormed(fs) && Separate(fs)
  }

  /** The contents behind a name, if it exists. */
  function Read(fs: Fs, n: Name): Option<Content> {
    if n in fs.names && fs.names[n] in fs.files then Some(fs.files[fs.names[n]]) else None
  }

  predicate Holds(fs: Fs, n: Name, bytes: seq<byte>) {
    Read(fs, n) == Some(Bytes(bytes))
  }

  predicate HoldsBytes(fs: Fs, n: Name) {
    Read(fs, n).Some? && Read(fs, n).value.Bytes?
  }

  /** Whether the call can succeed at all: `O_EXCL` needs an unused name, `link` never overwrites. */
  predicate Enabled(fs: Fs, op: Syscall) {
    match op
    case Link(source, target) => Read(fs, source).Some? && target !in fs.names
    case Rename(source, _) => Read(fs, source).Some?
    case Unlink(_) => true
    case Truncate(n, length) => HoldsBytes(fs, n) && length <= |Read(fs, n).value.bytes|
    case Write(n, _) => HoldsBytes(fs, n)
    case Create(n) => n !in fs.names
    case Fill(n, _) => Read(fs, n).Some?
    case Sync => true
  }

  function WithContent(fs: Fs, n: Name, content: Content): Fs
    requires n in fs.names
  {
    fs.(files := fs.files[fs.names[n] := content])
  }

  /** The effect of one successful call. Renaming over another link to the same file does nothing
      and leaves both names (POSIX.1-2017, System Interfaces, rename). */
  function Apply(fs: Fs, op: Syscall): Fs
    requires Enabled(fs, op)
  {
    match op
    case Link(source, target) => fs.(names := fs.names[target := fs.names[source]])
    case Rename(source, target) =>
      if SameFile(fs, source, target) then fs
      else fs.(names := fs.names[target := fs.names[source]] - {source})
    case Unlink(n) => fs.(names := fs.names - {n})
    case Truncate(n, length) => WithContent(fs, n, Bytes(Read(fs, n).value.bytes[..length]))
    case Write(n, data) => WithContent(fs, n, Bytes(Read(fs, n).value.bytes + data))
    case Create(n) => Fs(fs.names[n := fs.nextInode], fs.files[fs.nextInode := Torn], fs.nextInode + 1)
    case Fill(n, content) => WithContent(fs, n, content)
    case Sync => fs
  }

  /** The calls the session store makes: in-place changes only to append-only logs and temporary
      files, links and renames only between a file and its backup or from a temporary file. */
  predicate Disciplined(fs: Fs, op: Syscall) {
    match op
    case Link(source, target) => BackupPair(source, target)
    case Rename(source, target) => !target.Temporary? && (source.Temporary? || BackupPair(source, target))
    case Unlink(_) => true
    case Truncate(n, _) => n.Log?
    case Write(n, _) => n.Log?
    case Create(n) => n == Temporary(fs.nextInode)
    case Fill(n, _) => n.Temporary?
    case Sync => true
  }

  /** What a name holds afterwards, without looking at inodes again. */
  function ReadAfter(fs: Fs, op: Syscall, n: Name): Option<Content>
    requires Enabled(fs, op)
  {
    match op
    case Link(source, target) => if n == target then Read(fs, source) else Read(fs, n)
    case Rename(source, target) =>
      if SameFile(fs, source, target) then Read(fs, n)
      else if n == source then None
      else if n == target then Read(fs, source)
      else Read(fs, n)
    case Unlink(gone) => if n == gone then None else Read(fs, n)
    case Truncate(m, length) => if n == m then Some(Bytes(Read(fs, m).value.bytes[..length])) else Read(fs, n)
    case Write(m, data) => if n == m then Some(Bytes(Read(fs, m).value.bytes + data)) else Read(fs, n)
    case Create(m) => if n == m then Some(Torn) else Read(fs, n)
    case Fill(m, content) => if n == m then Some(content) else Read(fs, n)
    case Sync => Read(fs, n)
  }

  /** Disciplined calls keep files separate, so each changes what is said of the names it mentions
      and of no other. */
  lemma ApplySound(fs: Fs, op: Syscall)
    requires Sound(fs) && Enabled(fs, op) && Disciplined(fs, op)
    ensures Sound(Apply(fs, op))
    ensures forall n :: Read(Apply(fs, op), n) == ReadAfter(fs, op, n)
  {
    var g := Apply(fs, op);
    match op
    case Link(source, target) =>
      forall a, b | SameFile(g, a, b)
        ensures a == b || BackupPair(a, b)
      {
        var a', b' := if a == target then source else a, if b == target then source else b;
        assert SameFile(fs, a', b');
      }
    case Rename(source, target) =>
      if !SameFile(fs, source, target) {
        forall a, b | SameFile(g, a, b)
          ensures a == b || BackupPair(a, b)
        {
          var a', b' := if a == target then source else a, if b == target then source else b;
          assert SameFile(fs, a', b');
        }
      }
    case Unlink(_) =>
      assert forall a, b :: SameFile(g, a, b) ==> SameFile(fs, a, b);
    case Truncate(n, _) => AloneUnchanged(fs, n, Bytes(Read(fs, n).value.bytes[..op.length]));
    case Write(n, data) => AloneUnchanged(fs, n, Bytes(Read(fs, n).value.bytes + data));
    case Create(n) =>
      forall a, b | SameFile(g, a, b)
        ensures a == b || BackupPair(a, b)
      {
        if a != n && b != n {
          assert SameFile(fs, a, b);
        }
      }
    case Fill(n, content) => AloneUnchanged(fs, n, content);
    case Sync =>
  }

  lemma AloneUnchanged(fs: Fs, n: Name, content: Content)
    requires Sound(fs) && n in fs.names && (n.Log? || n.Temporary?)
    ensures var g := WithContent(fs, n, content);
            Sound(g) && forall m :: Read(g, m) == if m == n then Some(content) else Read(fs, m)
  {
    var g := WithContent(fs, n, content);
    assert forall a, b :: SameFile(g, a, b) ==> SameFile(fs, a, b);
    forall m
      ensures Read(g, m) == if m == n then Some(content) else Read(fs, m)
    {
      if m in fs.names && fs.names[m] == fs.names[n] {
        assert SameFile(fs, m, n);
      }
    }
  }

  lemma TemporaryUnused(fs: Fs)
    requires WellFormed(fs)
    ensures Temporary(fs.nextInode) !in fs.names
  {
  }

  // ----- A disk that can fail or crash before any call -----

  datatype Fate = Proceed(count: nat) | Error | Crash

  /** How many errors and crashes are still to come. */
  function Faults(fates: seq<Fate>): nat {
    if fates == [] then 0 else (if fates[0].Proceed? then 0 else 1) + Faults(fates[1..])
  }

  /** `Raised(unsafe)` is an exception leaving the function; `unsafe` marks the persistence errors
      after which a session must not be terminalized. */
  datatype Status = Done | Raised(unsafe: bool) | Crashed {
    predicate IsFailure() { !Done? }
    function PropagateFailure(): Status { this }
  }

  class Disk {
    var fs: Fs
    var fates: seq<Fate>

    constructor (fs: Fs, fates: seq<Fate>)
      ensures this.fs == fs && this.fates == fates
    {
      this.fs, this.fates := fs, fates;
    }

    method Draw() returns (fate: Fate)
      modifies this`fates
      ensures Faults(fates) == Faults(old(fates)) - if fate.Proceed? then 0 else 1
    {
      if fates == [] {
        return Proceed(0);
      }
      fate := fates[0];
      fates := fates[1..];
    }

    /** How many of `limit` bytes the next `write` accepts: short writes are allowed. */
    method ChunkSize(limit: nat) returns (n: nat)
      requires limit > 0
      ensures 0 < n <= limit
    {
      n := if fates != [] && fates[0].Proceed? && 0 < fates[0].count < limit then fates[0].count else limit;
    }

    /** One system call, or an error or crash that leaves the disk as it was. */
    method Call(op: Syscall) returns (s: Status)
      requires Sound(fs) && Disciplined(fs, op)
      modifies this
      ensures Sound(fs)
      ensures s.Done? ==>
                && Enabled(old(fs), op) && fs == Apply(old(fs), op)
                && forall n :: Read(fs, n) == ReadAfter(old(fs), op, n)
      ensures !s.Done? ==> fs == old(fs)
      ensures Faults(fates) <= Faults(old(fates)) && (s.Crashed? ==> Faults(fates) < Faults(old(fates)))
      ensures s.Raised? ==> !s.unsafe && (Faults(fates) < Faults(old(fates)) || !Enabled(fs, op))
    {
      var fate := Draw();
      if fate.Crash? {
        return Crashed;
      }
      if fate.Error? || !Enabled(fs, op) {
        return Raised(false);
      }
      ApplySound(fs, op);
      fs := Apply(fs, op);
      return Done;
    }
  }
}
