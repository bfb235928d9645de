/**
  Resumable reading of one session's durable evidence: four append-only record streams merged by
  evidence sequence, from a cursor that remembers one offset per stream.

  A session's evidence is the journal of its committed records in sequence order; each stream holds
  the lines of its own records. That the four streams partition the sequence numbers in increasing
  order is exactly what makes such a journal exist. Decoding a line is a parameter.
*/
module EvidenceTail {
  import opened Wrappers
  import opened Splitting
  import opened MinHeap

  const STREAMS: nat := 4
  const MAX_V2_JSONL_RECORD_BYTES := 65536

  datatype Format<!R> = Format(decode: seq<byte> -> Option<R>, sequenceOf: R -> int)

  datatype Committed = Committed(stream: nat, line: seq<byte>)

  /** A cursor: the next sequence number, and where to go on reading each stream. */
  datatype Position = Position(sequence: nat, offsets: seq<nat>)

  /** Open files, bounded at the lengths committed when the snapshot was taken; the files may have
      grown since. */
  datatype Snapshot = Snapshot(nextSequence: nat, streams: seq<seq<byte>>, lengths: seq<nat>)

  datatype Head<R> = Head(record: R, end: nat)

  datatype Item<R> = Item(record: R, after: Position)

  datatype ReadError = BeyondTail | NotAtBoundary | NotContiguous | BadEvidence

  datatype ReadResult<R> = Records(items: seq<Item<R>>) | Failed(error: ReadError)

  // ----- What the streams of a journal hold -----

  ghost function StreamBytes(j: seq<Committed>, i: nat): seq<byte> {
    if j == [] then []
    else StreamBytes(j[..|j| - 1], i) + if j[|j| - 1].stream == i then j[|j| - 1].line else []
  }

  /** The ends of all records below sequence `q`, stream by stream. */
  ghost function Ends(j: seq<Committed>, q: nat): seq<nat>
    requires q <= |j|
  {
    seq(STREAMS, (i: nat) => |StreamBytes(j[..q], i)|)
  }

  ghost predicate WellFormed<R>(f: Format<R>, j: seq<Committed>) {
    forall q :: 0 <= q < |j| ==>
      && j[q].stream < STREAMS && IsLine(j[q].line) && |j[q].line| <= MAX_V2_JSONL_RECORD_BYTES + 1
      && f.decode(j[q].line).Some? && f.sequenceOf(f.decode(j[q].line).value) == q
  }

  ghost predicate Commits(s: Snapshot, j: seq<Committed>) {
    && s.nextSequence == |j| && |s.streams| == |s.lengths| == STREAMS
    && forall i :: 0 <= i < STREAMS ==> s.lengths[i] <= |s.streams[i]| && s.streams[i][..s.lengths[i]] == StreamBytes(j, i)
  }

  ghost predicate ValidPosition(j: seq<Committed>, p: Position) {
    p.sequence <= |j| && p.offsets == Ends(j, p.sequence)
  }

  /** Record `q` of the journal, decoded. */
  ghost function RecordAt<R>(f: Format<R>, j: seq<Committed>, q: nat): R
    requires WellFormed(f, j) && q < |j|
  {
    f.decode(j[q].line).value
  }

  /** The item that reading record `q` must return. */
  ghost function ItemAt<R>(f: Format<R>, j: seq<Committed>, q: nat): Item<R>
    requires WellFormed(f, j) && q < |j|
  {
    Item(RecordAt(f, j, q), Position(q + 1, Ends(j, q + 1)))
  }

  lemma SnocStream(j: seq<Committed>, q: nat, i: nat)
    requires q < |j|
    ensures StreamBytes(j[..q + 1], i) == StreamBytes(j[..q], i) + if j[q].stream == i then j[q].line else []
  {
    assert j[..q + 1][..q] == j[..q];
  }

  lemma {:induction false} StreamGrows(j: seq<Committed>, a: nat, b: nat, i: nat)
    requires a <= b <= |j|
    ensures StreamBytes(j[..a], i) <= StreamBytes(j[..b], i)
  {
    if a < b {
      StreamGrows(j, a, b - 1, i);
      SnocStream(j, b - 1, i);
    }
  }

  /** A stream's bytes end at a record boundary. */
  lemma {:induction false} EndsWithNewline<R>(f: Format<R>, j: seq<Committed>, q: nat, i: nat)
    requires WellFormed(f, j) && q <= |j|
    ensures var s := StreamBytes(j[..q], i); s != [] ==> s[|s| - 1] == NEWLINE
  {
    if q > 0 {
      EndsWithNewline(f, j, q - 1, i);
      SnocStream(j, q - 1, i);
    }
  }

  /** The first record of stream `i` at or after sequence `q`, or `|j|`. */
  ghost function NextIn(j: seq<Committed>, q: nat, i: nat): (n: nat)
    requires q <= |j|
    ensures q <= n <= |j| && (n < |j| ==> j[n].stream == i)
    decreases |j| - q
  {
    if q == |j| || j[q].stream == i then q else NextIn(j, q + 1, i)
  }

  lemma {:induction false} NothingBetween(j: seq<Committed>, q: nat, i: nat)
    requires q <= |j|
    ensures StreamBytes(j[..NextIn(j, q, i)], i) == StreamBytes(j[..q], i)
    decreases |j| - q
  {
    if q < |j| && j[q].stream != i {
      NothingBetween(j, q + 1, i);
      SnocStream(j, q, i);
    }
  }

  // ----- Every partition of the sequence numbers is a journal -----

  ghost function SequenceOf<R>(f: Format<R>, line: seq<byte>): int {
    match f.decode(line) case Some(record) => f.sequenceOf(record) case None => -1
  }

  /** A complete, decodable record line. */
  ghost predicate IsRecord<R>(f: Format<R>, line: seq<byte>) {
    IsLine(line) && |line| <= MAX_V2_JSONL_RECORD_BYTES + 1 && f.decode(line).Some?
  }

  /** Each stream's lines carry increasing sequence numbers below `n`, and every number occurs exactly
      once across the streams. */
  ghost predicate Partition<R>(f: Format<R>, lines: seq<seq<seq<byte>>>, n: nat) {
    && |lines| == STREAMS
    && (forall i, k :: 0 <= i < STREAMS && 0 <= k < |lines[i]| ==> IsRecord(f, lines[i][k]) && 0 <= SequenceOf(f, lines[i][k]) < n)
    && (forall i, k, m :: 0 <= i < STREAMS && 0 <= k < m < |lines[i]| ==> SequenceOf(f, lines[i][k]) < SequenceOf(f, lines[i][m]))
    && (forall q :: 0 <= q < n ==> Occurs(f, lines, q))
    && (forall i, k, h, m :: 0 <= i < STREAMS && 0 <= h < STREAMS && i != h && 0 <= k < |lines[i]| && 0 <= m < |lines[h]| ==>
          SequenceOf(f, lines[i][k]) != SequenceOf(f, lines[h][m]))
  }

  ghost predicate Occurs<R>(f: Format<R>, lines: seq<seq<seq<byte>>>, q: int) {
    exists i, k :: 0 <= i < |lines| && 0 <= k < |lines[i]| && SequenceOf(f, lines[i][k]) == q
  }

  ghost predicate Streams(j: seq<Committed>, lines: seq<seq<seq<byte>>>) {
    |lines| == STREAMS && forall i :: 0 <= i < STREAMS ==> StreamBytes(j, i) == Concat(lines[i])
  }

  lemma Increasing<R>(f: Format<R>, lines: seq<seq<seq<byte>>>, n: nat, i: nat, k: nat, m: nat)
    requires Partition(f, lines, n) && i < STREAMS && k <= m < |lines[i]|
    ensures SequenceOf(f, lines[i][m]) < n && (k == m || SequenceOf(f, lines[i][k]) < SequenceOf(f, lines[i][m]))
  {
    hide SequenceOf, IsRecord, Occurs;
  }

  /** Without its last record, a partition is still one. */
  lemma PartitionWithoutLast<R>(f: Format<R>, lines: seq<seq<seq<byte>>>, n: nat, i: nat, k: nat)
    requires n > 0 && Partition(f, lines, n)
    requires i < STREAMS && k < |lines[i]| && SequenceOf(f, lines[i][k]) == n - 1
    ensures k == |lines[i]| - 1 && Partition(f, lines[i := lines[i][..k]], n - 1)
  {
    hide SequenceOf, IsRecord, Occurs;
    var less := lines[i := lines[i][..k]];
    Increasing(f, lines, n, i, k, |lines[i]| - 1);
    assert forall h, m :: 0 <= h < STREAMS && 0 <= m < |less[h]| ==> m < |lines[h]| && less[h][m] == lines[h][m];
    forall h, m | 0 <= h < STREAMS && 0 <= m < |less[h]|
      ensures IsRecord(f, less[h][m]) && 0 <= SequenceOf(f, less[h][m]) < n - 1
    {
      assert SequenceOf(f, lines[h][m]) != SequenceOf(f, lines[i][k]);
    }
    forall q | 0 <= q < n - 1
      ensures Occurs(f, less, q)
    {
      OccursStill(f, lines, i, k, q);
    }
  }

  lemma OccursStill<R>(f: Format<R>, lines: seq<seq<seq<byte>>>, i: nat, k: nat, q: int)
    requires i < |lines| && k + 1 == |lines[i]| && Occurs(f, lines, q) && q != SequenceOf(f, lines[i][k])
    ensures Occurs(f, lines[i := lines[i][..k]], q)
  {
    hide SequenceOf;
    var h, m :| 0 <= h < |lines| && 0 <= m < |lines[h]| && SequenceOf(f, lines[h][m]) == q;
    assert lines[i := lines[i][..k]][h][m] == lines[h][m];
  }

  lemma NoRecords<R>(f: Format<R>, lines: seq<seq<seq<byte>>>)
    requires Partition(f, lines, 0)
    ensures WellFormed(f, []) && Streams([], lines)
  {
    assert forall i :: 0 <= i < STREAMS && |lines[i]| > 0 ==> SequenceOf(f, lines[i][0]) < 0;
    assert forall i :: 0 <= i < STREAMS ==> |lines[i]| == 0;
  }

  /** Streams that partition the sequence numbers are the streams of a journal. */
  lemma {:induction false} JournalExists<R>(f: Format<R>, lines: seq<seq<seq<byte>>>, n: nat)
    requires Partition(f, lines, n)
    ensures exists j :: |j| == n && WellFormed(f, j) && Streams(j, lines)
    decreases n
  {
    hide *;
    if n == 0 {
      NoRecords(f, lines);
    } else {
      var i, k := Locate(f, lines, n);
      PartitionWithoutLast(f, lines, n, i, k);
      JournalExists(f, lines[i := lines[i][..k]], n - 1);
      var j :| |j| == n - 1 && WellFormed(f, j) && Streams(j, lines[i := lines[i][..k]]);
      JournalSnoc(f, j, lines, i, k);
      assert |j + [Committed(i, lines[i][k])]| == n;
    }
  }

  lemma Locate<R>(f: Format<R>, lines: seq<seq<seq<byte>>>, n: nat) returns (i: nat, k: nat)
    requires n > 0 && Partition(f, lines, n)
    ensures |lines| == STREAMS && i < STREAMS && k < |lines[i]| && SequenceOf(f, lines[i][k]) == n - 1 && IsRecord(f, lines[i][k])
  {
    assert Occurs(f, lines, n - 1);
    hide SequenceOf, IsRecord;
    i, k :| i < |lines| && k < |lines[i]| && SequenceOf(f, lines[i][k]) == n - 1;
  }

  lemma JournalSnoc<R>(f: Format<R>, j: seq<Committed>, lines: seq<seq<seq<byte>>>, i: nat, k: nat)
    requires |lines| == STREAMS && i < STREAMS && k + 1 == |lines[i]| && WellFormed(f, j) && Streams(j, lines[i := lines[i][..k]])
    requires IsRecord(f, lines[i][k]) && SequenceOf(f, lines[i][k]) == |j|
    ensures var g := j + [Committed(i, lines[i][k])]; WellFormed(f, g) && Streams(g, lines)
  {
    var line := lines[i][k];
    var g := j + [Committed(i, line)];
    assert g[..|j|] == j;
    assert lines[i] == lines[i][..k] + [line];
    ConcatAppend(lines[i][..k], [line]);
    assert Concat([line]) == line by { assert [line][1..] == []; assert line + [] == line; }
  }

  // ----- Reading one stream -----

  /** `readline(limit)` from position `p`. */
  function ReadLine(data: seq<byte>, p: nat, limit: nat): (line: seq<byte>)
    ensures p <= |data| ==> p + |line| <= |data|
  {
    if p >= |data| then []
    else
      var end := match FindNewline(data, p) case Some(i) => i + 1 case None => |data|;
      data[p..if end - p <= limit then end else p + limit]
  }

  /** The bytes of the next record, seen from the end of the records before it. */
  lemma NextSlice(j: seq<Committed>, q: nat, i: nat, data: seq<byte>, length: nat)
    requires q <= |j| && length <= |data| && data[..length] == StreamBytes(j, i)
    ensures var n, p := NextIn(j, q, i), |StreamBytes(j[..q], i)|;
            if n < |j| then
              p + |j[n].line| == |StreamBytes(j[..n + 1], i)| <= length && data[p..p + |j[n].line|] == j[n].line
            else p == length
  {
    var n, before := NextIn(j, q, i), StreamBytes(j[..q], i);
    NothingBetween(j, q, i);
    assert j[..|j|] == j;
    if n < |j| {
      SnocStream(j, n, i);
      StreamGrows(j, n + 1, |j|, i);
      hide *;
      PrefixSlice(data, length, before, j[n].line, StreamBytes(j[..n + 1], i), StreamBytes(j, i));
    }
  }

  lemma PrefixSlice(data: seq<byte>, length: nat, before: seq<byte>, line: seq<byte>, upTo: seq<byte>, all: seq<byte>)
    requires length <= |data| && data[..length] == all && upTo == before + line && upTo <= all
    ensures |before| + |line| == |upTo| <= length && data[|before|..|before| + |line|] == line
  {
    assert data[..|upTo|] == upTo;
    assert upTo[|before|..] == line;
  }

  /** At a record boundary `readline` returns the next record's line, whatever follows the snapshot. */
  lemma NextLine<R>(f: Format<R>, s: Snapshot, j: seq<Committed>, q: nat, i: nat)
    requires WellFormed(f, j) && Commits(s, j) && q <= |j| && i < STREAMS
    ensures var n, p := NextIn(j, q, i), |StreamBytes(j[..q], i)|;
            if n < |j| then
              && p + |j[n].line| == |StreamBytes(j[..n + 1], i)| <= s.lengths[i]
              && ReadLine(s.streams[i], p, MAX_V2_JSONL_RECORD_BYTES + 1) == j[n].line
              && p < s.lengths[i] && IsLine(j[n].line)
              && f.decode(j[n].line) == Some(RecordAt(f, j, n)) && f.sequenceOf(RecordAt(f, j, n)) == n
            else p == s.lengths[i]
  {
    var n, p, data := NextIn(j, q, i), |StreamBytes(j[..q], i)|, s.streams[i];
    NextSlice(j, q, i, data, s.lengths[i]);
    if n < |j| {
      assert IsLine(j[n].line) && |j[n].line| <= MAX_V2_JSONL_RECORD_BYTES + 1;
      assert f.decode(j[n].line) == Some(RecordAt(f, j, n)) && f.sequenceOf(RecordAt(f, j, n)) == n;
      assert |j[n].line| > 0;
      LineAt(data, p, j[n].line);
      hide WellFormed, Commits, StreamBytes, NextIn, FindNewline, IsLine, RecordAt;
    }
  }

  // ----- The merge -----

  ghost function HeadAt<R>(f: Format<R>, j: seq<Committed>, q: nat, i: nat): multiset<Entry<Head<R>>>
    requires WellFormed(f, j) && q <= |j|
  {
    var n := NextIn(j, q, i);
    if n < |j| then multiset{Entry(n, i, Head(RecordAt(f, j, n), |StreamBytes(j[..n + 1], i)|))} else multiset{}
  }

  /** The next records of the first `k` streams. */
  ghost function HeadsUpTo<R>(f: Format<R>, j: seq<Committed>, q: nat, k: nat): multiset<Entry<Head<R>>>
    requires WellFormed(f, j) && q <= |j|
  {
    if k == 0 then multiset{} else HeadsUpTo(f, j, q, k - 1) + HeadAt(f, j, q, k - 1)
  }

  /** The merge stands before record `q`: offsets end the records below it, and the heap holds every
      stream's next record. */
  ghost predicate Merging<R>(f: Format<R>, j: seq<Committed>, q: nat, offsets: seq<nat>, heap: seq<Entry<Head<R>>>) {
    && WellFormed(f, j) && q <= |j| && offsets == Ends(j, q)
    && multiset(heap) == HeadsUpTo(f, j, q, STREAMS)
  }

  lemma {:induction false} HeadOfSome<R>(f: Format<R>, j: seq<Committed>, q: nat, k: nat, e: Entry<Head<R>>)
    requires WellFormed(f, j) && q <= |j| && e in HeadsUpTo(f, j, q, k)
    ensures exists i: nat :: i < k && e in HeadAt(f, j, q, i)
  {
    hide WellFormed, HeadAt;
    if e !in HeadAt(f, j, q, k - 1) {
      HeadOfSome(f, j, q, k - 1, e);
    }
  }

  lemma HeadIsLater<R>(f: Format<R>, j: seq<Committed>, q: nat, e: Entry<Head<R>>)
    requires WellFormed(f, j) && q <= |j| && e in HeadsUpTo(f, j, q, STREAMS)
    ensures 0 <= e.minor < STREAMS && q <= e.major < |j| && j[e.major].stream == e.minor && e in HeadAt(f, j, q, e.minor)
  {
    HeadOfSome(f, j, q, STREAMS, e);
    var i: nat :| i < STREAMS && e in HeadAt(f, j, q, i);
    hide WellFormed, StreamBytes;
  }

  lemma {:induction false} HeadIncluded<R>(f: Format<R>, j: seq<Committed>, q: nat, k: nat, i: nat)
    requires WellFormed(f, j) && q <= |j| && i < k
    ensures HeadAt(f, j, q, i) <= HeadsUpTo(f, j, q, k)
  {
    hide WellFormed, HeadAt;
    if i < k - 1 {
      HeadIncluded(f, j, q, k - 1, i);
    }
  }

  /** The least head is record `q` itself, as long as there is one. */
  lemma LeastIsNext<R>(f: Format<R>, j: seq<Committed>, q: nat, least: Entry<Head<R>>)
    requires WellFormed(f, j) && q < |j| && least in HeadsUpTo(f, j, q, STREAMS)
    requires forall e :: e in HeadsUpTo(f, j, q, STREAMS) ==> !Less(e, least)
    ensures least == Entry(q, j[q].stream, Head(RecordAt(f, j, q), |StreamBytes(j[..q + 1], j[q].stream)|))
  {
    var i := j[q].stream;
    HeadIsLater(f, j, q, least);
    HeadIncluded(f, j, q, STREAMS, i);
    var e := Entry(q, i, Head(RecordAt(f, j, q), |StreamBytes(j[..q + 1], i)|));
    assert NextIn(j, q, i) == q && e in HeadAt(f, j, q, i);
    assert !Less(e, least);
    assert least in HeadAt(f, j, q, least.minor);
  }

  lemma HeadStays<R>(f: Format<R>, j: seq<Committed>, q: nat, i: nat)
    requires WellFormed(f, j) && q < |j| && i != j[q].stream
    ensures HeadAt(f, j, q + 1, i) == HeadAt(f, j, q, i)
  {
    assert NextIn(j, q, i) == NextIn(j, q + 1, i);
  }

  lemma Exchange<T>(a: multiset<T>, b: multiset<T>, x: multiset<T>, h: multiset<T>, g: multiset<T>)
    ensures a + h == b + g ==> (a + x) + h == (b + x) + g
    ensures a == b ==> (a + g) + h == (b + h) + g
  {
    assert (a + x) + h == (a + h) + x && (b + x) + g == (b + g) + x;
  }

  lemma {:induction false} HeadsMove<R>(f: Format<R>, j: seq<Committed>, q: nat, k: nat)
    requires WellFormed(f, j) && q < |j|
    ensures var i := j[q].stream;
            if i < k then HeadsUpTo(f, j, q + 1, k) + HeadAt(f, j, q, i) == HeadsUpTo(f, j, q, k) + HeadAt(f, j, q + 1, i)
            else HeadsUpTo(f, j, q + 1, k) == HeadsUpTo(f, j, q, k)
  {
    hide WellFormed, HeadAt;
    if k > 0 {
      var i := j[q].stream;
      HeadsMove(f, j, q, k - 1);
      if k - 1 != i {
        HeadStays(f, j, q, k - 1);
      }
      Exchange(HeadsUpTo(f, j, q + 1, k - 1), HeadsUpTo(f, j, q, k - 1), HeadAt(f, j, q, k - 1), HeadAt(f, j, q, i), HeadAt(f, j, q + 1, i));
    }
  }

  lemma NoHeadsAtEnd<R>(f: Format<R>, j: seq<Committed>, q: nat, offsets: seq<nat>, heap: seq<Entry<Head<R>>>)
    requires Merging(f, j, q, offsets, heap)
    ensures |heap| == 0 <==> q == |j|
  {
    if |heap| > 0 {
      assert heap[0] in multiset(heap);
      HeadIsLater(f, j, q, heap[0]);
    }
    if q < |j| {
      assert j[q].stream < STREAMS && NextIn(j, q, j[q].stream) == q;
      HeadIncluded(f, j, q, STREAMS, j[q].stream);
    }
  }

  // ----- `EvidenceSnapshot.read` -----

  datatype Pushed<R> = Exhausted | Pending(entry: Entry<Head<R>>) | Corrupt

  /** `push`: read the stream's next record, if it has one below the committed length. */
  function Push1<R>(f: Format<R>, s: Snapshot, i: nat, p: nat): (r: Pushed<R>)
    requires i < |s.streams| == |s.lengths|
    ensures r.Pending? ==> r.entry.minor == i && r.entry.major == f.sequenceOf(r.entry.item.record)
  {
    if p >= s.lengths[i] then Exhausted
    else
      var raw := ReadLine(s.streams[i], p, MAX_V2_JSONL_RECORD_BYTES + 1);
      if p + |raw| > s.lengths[i] || |raw| == 0 || raw[|raw| - 1] != NEWLINE then Corrupt
      else match f.decode(raw)
           case None => Corrupt
           case Some(record) =>
             if f.sequenceOf(record) >= s.nextSequence then Corrupt
             else Pending(Entry(f.sequenceOf(record), i, Head(record, p + |raw|)))
  }

  ghost function PushedEntries<R>(r: Pushed<R>): multiset<Entry<Head<R>>> {
    if r.Pending? then multiset{r.entry} else multiset{}
  }

  lemma PushIsHead<R>(f: Format<R>, s: Snapshot, j: seq<Committed>, q: nat, i: nat)
    requires WellFormed(f, j) && Commits(s, j) && q <= |j| && i < STREAMS
    ensures var r := Push1(f, s, i, |StreamBytes(j[..q], i)|);
            !r.Corrupt? && PushedEntries(r) == HeadAt(f, j, q, i)
  {
    NextLine(f, s, j, q, i);
    hide WellFormed, StreamBytes, NextIn, ReadLine, RecordAt;
  }

  // ----- Any position, valid or not -----

  /** The stream heads at arbitrary offsets, for the first `k` streams. */
  ghost function PendingUpTo<R>(f: Format<R>, s: Snapshot, offsets: seq<nat>, k: nat): multiset<Entry<Head<R>>>
    requires k <= |offsets| == |s.streams| == |s.lengths|
  {
    if k == 0 then multiset{} else PendingUpTo(f, s, offsets, k - 1) + PushedEntries(Push1(f, s, k - 1, offsets[k - 1]))
  }

  /** The heap holds what each stream has next at its offset. */
  ghost predicate Standing<R>(f: Format<R>, s: Snapshot, offsets: seq<nat>, heap: seq<Entry<Head<R>>>) {
    && |offsets| == |s.streams| == |s.lengths| == STREAMS
    && multiset(heap) == PendingUpTo(f, s, offsets, STREAMS)
    && forall i: nat :: i < STREAMS ==> !Push1(f, s, i, offsets[i]).Corrupt?
  }

  lemma {:induction false} PendingOfSome<R>(f: Format<R>, s: Snapshot, offsets: seq<nat>, k: nat, e: Entry<Head<R>>)
    requires k <= |offsets| == |s.streams| == |s.lengths| && e in PendingUpTo(f, s, offsets, k)
    ensures 0 <= e.minor < k && Push1(f, s, e.minor, offsets[e.minor]) == Pending(e)
  {
    hide Push1;
    if e !in PushedEntries(Push1(f, s, k - 1, offsets[k - 1])) {
      PendingOfSome(f, s, offsets, k - 1, e);
    }
  }

  lemma {:induction false} PendingIncluded<R>(f: Format<R>, s: Snapshot, offsets: seq<nat>, k: nat, i: nat)
    requires i < k <= |offsets| == |s.streams| == |s.lengths|
    ensures PushedEntries(Push1(f, s, i, offsets[i])) <= PendingUpTo(f, s, offsets, k)
  {
    hide Push1, PushedEntries;
    if i < k - 1 {
      PendingIncluded(f, s, offsets, k - 1, i);
    }
  }

  lemma {:induction false} PendingMoves<R>(f: Format<R>, s: Snapshot, offsets: seq<nat>, i: nat, end: nat, k: nat)
    requires k <= |offsets| == |s.streams| == |s.lengths| && i < |offsets|
    ensures var moved, from, to := offsets[i := end], PushedEntries(Push1(f, s, i, offsets[i])), PushedEntries(Push1(f, s, i, end));
            if i < k then PendingUpTo(f, s, moved, k) + from == PendingUpTo(f, s, offsets, k) + to
            else PendingUpTo(f, s, moved, k) == PendingUpTo(f, s, offsets, k)
  {
    hide Push1, PushedEntries;
    if k > 0 {
      PendingMoves(f, s, offsets, i, end, k - 1);
      var moved := offsets[i := end];
      Exchange(PendingUpTo(f, s, moved, k - 1), PendingUpTo(f, s, offsets, k - 1), PushedEntries(Push1(f, s, k - 1, offsets[k - 1])),
               PushedEntries(Push1(f, s, i, offsets[i])), PushedEntries(Push1(f, s, i, end)));
    }
  }

  /** Taking an entry out and reading on in its stream. */
  lemma StandingMoves<R>(f: Format<R>, s: Snapshot, offsets: seq<nat>, heap: seq<Entry<Head<R>>>, least: Entry<Head<R>>, rest: seq<Entry<Head<R>>>)
    requires Standing(f, s, offsets, heap) && least in multiset(heap)
    requires 0 <= least.minor < STREAMS && !Push1(f, s, least.minor, least.item.end).Corrupt?
    requires multiset(rest) == multiset(heap) - multiset{least} + PushedEntries(Push1(f, s, least.minor, least.item.end))
    ensures Standing(f, s, offsets[least.minor := least.item.end], rest)
  {
    hide Push1;
    var i, end := least.minor, least.item.end;
    PendingOfSome(f, s, offsets, STREAMS, least);
    PendingMoves(f, s, offsets, i, end, STREAMS);
    Replace(multiset(heap), PendingUpTo(f, s, offsets[i := end], STREAMS), least, PushedEntries(Push1(f, s, i, end)));
  }

  /** Every offset ends a record of its stream. */
  ghost predicate Aligned(j: seq<Committed>, offsets: seq<nat>) {
    |offsets| == STREAMS && forall i: nat :: i < STREAMS ==> EndsRecord(j, i, offsets[i])
  }

  ghost predicate EndsRecord(j: seq<Committed>, i: nat, o: nat) {
    exists c: nat :: c <= |j| && o == |StreamBytes(j[..c], i)|
  }

  /** A byte behind a newline is the end of a record. */
  lemma {:induction false} BoundaryEndsRecord<R>(f: Format<R>, j: seq<Committed>, i: nat, o: nat)
    requires WellFormed(f, j) && o <= |StreamBytes(j, i)| && (o > 0 ==> StreamBytes(j, i)[o - 1] == NEWLINE)
    ensures EndsRecord(j, i, o)
  {
    assert j[..|j|] == j;
    if o < |StreamBytes(j, i)| {
      var n := |j| - 1;
      var before := StreamBytes(j[..n], i);
      SnocStream(j, n, i);
      if o <= |before| {
        BoundaryEndsRecord(f, j[..n], i, o);
        var c: nat :| c <= n && o == |StreamBytes(j[..n][..c], i)|;
        assert j[..n][..c] == j[..c];
      } else {
        InsideLine(before, j[n].line, o);
      }
    }
  }

  lemma InsideLine(before: seq<byte>, line: seq<byte>, o: nat)
    requires |before| < o < |before + line| && IsLine(line)
    ensures (before + line)[o - 1] != NEWLINE
  {
    assert (before + line)[o - 1] == line[o - 1 - |before|];
  }

  /** What a stream has next behind a record is one of its records, whichever offset that was. */
  lemma PendingIsRecord<R>(f: Format<R>, s: Snapshot, j: seq<Committed>, i: nat, o: nat)
    requires WellFormed(f, j) && Commits(s, j) && i < STREAMS && EndsRecord(j, i, o)
    ensures !Push1(f, s, i, o).Corrupt? && o <= s.lengths[i]
    ensures Push1(f, s, i, o).Exhausted? <==> o == s.lengths[i]
    ensures Push1(f, s, i, o).Pending? ==>
              var e := Push1(f, s, i, o).entry;
              && 0 <= e.major < |j| && j[e.major].stream == i && e.item.record == RecordAt(f, j, e.major)
              && o == |StreamBytes(j[..e.major], i)| && e.item.end == |StreamBytes(j[..e.major + 1], i)|
  {
    var c: nat :| c <= |j| && o == |StreamBytes(j[..c], i)|;
    PushIsHead(f, s, j, c, i);
    BoundaryHolds(f, s, j, c, i);
    NothingBetween(j, c, i);
    assert Push1(f, s, i, o).Exhausted? <==> o >= s.lengths[i];
    hide WellFormed, StreamBytes, ReadLine, RecordAt, Push1, Commits;
    var r := Push1(f, s, i, o);
    if r.Pending? { assert r.entry in HeadAt(f, j, c, i); }
  }

  /** The record taken next was read where its stream stands: if the offsets behind it are right, those before
      it were. */
  lemma StepsBack<R>(f: Format<R>, s: Snapshot, j: seq<Committed>, offsets: seq<nat>, e: Entry<Head<R>>)
    requires WellFormed(f, j) && Commits(s, j) && Aligned(j, offsets)
    requires 0 <= e.minor < STREAMS && Push1(f, s, e.minor, offsets[e.minor]) == Pending(e)
    ensures 0 <= e.major < |j| && e.item.record == RecordAt(f, j, e.major)
    ensures var moved := offsets[e.minor := e.item.end];
            Aligned(j, moved) && (moved == Ends(j, e.major + 1) ==> offsets == Ends(j, e.major))
    ensures !Push1(f, s, e.minor, e.item.end).Corrupt?
  {
    hide Push1;
    var i, x := e.minor, e.major;
    PendingIsRecord(f, s, j, i, offsets[i]);
    var moved := offsets[i := e.item.end];
    assert EndsRecord(j, i, moved[i]);
    PendingIsRecord(f, s, j, i, moved[i]);
    if moved == Ends(j, x + 1) {
      forall h: nat | h < STREAMS
        ensures offsets[h] == Ends(j, x)[h]
      {
        if h != i {
          assert moved[h] == offsets[h];
          SnocStream(j, x, h);
        }
      }
    }
  }

  /** Nothing left to read, anywhere. */
  lemma StandsAtEnd<R>(f: Format<R>, s: Snapshot, j: seq<Committed>, offsets: seq<nat>, heap: seq<Entry<Head<R>>>)
    requires WellFormed(f, j) && Commits(s, j) && Aligned(j, offsets) && Standing(f, s, offsets, heap) && |heap| == 0
    ensures offsets == Ends(j, |j|)
  {
    hide Push1;
    assert j[..|j|] == j;
    forall i: nat | i < STREAMS
      ensures offsets[i] == |StreamBytes(j, i)|
    {
      PendingIncluded(f, s, offsets, STREAMS, i);
      PendingIsRecord(f, s, j, i, offsets[i]);
      assert s.streams[i][..s.lengths[i]] == StreamBytes(j, i);
    }
  }

  /** Behind each offset stands a newline, or nothing at all. */
  predicate AtBoundaries(s: Snapshot, offsets: seq<nat>)
    requires |offsets| == |s.streams|
  {
    forall i :: 0 <= i < |offsets| && offsets[i] > 0 ==> offsets[i] <= |s.streams[i]| && s.streams[i][offsets[i] - 1] == NEWLINE
  }

  predicate AtBoundary(s: Snapshot, i: nat, o: nat)
    requires i < |s.streams|
  {
    o > 0 ==> o <= |s.streams[i]| && s.streams[i][o - 1] == NEWLINE
  }

  /** The first `k` streams are at boundaries, and their next records are in the heap. */
  ghost predicate Opened<R>(f: Format<R>, s: Snapshot, j: seq<Committed>, offsets: seq<nat>, k: nat, heap: seq<Entry<Head<R>>>) {
    && k <= |offsets| == |s.streams| == |s.lengths| == STREAMS
    && multiset(heap) == PendingUpTo(f, s, offsets, k)
    && forall i: nat :: i < k ==> AtBoundary(s, i, offsets[i]) && EndsRecord(j, i, offsets[i]) && !Push1(f, s, i, offsets[i]).Corrupt?
  }

  lemma OpenedNone<R>(f: Format<R>, s: Snapshot, j: seq<Committed>, offsets: seq<nat>)
    requires Commits(s, j) && |offsets| == STREAMS
    ensures Opened(f, s, j, offsets, 0, [])
  {
  }

  lemma BoundaryReads<R>(f: Format<R>, s: Snapshot, j: seq<Committed>, offsets: seq<nat>, k: nat)
    requires WellFormed(f, j) && Commits(s, j) && |offsets| == |s.streams| == |s.lengths| == STREAMS && !BeyondLengths(offsets, s.lengths)
    requires k < STREAMS && AtBoundary(s, k, offsets[k])
    ensures EndsRecord(j, k, offsets[k]) && !Push1(f, s, k, offsets[k]).Corrupt?
  {
    hide Push1;
    var o := offsets[k];
    assert o <= s.lengths[k];
    assert s.streams[k][..s.lengths[k]] == StreamBytes(j, k);
    BoundaryEndsRecord(f, j, k, o);
    PendingIsRecord(f, s, j, k, o);
  }

  lemma OpensNext<R>(f: Format<R>, s: Snapshot, j: seq<Committed>, offsets: seq<nat>, k: nat, heap: seq<Entry<Head<R>>>, more: seq<Entry<Head<R>>>)
    requires k < STREAMS && Opened(f, s, j, offsets, k, heap) && AtBoundary(s, k, offsets[k])
    requires EndsRecord(j, k, offsets[k]) && !Push1(f, s, k, offsets[k]).Corrupt?
    requires multiset(more) == multiset(heap) + PushedEntries(Push1(f, s, k, offsets[k]))
    ensures Opened(f, s, j, offsets, k + 1, more)
  {
    hide Push1, PushedEntries, EndsRecord, AtBoundary;
  }

  lemma OpenedAll<R>(f: Format<R>, s: Snapshot, j: seq<Committed>, offsets: seq<nat>, heap: seq<Entry<Head<R>>>)
    requires Opened(f, s, j, offsets, STREAMS, heap)
    ensures AtBoundaries(s, offsets) && Aligned(j, offsets) && Standing(f, s, offsets, heap)
  {
    hide Push1, EndsRecord;
    forall i | 0 <= i < |offsets|
      ensures AtBoundary(s, i, offsets[i])
    {
    }
  }

  lemma NotOpened(s: Snapshot, offsets: seq<nat>, k: nat)
    requires k < |offsets| == |s.streams| && !AtBoundary(s, k, offsets[k])
    ensures !AtBoundaries(s, offsets)
  {
  }

  lemma OpenHeads<R>(f: Format<R>, s: Snapshot, j: seq<Committed>, p: Position, k: nat)
    requires WellFormed(f, j) && Commits(s, j) && ValidPosition(j, p) && k < STREAMS
    ensures |p.offsets| == |s.streams| == |s.lengths| == STREAMS && AtBoundary(s, k, p.offsets[k])
    ensures HeadsUpTo(f, j, p.sequence, k + 1) == HeadsUpTo(f, j, p.sequence, k) + PushedEntries(Push1(f, s, k, p.offsets[k]))
  {
    hide Push1, PushedEntries, HeadAt;
    BoundaryHolds(f, s, j, p.sequence, k);
    PushIsHead(f, s, j, p.sequence, k);
  }

  /** The boundary checks and first pushes. */
  method StartMerge<R>(f: Format<R>, s: Snapshot, p: Position, ghost j: seq<Committed>)
    returns (heap: seq<Entry<Head<R>>>, error: Option<ReadError>)
    requires WellFormed(f, j) && Commits(s, j) && |p.offsets| == |s.streams| == |s.lengths| == STREAMS && !BeyondLengths(p.offsets, s.lengths)
    ensures IsHeap(heap)
    ensures if AtBoundaries(s, p.offsets) then error.None? && Aligned(j, p.offsets) && Standing(f, s, p.offsets, heap)
            else error == Some(NotAtBoundary)
    ensures ValidPosition(j, p) ==> error.None? && Merging(f, j, p.sequence, p.offsets, heap)
  {
    hide *;
    heap, error := [], None;
    ghost var valid := ValidPosition(j, p);
    ValidMeans(j, p);
    EmptyIsHeap<Head<R>>();
    OpenedNone(f, s, j, p.offsets);
    if valid { NoHeads(f, j, p.sequence); }
    for i := 0 to STREAMS
      invariant error.None? && IsHeap(heap) && Opened(f, s, j, p.offsets, i, heap)
      invariant valid ==> multiset(heap) == HeadsUpTo(f, j, p.sequence, i)
    {
      if valid { OpenHeads(f, s, j, p, i); }
      if !AtBoundary(s, i, p.offsets[i]) {
        NotOpened(s, p.offsets, i);
        error := Some(NotAtBoundary);
        return;
      }
      BoundaryReads(f, s, j, p.offsets, i);
      var r := Push1(f, s, i, p.offsets[i]);
      PushedMeans(r);
      if r.Corrupt? {
        error := Some(BadEvidence);
        return;
      }
      ghost var before := heap;
      if r.Pending? {
        heap := MinHeap.Push(heap, r.entry);
      }
      OpensNext(f, s, j, p.offsets, i, before, heap);
    }
    OpenedAll(f, s, j, p.offsets, heap);
    if valid { MergingFrom(f, j, p.sequence, p.offsets, heap); }
  }

  lemma NoHeads<R>(f: Format<R>, j: seq<Committed>, q: nat)
    requires WellFormed(f, j) && q <= |j|
    ensures HeadsUpTo(f, j, q, 0) == multiset{}
  {
  }

  lemma PushedMeans<R>(r: Pushed<R>)
    ensures PushedEntries(r) == if r.Pending? then multiset{r.entry} else multiset{}
  {
  }

  lemma EmptyIsHeap<T>()
    ensures IsHeap<T>([])
  {
  }

  lemma BoundaryHolds<R>(f: Format<R>, s: Snapshot, j: seq<Committed>, q: nat, i: nat)
    requires WellFormed(f, j) && Commits(s, j) && q <= |j| && i < STREAMS
    ensures var p := |StreamBytes(j[..q], i)|;
            p <= s.lengths[i] && (p > 0 ==> s.streams[i][p - 1] == NEWLINE)
  {
    var before := StreamBytes(j[..q], i);
    EndsWithNewline(f, j, q, i);
    StreamGrows(j, q, |j|, i);
    assert j[..|j|] == j;
    if |before| > 0 {
      assert before[|before| - 1] == StreamBytes(j, i)[|before| - 1];
    }
  }

  /** Take record `q` out of the heap and read on in its stream. */
  lemma MergeAdvances<R>(f: Format<R>, s: Snapshot, j: seq<Committed>, q: nat, offsets: seq<nat>, heap: seq<Entry<Head<R>>>, least: Entry<Head<R>>)
    requires Commits(s, j) && Merging(f, j, q, offsets, heap) && least in multiset(heap)
    requires forall e :: e in multiset(heap) ==> !Less(e, least)
    ensures q < |j| && least.major == q && least.minor == j[q].stream && least.item.record == RecordAt(f, j, q)
    ensures offsets[least.minor := least.item.end] == Ends(j, q + 1)
    ensures var r := Push1(f, s, least.minor, least.item.end);
            !r.Corrupt? && multiset(heap) - multiset{least} + PushedEntries(r) == HeadsUpTo(f, j, q + 1, STREAMS)
  {
    NoHeadsAtEnd(f, j, q, offsets, heap);
    assert multiset(heap) != multiset{};
    LeastIsNext(f, j, q, least);
    var i := j[q].stream;
    HeadsMove(f, j, q, STREAMS);
    EndsMove(j, q);
    PushIsHead(f, s, j, q + 1, i);
    assert NextIn(j, q, i) == q && HeadAt(f, j, q, i) == multiset{least};
    hide *;
    Replace(multiset(heap), HeadsUpTo(f, j, q + 1, STREAMS), least, HeadAt(f, j, q + 1, i));
  }

  lemma Replace<T>(a: multiset<T>, b: multiset<T>, x: T, g: multiset<T>)
    requires b + multiset{x} == a + g && x in a
    ensures a - multiset{x} + g == b
  {
    assert a - multiset{x} + g == (a + g) - multiset{x};
  }

  lemma EndsMove(j: seq<Committed>, q: nat)
    requires q < |j| && j[q].stream < STREAMS
    ensures Ends(j, q + 1) == Ends(j, q)[j[q].stream := |StreamBytes(j[..q + 1], j[q].stream)|]
  {
    forall i: nat | i < STREAMS && i != j[q].stream
      ensures StreamBytes(j[..q + 1], i) == StreamBytes(j[..q], i)
    {
      SnocStream(j, q, i);
    }
  }

  predicate BeyondLengths(offsets: seq<nat>, lengths: seq<nat>)
    requires |offsets| == |lengths|
  {
    exists i :: 0 <= i < |offsets| && offsets[i] > lengths[i]
  }

  lemma NotBeyond<R>(f: Format<R>, s: Snapshot, j: seq<Committed>, q: nat)
    requires WellFormed(f, j) && Commits(s, j) && q <= |j|
    ensures !BeyondLengths(Ends(j, q), s.lengths)
  {
    forall i | 0 <= i < STREAMS
      ensures Ends(j, q)[i] <= s.lengths[i]
    {
      BoundaryHolds(f, s, j, q, i);
    }
  }

  lemma MergingFrom<R>(f: Format<R>, j: seq<Committed>, q: nat, offsets: seq<nat>, heap: seq<Entry<Head<R>>>)
    requires WellFormed(f, j) && q <= |j| && offsets == Ends(j, q) && multiset(heap) == HeadsUpTo(f, j, q, STREAMS)
    ensures Merging(f, j, q, offsets, heap)
  {
  }

  /** What a valid cursor must return. */
  ghost predicate IsSlice<R>(f: Format<R>, j: seq<Committed>, q: nat, items: seq<Item<R>>)
    requires WellFormed(f, j)
  {
    q + |items| <= |j| && forall k :: 0 <= k < |items| ==> items[k] == ItemAt(f, j, q + k)
  }

  /** One turn of the merge loop. */
  method TakeNext<R>(f: Format<R>, s: Snapshot, heap: seq<Entry<Head<R>>>, offsets: seq<nat>, expected: nat, ghost j: seq<Committed>, ghost valid: bool)
    returns (rest: seq<Entry<Head<R>>>, item: Option<Item<R>>, error: Option<ReadError>)
    requires WellFormed(f, j) && Commits(s, j) && |offsets| == STREAMS && |heap| > 0 && IsHeap(heap)
    requires Aligned(j, offsets) && Standing(f, s, offsets, heap)
    requires valid ==> Merging(f, j, expected, offsets, heap)
    ensures IsHeap(rest)
    ensures error.None? ==>
              && item.Some? && expected < |j| && item.value.record == RecordAt(f, j, expected)
              && item.value.after.sequence == expected + 1
              && Aligned(j, item.value.after.offsets) && Standing(f, s, item.value.after.offsets, rest)
              && (item.value.after.offsets == Ends(j, expected + 1) ==> offsets == Ends(j, expected))
    ensures error.Some? ==> error == Some(NotContiguous)
    ensures valid ==>
              && error.None? && expected < |j| && item == Some(ItemAt(f, j, expected))
              && Merging(f, j, expected + 1, item.value.after.offsets, rest)
  {
    hide *;
    var least;
    least, rest := MinHeap.Pop(heap);
    LeastStands(f, s, j, offsets, heap, least);
    if valid { MergeAdvances(f, s, j, expected, offsets, heap, least); }
    item, error := None, None;
    if least.major != expected {
      error := Some(NotContiguous);
      return;
    }
    var moved: seq<nat> := offsets[least.minor := least.item.end];
    item := Some(Item(least.item.record, Position(expected + 1, moved)));
    if valid { IsItemAt(f, j, expected, item.value); }
    var pushed := Push1(f, s, least.minor, least.item.end);
    PushedMeans(pushed);
    if pushed.Corrupt? {
      error := Some(BadEvidence);
      return;
    }
    ghost var popped := rest;
    if pushed.Pending? {
      rest := MinHeap.Push(rest, pushed.entry);
    }
    assert multiset(rest) == multiset(heap) - multiset{least} + PushedEntries(pushed);
    StandingMoves(f, s, offsets, heap, least, rest);
    if valid { MergingFrom(f, j, expected + 1, moved, rest); }
  }

  lemma LeastStands<R>(f: Format<R>, s: Snapshot, j: seq<Committed>, offsets: seq<nat>, heap: seq<Entry<Head<R>>>, least: Entry<Head<R>>)
    requires WellFormed(f, j) && Commits(s, j) && Aligned(j, offsets) && Standing(f, s, offsets, heap) && least in multiset(heap)
    ensures |offsets| == |s.streams| == |s.lengths| == STREAMS
    ensures 0 <= least.minor < STREAMS && Push1(f, s, least.minor, offsets[least.minor]) == Pending(least)
    ensures 0 <= least.major < |j| && least.item.record == RecordAt(f, j, least.major)
    ensures var moved := offsets[least.minor := least.item.end];
            Aligned(j, moved) && (moved == Ends(j, least.major + 1) ==> offsets == Ends(j, least.major))
    ensures !Push1(f, s, least.minor, least.item.end).Corrupt?
  {
    assert |offsets| == |s.streams| == |s.lengths| == STREAMS;
    PendingOfSome(f, s, offsets, STREAMS, least);
    StepsBack(f, s, j, offsets, least);
  }

  lemma IsItemAt<R>(f: Format<R>, j: seq<Committed>, q: nat, item: Item<R>)
    requires WellFormed(f, j) && q < |j|
    requires item == Item(RecordAt(f, j, q), Position(q + 1, Ends(j, q + 1)))
    ensures item == ItemAt(f, j, q)
  {
  }

  /** The records are those from sequence number `q` on, whatever offsets stand behind them. */
  ghost predicate Genuine<R>(f: Format<R>, j: seq<Committed>, q: nat, items: seq<Item<R>>)
    requires WellFormed(f, j)
  {
    && (items != [] ==> q + |items| <= |j|)
    && forall k :: 0 <= k < |items| ==>
         items[k].record == RecordAt(f, j, q + k) && items[k].after.sequence == q + k + 1 && |items[k].after.offsets| == STREAMS
  }

  ghost predicate Numbered<R>(f: Format<R>, q: nat, items: seq<Item<R>>) {
    forall k :: 0 <= k < |items| ==>
      f.sequenceOf(items[k].record) == q + k && items[k].after.sequence == q + k + 1 && |items[k].after.offsets| == STREAMS
  }

  lemma GenuineIsNumbered<R>(f: Format<R>, j: seq<Committed>, q: nat, items: seq<Item<R>>)
    requires WellFormed(f, j) && Genuine(f, j, q, items)
    ensures Numbered(f, q, items)
  {
  }

  lemma ItemsGrow<R>(f: Format<R>, j: seq<Committed>, q: nat, items: seq<Item<R>>, item: Item<R>)
    requires WellFormed(f, j) && Genuine(f, j, q, items) && q + |items| < |j|
    requires item.record == RecordAt(f, j, q + |items|) && item.after.sequence == q + |items| + 1 && |item.after.offsets| == STREAMS
    ensures Genuine(f, j, q, items + [item])
    ensures IsSlice(f, j, q, items) && item == ItemAt(f, j, q + |items|) ==> IsSlice(f, j, q, items + [item])
  {
    hide WellFormed;
  }

  /** Right offsets here would mean right offsets at the start. */
  ghost predicate ProvesValid(j: seq<Committed>, p: Position, q: nat, offsets: seq<nat>) {
    q <= |j| && offsets == Ends(j, q) ==> ValidPosition(j, p)
  }

  lemma ProvesStep(j: seq<Committed>, p: Position, q: nat, offsets: seq<nat>, moved: seq<nat>)
    requires ProvesValid(j, p, q, offsets) && q < |j| && (moved == Ends(j, q + 1) ==> offsets == Ends(j, q))
    ensures ProvesValid(j, p, q + 1, moved)
  {
    hide Ends, ValidPosition;
  }

  lemma AlignedSize(j: seq<Committed>, offsets: seq<nat>)
    requires Aligned(j, offsets)
    ensures |offsets| == STREAMS
  {
  }

  /** The merge loop. */
  method Merge<R>(f: Format<R>, s: Snapshot, start: seq<Entry<Head<R>>>, p: Position, limit: nat, ghost j: seq<Committed>, ghost valid: bool)
    returns (heap: seq<Entry<Head<R>>>, items: seq<Item<R>>, error: Option<ReadError>, ghost offsets: seq<nat>)
    requires WellFormed(f, j) && Commits(s, j) && |p.offsets| == STREAMS && IsHeap(start)
    requires Aligned(j, p.offsets) && Standing(f, s, p.offsets, start)
    requires valid ==> Merging(f, j, p.sequence, p.offsets, start)
    ensures error.None? ==>
              && |items| <= limit && (|items| == limit || |heap| == 0) && Genuine(f, j, p.sequence, items)
              && Aligned(j, offsets) && Standing(f, s, offsets, heap) && ProvesValid(j, p, p.sequence + |items|, offsets)
    ensures error.Some? ==> error == Some(NotContiguous)
    ensures valid ==> error.None? && IsSlice(f, j, p.sequence, items) && (|heap| == 0 <==> p.sequence + |items| == |j|)
  {
    hide *;
    heap, items, error := start, [], None;
    var at: seq<nat> := p.offsets;
    offsets := at;
    NothingYet(f, j, p, start, valid);
    while |heap| > 0 && |items| < limit
      invariant error.None? && |items| <= limit && |at| == STREAMS && IsHeap(heap) && offsets == at
      invariant Genuine(f, j, p.sequence, items)
      invariant Aligned(j, at) && Standing(f, s, at, heap) && ProvesValid(j, p, p.sequence + |items|, at)
      invariant valid ==> Merging(f, j, p.sequence + |items|, at, heap) && IsSlice(f, j, p.sequence, items)
      decreases limit - |items|
    {
      var item;
      heap, item, error := TakeNext(f, s, heap, at, p.sequence + |items|, j, valid);
      if error.Some? { return; }
      AlignedSize(j, item.value.after.offsets);
      ItemsGrow(f, j, p.sequence, items, item.value);
      ProvesStep(j, p, p.sequence + |items|, at, item.value.after.offsets);
      at, items := item.value.after.offsets, items + [item.value];
      offsets := at;
    }
    if valid { NoHeadsAtEnd(f, j, p.sequence + |items|, at, heap); }
  }

  lemma NothingYet<R>(f: Format<R>, j: seq<Committed>, p: Position, heap: seq<Entry<Head<R>>>, valid: bool)
    requires WellFormed(f, j) && (valid ==> Merging(f, j, p.sequence, p.offsets, heap))
    ensures Genuine(f, j, p.sequence, []) && ProvesValid(j, p, p.sequence, p.offsets) && (valid ==> IsSlice(f, j, p.sequence, []))
  {
  }

  /** `EvidenceSnapshot.read`: from a valid position, exactly the next records with exact offset vectors. From any
      other, the records returned are still the journal's next ones by number; and a read that ends before its
      limit succeeds from valid positions only. */
  method Read<R>(f: Format<R>, s: Snapshot, p: Position, limit: nat, ghost j: seq<Committed>) returns (r: ReadResult<R>)
    requires WellFormed(f, j) && Commits(s, j) && |p.offsets| == STREAMS
    ensures |s.streams| == |s.lengths| == STREAMS
    ensures ValidPosition(j, p) ==>
              && r.Records? && IsSlice(f, j, p.sequence, r.items)
              && |r.items| == (if limit <= |j| - p.sequence then limit else |j| - p.sequence)
    ensures r.Records? ==> |r.items| <= limit && Genuine(f, j, p.sequence, r.items) && Numbered(f, p.sequence, r.items)
    ensures r.Records? && |r.items| < limit ==> ValidPosition(j, p)
    ensures r == Failed(BeyondTail) <==> p.sequence > |j| || BeyondLengths(p.offsets, s.lengths)
    ensures r == Failed(NotAtBoundary) <==> p.sequence <= |j| && !BeyondLengths(p.offsets, s.lengths) && !AtBoundaries(s, p.offsets)
    ensures r != Failed(BadEvidence)
  {
    ghost var valid := ValidPosition(j, p);
    ValidMeans(j, p);
    hide *;
    SnapshotMeans(s, j);
    if p.sequence > s.nextSequence || BeyondLengths(p.offsets, s.lengths) {
      if valid { NotBeyond(f, s, j, p.sequence); }
      return Failed(BeyondTail);
    }
    var heap, error := StartMerge(f, s, p, j);
    if error.Some? {
      return Failed(error.value);
    }
    var items;
    ghost var offsets;
    heap, items, error, offsets := Merge(f, s, heap, p, limit, j, valid);
    if error.Some? {
      return Failed(error.value);
    }
    if |heap| == 0 && p.sequence + |items| != s.nextSequence {
      if valid { SliceEnds(f, j, p, items); }
      return Failed(NotContiguous);
    }
    GenuineIsNumbered(f, j, p.sequence, items);
    if |heap| == 0 {
      StandsAtEnd(f, s, j, offsets, heap);
      EndProves(j, p, offsets);
    }
    if valid { SliceEnds(f, j, p, items); }
    return Records(items);
  }

  lemma SnapshotMeans(s: Snapshot, j: seq<Committed>)
    requires Commits(s, j)
    ensures |s.streams| == |s.lengths| == STREAMS && s.nextSequence == |j|
  {
  }

  lemma ValidMeans(j: seq<Committed>, p: Position)
    ensures ValidPosition(j, p) ==> p.sequence <= |j| && p.offsets == Ends(j, p.sequence)
  {
  }

  lemma SliceEnds<R>(f: Format<R>, j: seq<Committed>, p: Position, items: seq<Item<R>>)
    requires WellFormed(f, j) && IsSlice(f, j, p.sequence, items)
    ensures p.sequence + |items| <= |j|
  {
  }

  lemma EndProves(j: seq<Committed>, p: Position, offsets: seq<nat>)
    requires ProvesValid(j, p, |j|, offsets) && offsets == Ends(j, |j|)
    ensures ValidPosition(j, p)
  {
  }
}
