/**
  Where the lines that the Monitor examines come from.

  Every examined line carries the coordinates at which the recorded evidence holds it, counted in the
  evidence itself also where the matcher fed only what follows the cut; its provenance is the evidence it
  ends in. And the processing-limited flag says exactly that some line exceeded the bound.
*/
module MonitorEvidence {
  import opened Wrappers
  import opened Splitting
  import opened LineBuffer
  import opened MonitorMatcher

  /** How many of a channel's evidence records were dropped whole. */
  ghost function Dropped(skip: bool, mine: seq<Evidence>): int {
    |mine| - |Eligible(skip, mine)|
  }

  /** Buffer event `h` was fed from evidence `e`: the whole of it, or what follows offset `offsetBase`. */
  ghost predicate FedFrom(h: Event, e: Evidence) {
    && h.ingestionIndex == Some(e.sequence) && h.timestampUs == Some(e.timestampUs)
    && h.offsetBase <= |e.data| && h.data == e.data[h.offsetBase..]
  }

  /** Past the cut, evidence and buffer events correspond one to one, and only the first can be cut. */
  lemma {:induction false} EligibleFrom(skip: bool, mine: seq<Evidence>, a: nat)
    requires a < |Eligible(skip, mine)|
    ensures var k := Dropped(skip, mine) + a;
            0 <= Dropped(skip, mine) && FedFrom(Eligible(skip, mine)[a], mine[k]) && (a > 0 ==> Eligible(skip, mine)[a].offsetBase == 0)
  {
    hide Contribution, Discarding, FedFrom;
    var n := |mine| - 1;
    var before := mine[..n];
    assert mine == before + [mine[n]];
    EligibleCount(skip, mine);
    EligibleCount(skip, before);
    EligibleSnoc(skip, before, mine[n]);
    ContributionFrom(Discarding(skip, before), mine[n]);
    if Eligible(skip, before) != [] {
      StillEating(skip, before);
      if a < |Eligible(skip, before)| { EligibleFrom(skip, before, a); }
    }
  }

  lemma {:induction false} EligibleCount(skip: bool, mine: seq<Evidence>)
    ensures |Eligible(skip, mine)| <= |mine|
  {
    if mine != [] {
      EligibleCount(skip, mine[..|mine| - 1]);
    }
  }

  lemma ContributionFrom(discarding: bool, e: Evidence)
    ensures var more := Contribution(discarding, e);
            && (!discarding ==> |more| == 1 && more[0].offsetBase == 0)
            && (more != [] ==> FedFrom(more[0], e))
  {
    assert e.data[0..] == e.data;
  }

  /** Once something was fed, nothing is discarded any more. */
  lemma {:induction false} StillEating(skip: bool, mine: seq<Evidence>)
    requires Eligible(skip, mine) != []
    ensures !Discarding(skip, mine)
  {
    var n := |mine| - 1;
    var before := mine[..n];
    assert mine == before + [mine[n]];
    DiscardingSnoc(skip, before, mine[n]);
    if Eligible(skip, before) != [] {
      StillEating(skip, before);
    }
  }

  // ----- Cutting the evidence at a line's coordinates -----

  ghost function CutEvidence(mine: seq<Evidence>, i: nat, from: nat, j: nat, to: nat): seq<byte>
    requires i <= j < |mine| && from <= |mine[i].data| && to <= |mine[j].data| && (i == j ==> from <= to)
  {
    if i == j then mine[i].data[from..to] else mine[i].data[from..] + Bytes(mine[i + 1..j]) + mine[j].data[..to]
  }

  /** The line starts inside evidence `i` and ends inside evidence `j` of its channel, at the offsets its span
      names, and what lies between them is the line; evidence `j` is the line's source. */
  ghost predicate LineAt(mine: seq<Evidence>, c: Completed, i: nat, j: nat) {
    && i <= j < |mine| && c.source == mine[j]
    && c.line.span.startIngestionIndex == Some(mine[i].sequence) && c.line.span.endIngestionIndex == Some(mine[j].sequence)
    && c.line.span.startEventOffset.Some? && c.line.span.endEventOffset.Some?
    && var from, to := c.line.span.startEventOffset.value, c.line.span.endEventOffset.value;
       && from < |mine[i].data| && 0 < to <= |mine[j].data| && (i == j ==> from < to)
       && c.line.raw == CutEvidence(mine, i, from, j, to)
  }

  ghost predicate InEvidence(mine: seq<Evidence>, c: Completed) {
    exists i: nat, j: nat :: LineAt(mine, c, i, j)
  }

  /** The buffer events between two of them hold the bytes of the evidence between. */
  lemma {:induction false} StreamIsBytes(skip: bool, mine: seq<Evidence>, a: nat, b: nat)
    requires 0 < a <= b <= |Eligible(skip, mine)|
    ensures 0 <= Dropped(skip, mine)
    ensures var d := Dropped(skip, mine); Stream(Eligible(skip, mine)[a..b]) == Bytes(mine[d + a..d + b])
    decreases b
  {
    hide Eligible, Stream, Bytes;
    EligibleCount(skip, mine);
    var h, d := Eligible(skip, mine), Dropped(skip, mine);
    if a < b {
      StreamIsBytes(skip, mine, a, b - 1);
      EligibleFrom(skip, mine, b - 1);
      assert h[a..b] == h[a..b - 1] + [h[b - 1]];
      StreamSnoc(h[a..b - 1], h[b - 1]);
      assert mine[d + a..d + b] == mine[d + a..d + b - 1] + [mine[d + b - 1]];
      EligibleSnoc(skip, mine[d + a..d + b - 1], mine[d + b - 1]);
      assert mine[d + b - 1].data[0..] == mine[d + b - 1].data;
    } else {
      assert h[a..b] == [] && mine[d + a..d + b] == [];
      NoBytes();
    }
  }

  lemma NoBytes()
    ensures Stream([]) == Bytes([]) == []
  {
  }

  /** The bytes between the coordinates are the same, whether cut from what was fed or from the evidence. */
  lemma SameCut(skip: bool, mine: seq<Evidence>, i: nat, from: nat, j: nat, to: nat)
    requires i <= j < |Eligible(skip, mine)| && (i == j ==> from <= to)
    requires var h := Eligible(skip, mine);
             && h[i].offsetBase <= from <= h[i].offsetBase + |h[i].data| && h[j].offsetBase <= to <= h[j].offsetBase + |h[j].data|
    ensures 0 <= Dropped(skip, mine)
    ensures var d := Dropped(skip, mine);
            && d + j < |mine| && from <= |mine[d + i].data| && to <= |mine[d + j].data|
            && CutEvidence(mine, d + i, from, d + j, to) == Cut(Eligible(skip, mine), i, from, j, to)
  {
    hide Eligible, Stream, Bytes, Cut;
    EligibleCount(skip, mine);
    EligibleFrom(skip, mine, i);
    EligibleFrom(skip, mine, j);
    var h, d := Eligible(skip, mine), Dropped(skip, mine);
    if i == j {
      CutWithin(h, mine[d + i], i, from, to);
    } else {
      StreamIsBytes(skip, mine, i + 1, j);
      CutAcross(h, mine, d, i, from, j, to);
    }
  }

  lemma CutWithin(h: seq<Event>, e: Evidence, i: nat, from: nat, to: nat)
    requires i < |h| && FedFrom(h[i], e) && h[i].offsetBase <= from <= to <= h[i].offsetBase + |h[i].data|
    ensures Cut(h, i, from, i, to) == e.data[from..to]
  {
    hide Stream;
    CutUnfold(h, i, from, i, to);
  }

  lemma CutAcross(h: seq<Event>, mine: seq<Evidence>, d: nat, i: nat, from: nat, j: nat, to: nat)
    requires i < j < |h| && d + j < |mine| && FedFrom(h[i], mine[d + i]) && FedFrom(h[j], mine[d + j]) && h[j].offsetBase == 0
    requires h[i].offsetBase <= from <= h[i].offsetBase + |h[i].data| && 0 <= to <= |h[j].data|
    requires Stream(h[i + 1..j]) == Bytes(mine[d + i + 1..d + j])
    ensures Cut(h, i, from, j, to) == CutEvidence(mine, d + i, from, d + j, to)
  {
    hide Stream, Bytes;
    CutUnfold(h, i, from, j, to);
    assert h[i].data[from - h[i].offsetBase..] == mine[d + i].data[from..];
    assert h[j].data[..to] == mine[d + j].data[..to];
  }

  /** A located line of the fed bytes, in terms of the evidence. */
  lemma LocatedInEvidence(skip: bool, mine: seq<Evidence>, c: Completed, p: nat, q: nat, i: nat, j: nat)
    requires SpanAt(Eligible(skip, mine), c.line.span, p, q, i, j) && p < q <= |Stream(Eligible(skip, mine))|
    requires c.line.raw == Stream(Eligible(skip, mine))[p..q]
    requires j == |Eligible(skip, mine)| - 1 && c.source == mine[|mine| - 1]
    ensures InEvidence(mine, c)
  {
    hide Eligible, Stream, Bytes, Newlines, Cut, CutEvidence;
    var h, d, span := Eligible(skip, mine), Dropped(skip, mine), c.line.span;
    EligibleFrom(skip, mine, i);
    EligibleFrom(skip, mine, j);
    var from, to := span.startEventOffset.value, span.endEventOffset.value;
    SameEventOrder(h, p, q, i, j, from, to);
    CutBetween(h, i, from, j, to, p, q);
    SameCut(skip, mine, i, from, j, to);
    assert LineAt(mine, c, d + i, d + j);
  }

  lemma SameEventOrder(h: seq<Event>, p: nat, q: nat, i: nat, j: nat, from: nat, to: nat)
    requires p < q && i <= j < |h| && from >= h[i].offsetBase && to >= h[j].offsetBase
    requires p == |Stream(h[..i])| + from - h[i].offsetBase && q == |Stream(h[..j])| + to - h[j].offsetBase
    ensures i == j ==> from < to
  {
  }

  // ----- Every examined line -----

  /** A line that a new buffer event completes ends inside that event. */
  lemma EndsInNewest(h: seq<Event>, e: Event, k: nat) returns (p: nat, q: nat, i: nat, j: nat)
    requires OpenStart(Stream(h), 0) <= |Stream(h + [e])|
    requires k < |Wholes(Items(h + [e], OpenStart(Stream(h), 0)))|
    ensures var line := Wholes(Items(h + [e], OpenStart(Stream(h), 0)))[k];
            && p < q <= |Stream(h + [e])| && SpanAt(h + [e], line.span, p, q, i, j) && line.raw == Stream(h + [e])[p..q]
    ensures j == |h|
  {
    hide *;
    var g, open := h + [e], OpenStart(Stream(h), 0);
    var items := Items(g, open);
    ViewsAreItems(items);
    var line := Wholes(items)[k];
    var m :| 0 <= m < |items| && items[m] == Whole(line);
    ItemsLocated(g, open, m);
    var lines := LinesFrom(Stream(g), open);
    p, q := open + |Concat(lines[..m])|, open + |Concat(lines[..m])| + |lines[m]|;
    i, j := Unpack(g, line, p, q);
    LineEndsBehind(h, e, m);
    NewestHolds(h, e, line.span, p, q, i, j);
  }

  lemma Unpack(g: seq<Event>, line: UartLine, p: nat, q: nat) returns (i: nat, j: nat)
    requires Located(g, Whole(line), p, q)
    ensures p < q <= |Stream(g)| && SpanAt(g, line.span, p, q, i, j) && line.raw == Stream(g)[p..q]
  {
    i, j :| SpanAt(g, SpanOfItem(Whole(line)), p, q, i, j);
  }

  /** No line behind the open start ends within the old bytes. */
  lemma LineEndsBehind(h: seq<Event>, e: Event, m: nat)
    requires OpenStart(Stream(h), 0) <= |Stream(h + [e])|
    requires m < |LinesFrom(Stream(h + [e]), OpenStart(Stream(h), 0))|
    ensures var lines := LinesFrom(Stream(h + [e]), OpenStart(Stream(h), 0));
            OpenStart(Stream(h), 0) + |Concat(lines[..m])| + |lines[m]| > |Stream(h)|
  {
    var open, s := OpenStart(Stream(h), 0), Stream(h + [e]);
    StreamSnoc(h, e);
    FirstItem(h, e, open);
    SplitFromCuts(Stream(h), 0);
    var lines := LinesFrom(s, open);
    hide Stream, OpenStart;
    var i := FindNewline(s, open).value;
    FindNewlineIsFirst(s, open);
    FirstLineLong(s, open, m);
    assert i >= |Stream(h)|;
  }

  lemma FirstLineLong(s: seq<byte>, p: nat, m: nat)
    requires p <= |s| && m < |LinesFrom(s, p)|
    ensures FindNewline(s, p).Some?
    ensures p + |Concat(LinesFrom(s, p)[..m])| + |LinesFrom(s, p)[m]| >= FindNewline(s, p).value + 1
  {
    var lines := LinesFrom(s, p);
    if m > 0 {
      assert lines[..m] == [lines[0]] + lines[1..m];
      ConcatCons(lines[0], lines[1..m]);
    } else {
      assert lines[..0] == [];
    }
  }

  lemma NewestHolds(h: seq<Event>, e: Event, span: Span, p: nat, q: nat, i: nat, j: nat)
    requires SpanAt(h + [e], span, p, q, i, j) && q > |Stream(h)|
    ensures j == |h|
  {
    var g := h + [e];
    if j < |h| {
      hide Stream, Newlines;
      EventBytes(g, j);
      assert g[..j + 1] == h[..j + 1];
      StreamTake(h, j + 1);
    }
  }

  lemma InEvidenceGrows(mine: seq<Evidence>, e: Evidence, c: Completed)
    requires InEvidence(mine, c)
    ensures InEvidence(mine + [e], c)
  {
    var i: nat, j: nat :| LineAt(mine, c, i, j);
    var more := mine + [e];
    assert i < j ==> more[i + 1..j] == mine[i + 1..j];
    assert more[i] == mine[i] && more[j] == mine[j];
    assert LineAt(more, c, i, j);
  }

  /** One line completed by `e`. */
  lemma NewLineInEvidence(incomplete: set<Key>, before: seq<Evidence>, e: Evidence, k: nat)
    requires k < |CompletedBy(incomplete, before, e)|
    ensures var c := CompletedBy(incomplete, before, e)[k]; c.source == e && InEvidence(OfKey(before + [e], e.key), c)
  {
    hide Items, Wholes, OpenStart, Stream, Eligible, Contribution, OfKey, InEvidence, SpanAt;
    var skip, mine := e.key in incomplete, OfKey(before, e.key);
    var h, more := Eligible(skip, mine), Contribution(Discarding(skip, mine), e);
    OfKeySnoc(before, e, e.key);
    EligibleSnoc(skip, mine, e);
    OpenWithin(h, more[0]);
    assert more == [more[0]];
    var p, q, i, j := EndsInNewest(h, more[0], k);
    var c := CompletedBy(incomplete, before, e)[k];
    assert (mine + [e])[|mine + [e]| - 1] == e;
    LocatedInEvidence(skip, mine + [e], c, p, q, i, j);
  }

  /** Every line the matcher examines is one that its channel's evidence holds at the line's coordinates,
      and its source is the evidence it ends in. */
  lemma {:induction false} LinesInEvidence(incomplete: set<Key>, evidence: seq<Evidence>, k: nat)
    requires k < |Completions(incomplete, evidence)|
    ensures var c := Completions(incomplete, evidence)[k];
            c.source in evidence && InEvidence(OfKey(evidence, c.source.key), c)
  {
    hide CompletedBy, InEvidence, OfKey;
    var n := |evidence| - 1;
    var before, e := evidence[..n], evidence[n];
    assert evidence == before + [e];
    CompletionsSnoc(incomplete, before, e);
    var c := Completions(incomplete, evidence)[k];
    if k < |Completions(incomplete, before)| {
      LinesInEvidence(incomplete, before, k);
      OfKeySnoc(before, e, c.source.key);
      if e.key == c.source.key { InEvidenceGrows(OfKey(before, c.source.key), e, c); }
    } else {
      NewLineInEvidence(incomplete, before, e, k - |Completions(incomplete, before)|);
    }
  }

  // ----- The processing-limited flag -----

  /** A channel's line exceeded the bound: the one the cursor fell into, as far as it was dropped, or one of
      those that followed, finished or still open. */
  ghost predicate Exceeded(skip: bool, mine: seq<Evidence>) {
    || (skip && |DroppedLine(Bytes(mine))| > MAX_UART_LINE_BYTES)
    || (exists k :: 0 <= k < |Lines(AfterCut(skip, Bytes(mine)))| && |Lines(AfterCut(skip, Bytes(mine)))[k]| > MAX_UART_LINE_BYTES)
    || |Rest(AfterCut(skip, Bytes(mine)))| > MAX_UART_LINE_BYTES
  }

  /** What follows the cursor of the line it fell into. */
  ghost function DroppedLine(s: seq<byte>): seq<byte> {
    match FindNewline(s, 0) case None => s case Some(i) => s[..i + 1]
  }

  lemma {:induction false} SomeOversized(items: seq<Item>)
    ensures |Oversizeds(items)| > 0 <==> exists k :: 0 <= k < |items| && items[k].Oversized?
  {
    if items != [] {
      var n := |items| - 1;
      SomeOversized(items[..n]);
      assert forall k :: 0 <= k < n ==> items[..n][k] == items[k];
    }
  }

  /** The counter the matcher watches is positive exactly when some line of the stream is over the bound. */
  lemma OverBoundMeans(h: seq<Event>)
    ensures OverBound(h) > 0 <==>
              || (exists k :: 0 <= k < |Lines(Stream(h))| && |Lines(Stream(h))[k]| > MAX_UART_LINE_BYTES)
              || |Rest(Stream(h))| > MAX_UART_LINE_BYTES
  {
    hide Stream, FindNewline, OpenStart, Items, ItemOf, Oversizeds, LinesFrom;
    ItemsAreSplit(h, 0);
    var items, lines := Items(h, 0), Lines(Stream(h));
    SomeOversized(items);
    forall k | 0 <= k < |items|
      ensures items[k].Oversized? <==> |lines[k]| > MAX_UART_LINE_BYTES
    {
      assert Reports(items[k], lines[k]);
    }
    assert |Rest(Stream(h))| == |Stream(h)| - OpenStart(Stream(h), 0);
  }

  lemma ExceededMeans(skip: bool, mine: seq<Evidence>)
    ensures Exceeded(skip, mine) <==>
              (skip && |DroppedLine(Bytes(mine))| > MAX_UART_LINE_BYTES) || OverBound(Eligible(skip, mine)) > 0
  {
    hide Lines, Rest, AfterCut, DroppedLine, Bytes, Eligible, Stream, OverBound;
    EligibleBytes(skip, mine);
    OverBoundMeans(Eligible(skip, mine));
  }

  /** A line over the bound stays one. */
  lemma OverBoundStays(h: seq<Event>, e: Event)
    requires OverBound(h) > 0
    ensures OverBound(h + [e]) > 0
  {
    hide Lines, Rest, Stream, OverBound, LinesFrom, OpenStart;
    var s, d := Stream(h), e.data;
    OverBoundMeans(h);
    OverBoundMeans(h + [e]);
    StreamSnoc(h, e);
    SplitAppend(s, d);
    SplitSound(s);
    var more := Lines(Rest(s) + d);
    if |Rest(s)| > MAX_UART_LINE_BYTES {
      LongStays(Rest(s), d);
      if |more| > 0 { assert (Lines(s) + more)[|Lines(s)|] == more[0]; }
    } else {
      var k :| 0 <= k < |Lines(s)| && |Lines(s)[k]| > MAX_UART_LINE_BYTES;
      assert (Lines(s) + more)[k] == Lines(s)[k];
    }
  }

  lemma LongStays(r: seq<byte>, d: seq<byte>)
    requires Unbroken(r, 0, |r|)
    ensures if Lines(r + d) == [] then |Rest(r + d)| >= |r| else |Lines(r + d)[0]| > |r|
  {
    FindAcross(r, d);
    NoNewline(r, 0);
    var s := r + d;
    assert s[0..] == s;
  }

  // ----- Step by step -----

  lemma DroppedGrows(skip: bool, mine: seq<Evidence>, e: Evidence)
    ensures skip && |DroppedLine(Bytes(mine + [e]))| > MAX_UART_LINE_BYTES <==>
              || (skip && |DroppedLine(Bytes(mine))| > MAX_UART_LINE_BYTES)
              || (Discarding(skip, mine) && |Bytes(mine)| + DiscardedBytes(e.data) > MAX_UART_LINE_BYTES)
  {
    EligibleSnoc(skip, mine, e);
    FindAcross(Bytes(mine), e.data);
    FirstWithin(Bytes(mine));
    FirstWithin(e.data);
    hide Bytes, FindNewline;
    if FindNewline(Bytes(mine), 0).Some? {
      var i := FindNewline(Bytes(mine), 0).value;
      assert (Bytes(mine) + e.data)[..i + 1] == Bytes(mine)[..i + 1];
    }
  }

  lemma ExceededSnoc(incomplete: set<Key>, before: seq<Evidence>, e: Evidence)
    ensures var skip, mine := e.key in incomplete, OfKey(before, e.key);
            Exceeded(skip, mine + [e]) <==> Exceeded(skip, mine) || LimitsNow(incomplete, before, e)
  {
    hide Exceeded, Eligible, Contribution, OverBound, Bytes, OfKey, DroppedLine, DiscardedBytes, Discarding;
    var skip, mine := e.key in incomplete, OfKey(before, e.key);
    var h, more := Eligible(skip, mine), Contribution(Discarding(skip, mine), e);
    ExceededMeans(skip, mine);
    ExceededMeans(skip, mine + [e]);
    DroppedGrows(skip, mine, e);
    EligibleSnoc(skip, mine, e);
    if more == [] {
      assert h + more == h;
    } else {
      assert more == [more[0]];
      if OverBound(h) > 0 { OverBoundStays(h, more[0]); }
    }
  }

  ghost predicate ExceededBy(incomplete: set<Key>, evidence: seq<Evidence>, key: Key) {
    Exceeded(key in incomplete, OfKey(evidence, key))
  }

  lemma NothingExceeded(incomplete: set<Key>, key: Key)
    ensures !ExceededBy(incomplete, [], key)
  {
    assert AfterCut(key in incomplete, []) == [];
    assert Lines([]) == [] && Rest([]) == [];
  }

  /** The processing-limited flag is up exactly when, in some channel, the dropped part of the line the cursor
      fell into or a line after it exceeds the bound. */
  lemma {:induction false} LimitedMeans(incomplete: set<Key>, evidence: seq<Evidence>)
    ensures Limited(incomplete, evidence) <==> exists key :: ExceededBy(incomplete, evidence, key)
  {
    hide LimitsNow, Exceeded, OfKey, ExceededBy;
    if evidence == [] {
      forall key
        ensures !ExceededBy(incomplete, evidence, key)
      {
        NothingExceeded(incomplete, key);
      }
    } else {
      var n := |evidence| - 1;
      var before, e := evidence[..n], evidence[n];
      assert evidence == before + [e];
      LimitedMeans(incomplete, before);
      LimitedSnoc(incomplete, before, e);
      ExceededWidens(incomplete, before, e);
    }
  }

  lemma ExceededWidens(incomplete: set<Key>, before: seq<Evidence>, e: Evidence)
    ensures (exists key :: ExceededBy(incomplete, before + [e], key)) <==>
              (exists key :: ExceededBy(incomplete, before, key)) || LimitsNow(incomplete, before, e)
  {
    hide LimitsNow, Exceeded, OfKey, ExceededBy;
    forall key
      ensures ExceededBy(incomplete, before + [e], key) <==>
                ExceededBy(incomplete, before, key) || (key == e.key && LimitsNow(incomplete, before, e))
    {
      ExceededByOne(incomplete, before, e, key);
    }
    if LimitsNow(incomplete, before, e) { assert ExceededBy(incomplete, before + [e], e.key); }
    if key :| ExceededBy(incomplete, before, key) { assert ExceededBy(incomplete, before + [e], key); }
  }

  lemma ExceededByOne(incomplete: set<Key>, before: seq<Evidence>, e: Evidence, key: Key)
    ensures ExceededBy(incomplete, before + [e], key) <==>
              ExceededBy(incomplete, before, key) || (key == e.key && LimitsNow(incomplete, before, e))
  {
    hide LimitsNow, Exceeded, OfKey;
    OfKeySnoc(before, e, key);
    ExceededSnoc(incomplete, before, e);
  }
}
