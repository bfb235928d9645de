/**
  Streaming UART line assembly with a bounded derived line size.

  The specification never looks at chunks one at a time: it takes the whole list of events fed so
  far, joins their bytes, and cuts the joined stream after every newline. Positions of that
  stream are turned back into (event, offset) coordinates. The class proves that the
  chunk-by-chunk code emits exactly those lines with exactly those coordinates.
*/
module LineBuffer {
  import opened Wrappers
  import opened Splitting

  const MAX_UART_LINE_BYTES := 65536

  /** One `feed_result` input. `offsetBase` is the number of leading bytes of the recorded
      event that the caller did not feed. */
  datatype Event = Event(ingestionIndex: Option<int>, timestampUs: Option<int>, offsetBase: nat, data: seq<byte>)

  datatype Span = Span(
    startIngestionIndex: Option<int>,
    startEventOffset: Option<nat>,
    endIngestionIndex: Option<int>,
    endEventOffset: Option<nat>,
    lineIndexInEvent: Option<nat>)

  datatype UartLine = UartLine(raw: seq<byte>, span: Span)

  datatype OversizedUartLine = OversizedUartLine(span: Span, totalBytes: nat, terminated: bool, timestampUs: Option<int>)

  /** A physical line in completion order, as the two result tuples interleave. */
  datatype Item = Whole(line: UartLine) | Oversized(descriptor: OversizedUartLine)

  const NO_SPAN: Span := Span(None, None, None, None, None)

  // ----- The specification: one stream, cut at newlines, located in its events -----

  ghost function Stream(h: seq<Event>): seq<byte> {
    if h == [] then [] else Stream(h[..|h| - 1]) + h[|h| - 1].data
  }

  /** Which fed event, and which offset of the recorded event, holds stream byte `p`. */
  ghost function StartAt(h: seq<Event>, p: nat): (at: (nat, nat))
    requires p < |Stream(h)|
    ensures at.0 < |h|
  {
    var n := |h| - 1;
    var before := |Stream(h[..n])|;
    if p < before then StartAt(h[..n], p) else (n, h[n].offsetBase + p - before)
  }

  /** The same for an exclusive end: the event that holds byte `q - 1`. */
  ghost function EndAt(h: seq<Event>, q: nat): (at: (nat, nat))
    requires 0 < q <= |Stream(h)|
    ensures at.0 < |h|
  {
    var n := |h| - 1;
    var before := |Stream(h[..n])|;
    if q <= before then EndAt(h[..n], q) else (n, h[n].offsetBase + q - before)
  }

  /** How many lines already ended inside the event that holds byte `q - 1`. */
  ghost function LineNumber(h: seq<Event>, q: nat): nat
    requires 0 < q <= |Stream(h)|
  {
    var n := |h| - 1;
    var before := |Stream(h[..n])|;
    if q <= before then LineNumber(h[..n], q) else Newlines(h[n].data[..q - before - 1])
  }

  ghost function SpanOf(h: seq<Event>, p: nat, q: nat): Span
    requires p < q <= |Stream(h)|
  {
    Span(h[StartAt(h, p).0].ingestionIndex, Some(StartAt(h, p).1),
         h[EndAt(h, q).0].ingestionIndex, Some(EndAt(h, q).1), Some(LineNumber(h, q)))
  }

  /** What must be reported about stream bytes `p..q`: oversized exactly above the limit. */
  ghost function ItemOf(h: seq<Event>, p: nat, q: nat, terminated: bool): Item
    requires p < q <= |Stream(h)|
  {
    if q - p <= MAX_UART_LINE_BYTES then Whole(UartLine(Stream(h)[p..q], SpanOf(h, p, q)))
    else Oversized(OversizedUartLine(SpanOf(h, p, q), q - p, terminated, h[EndAt(h, q).0].timestampUs))
  }

  /** Every line that ends in the stream, from position `p` on. */
  ghost function Items(h: seq<Event>, p: nat): seq<Item>
    requires p <= |Stream(h)|
    decreases |Stream(h)| - p
  {
    match FindNewline(Stream(h), p)
    case None => []
    case Some(i) => [ItemOf(h, p, i + 1, true)] + Items(h, i + 1)
  }

  ghost function WholeOf(item: Item): seq<UartLine> {
    match item case Whole(line) => [line] case Oversized(_) => []
  }

  ghost function OversizedOf(item: Item): seq<OversizedUartLine> {
    match item case Whole(_) => [] case Oversized(d) => [d]
  }

  ghost function Wholes(items: seq<Item>): seq<UartLine> {
    if items == [] then [] else Wholes(items[..|items| - 1]) + WholeOf(items[|items| - 1])
  }

  ghost function Oversizeds(items: seq<Item>): seq<OversizedUartLine> {
    if items == [] then [] else Oversizeds(items[..|items| - 1]) + OversizedOf(items[|items| - 1])
  }

  lemma SnocViews(items: seq<Item>, item: Item)
    ensures Wholes(items + [item]) == Wholes(items) + WholeOf(item)
    ensures Oversizeds(items + [item]) == Oversizeds(items) + OversizedOf(item)
  {
    assert (items + [item])[..|items|] == items;
  }

  lemma {:induction false} OversizedsAppend(a: seq<Item>, b: seq<Item>)
    ensures Oversizeds(a + b) == Oversizeds(a) + Oversizeds(b)
  {
    if b == [] {
      assert a + b == a;
    } else {
      var n := |b| - 1;
      assert a + b == (a + b[..n]) + [b[n]] && b == b[..n] + [b[n]];
      SnocViews(a + b[..n], b[n]);
      SnocViews(b[..n], b[n]);
      OversizedsAppend(a, b[..n]);
    }
  }

  lemma StreamSnoc(h: seq<Event>, e: Event)
    ensures Stream(h + [e]) == Stream(h) + e.data
  {
    assert (h + [e])[..|h|] == h;
  }

  /** Feeding another event never changes what was said about earlier bytes. */
  lemma ItemStable(h: seq<Event>, e: Event, p: nat, q: nat, terminated: bool)
    requires p < q <= |Stream(h)|
    ensures q <= |Stream(h + [e])| && ItemOf(h + [e], p, q, terminated) == ItemOf(h, p, q, terminated)
  {
    StreamSnoc(h, e);
    assert (h + [e])[..|h|] == h;
  }

  lemma FindInPrefix(s: seq<byte>, d: seq<byte>, p: nat)
    requires p <= |s|
    ensures var r := FindNewline(s, p); r.Some? ==> FindNewline(s + d, p) == r
  {
    var r := FindNewline(s, p);
    FindNewlineIsFirst(s, p);
    if r.Some? {
      assert forall k :: 0 <= k < |s| ==> (s + d)[k] == s[k];
      FirstNewlineUnique(s + d, p, r.value);
    }
  }

  /** Items of a longer history: the old ones, then those from the old open line on. */
  lemma {:induction false} ItemsExtend(h: seq<Event>, e: Event, p: nat)
    requires p <= |Stream(h)|
    ensures |Stream(h)| <= |Stream(h + [e])|
    ensures Items(h + [e], p) == Items(h, p) + Items(h + [e], OpenStart(Stream(h), p))
    ensures OpenStart(Stream(h + [e]), p) == OpenStart(Stream(h + [e]), OpenStart(Stream(h), p))
    decreases |Stream(h)| - p
  {
    StreamSnoc(h, e);
    hide Stream, ItemOf, FindNewline;
    var g, s := h + [e], Stream(h);
    var open := OpenStart(s, p);
    FindInPrefix(s, e.data, p);
    match FindNewline(s, p)
    case None =>
      assert Items(h, p) == [] && open == p;
    case Some(i) =>
      ItemStable(h, e, p, i + 1, true);
      ItemsExtend(h, e, i + 1);
      var first, rest, more := [ItemOf(h, p, i + 1, true)], Items(h, i + 1), Items(g, open);
      assert Items(g, p) == first + (rest + more);
      Regroup(first, rest, more);
  }

  /** The raw lines reported, or only counted when oversized, are the newline split of the stream. */
  ghost predicate Reports(item: Item, line: seq<byte>) {
    match item
    case Whole(l) => l.raw == line && |line| <= MAX_UART_LINE_BYTES
    case Oversized(d) => d.totalBytes == |line| && |line| > MAX_UART_LINE_BYTES && d.terminated
  }

  ghost predicate AllReported(items: seq<Item>, lines: seq<seq<byte>>) {
    |items| == |lines| && forall k :: 0 <= k < |items| ==> Reports(items[k], lines[k])
  }

  lemma {:induction false} ItemsAreSplit(h: seq<Event>, p: nat)
    requires p <= |Stream(h)|
    ensures AllReported(Items(h, p), LinesFrom(Stream(h), p))
    decreases |Stream(h)| - p
  {
    match FindNewline(Stream(h), p)
    case None =>
    case Some(i) => ItemsAreSplit(h, i + 1);
  }

  /** Only the joined bytes matter: two divisions of one stream into events report the same lines. */
  lemma ChunkingIrrelevant(h: seq<Event>, g: seq<Event>)
    requires Stream(h) == Stream(g)
    ensures |Items(h, 0)| == |Items(g, 0)|
    ensures forall k :: 0 <= k < |Items(h, 0)| ==> SameLine(Items(h, 0)[k], Items(g, 0)[k])
  {
    ItemsAreSplit(h, 0);
    ItemsAreSplit(g, 0);
  }

  ghost predicate SameLine(a: Item, b: Item) {
    match (a, b)
    case (Whole(x), Whole(y)) => x.raw == y.raw
    case (Oversized(x), Oversized(y)) => x.totalBytes == y.totalBytes && x.terminated == y.terminated
    case _ => false
  }

  ghost function ItemBytes(item: Item): nat {
    match item case Whole(line) => |line.raw| case Oversized(d) => d.totalBytes
  }

  ghost function TotalBytes(items: seq<Item>): nat {
    if items == [] then 0 else ItemBytes(items[0]) + TotalBytes(items[1..])
  }

  /** No byte is lost or counted twice: finished lines and the open line add up to what was fed. */
  lemma {:induction false} BytesConserved(h: seq<Event>, p: nat)
    requires p <= |Stream(h)|
    ensures TotalBytes(Items(h, p)) + (|Stream(h)| - OpenStart(Stream(h), p)) == |Stream(h)| - p
    decreases |Stream(h)| - p
  {
    hide FindNewline, Stream;
    match FindNewline(Stream(h), p)
    case None =>
    case Some(i) =>
      BytesConserved(h, i + 1);
      assert Items(h, p)[1..] == Items(h, i + 1);
  }

  // ----- Whole lines are the short lines of the split -----

  ghost function Raws(lines: seq<UartLine>): (raws: seq<seq<byte>>)
    ensures |raws| == |lines|
  {
    seq(|lines|, (k: nat) requires k < |lines| => lines[k].raw)
  }

  /** Lines short enough to be assembled. */
  ghost function Short(lines: seq<seq<byte>>): seq<seq<byte>> {
    if lines == [] then []
    else
      var line := lines[|lines| - 1];
      Short(lines[..|lines| - 1]) + if |line| <= MAX_UART_LINE_BYTES then [line] else []
  }

  lemma {:induction false} WholesAreShort(items: seq<Item>, lines: seq<seq<byte>>)
    requires AllReported(items, lines)
    ensures Raws(Wholes(items)) == Short(lines)
  {
    if items != [] {
      var n := |items| - 1;
      WholesAreShort(items[..n], lines[..n]);
      assert Reports(items[n], lines[n]);
      assert Raws(Wholes(items)) == Raws(Wholes(items[..n])) + Raws(WholeOf(items[n]));
    }
  }

  lemma {:induction false} WholesAppend(a: seq<Item>, b: seq<Item>)
    ensures Wholes(a + b) == Wholes(a) + Wholes(b)
  {
    if b == [] {
      assert a + b == a;
    } else {
      var n := |b| - 1;
      assert a + b == (a + b[..n]) + [b[n]] && b == b[..n] + [b[n]];
      SnocViews(a + b[..n], b[n]);
      SnocViews(b[..n], b[n]);
      WholesAppend(a, b[..n]);
    }
  }

  // ----- Coordinates: cutting the events back out gives the line -----

  /** Bytes from offset `from` of event `i` up to offset `to` of event `j`. */
  ghost function Cut(h: seq<Event>, i: nat, from: nat, j: nat, to: nat): seq<byte>
    requires i <= j < |h|
    requires h[i].offsetBase <= from <= h[i].offsetBase + |h[i].data|
    requires h[j].offsetBase <= to <= h[j].offsetBase + |h[j].data|
    requires i == j ==> from <= to
  {
    if i == j then h[i].data[from - h[i].offsetBase..to - h[i].offsetBase]
    else h[i].data[from - h[i].offsetBase..] + Stream(h[i + 1..j]) + h[j].data[..to - h[j].offsetBase]
  }

  lemma {:induction false} StreamTake(h: seq<Event>, n: nat)
    requires n <= |h|
    ensures |Stream(h[..n])| <= |Stream(h)| && Stream(h)[..|Stream(h[..n])|] == Stream(h[..n])
  {
    if n < |h| {
      assert h[..|h| - 1][..n] == h[..n];
      StreamTake(h[..|h| - 1], n);
    } else {
      assert h[..n] == h;
    }
  }

  /** A located start: the event's own piece of the stream contains it. */
  lemma {:induction false} StartAtExact(h: seq<Event>, p: nat)
    requires p < |Stream(h)|
    ensures var (i, off) := StartAt(h, p);
            && h[i].offsetBase <= off < h[i].offsetBase + |h[i].data|
            && p == |Stream(h[..i])| + off - h[i].offsetBase
  {
    var n := |h| - 1;
    if p < |Stream(h[..n])| {
      StartAtExact(h[..n], p);
      assert h[..n][..StartAt(h, p).0] == h[..StartAt(h, p).0];
    }
  }

  lemma {:induction false} EndAtExact(h: seq<Event>, q: nat)
    requires 0 < q <= |Stream(h)|
    ensures var (j, off) := EndAt(h, q);
            && h[j].offsetBase < off <= h[j].offsetBase + |h[j].data|
            && q == |Stream(h[..j])| + off - h[j].offsetBase
  {
    var n := |h| - 1;
    if q <= |Stream(h[..n])| {
      EndAtExact(h[..n], q);
      assert h[..n][..EndAt(h, q).0] == h[..EndAt(h, q).0];
    }
  }

  lemma {:induction false} StreamAppend(a: seq<Event>, b: seq<Event>)
    ensures Stream(a + b) == Stream(a) + Stream(b)
  {
    if b == [] {
      assert a + b == a;
    } else {
      var n := |b| - 1;
      assert (a + b)[..|a + b| - 1] == a + b[..n];
      StreamAppend(a, b[..n]);
    }
  }

  ghost predicate CutIs(h: seq<Event>, i: nat, from: nat, j: nat, to: nat, bytes: seq<byte>) {
    && i <= j < |h|
    && h[i].offsetBase <= from <= h[i].offsetBase + |h[i].data|
    && h[j].offsetBase <= to <= h[j].offsetBase + |h[j].data|
    && (i == j ==> from <= to)
    && Cut(h, i, from, j, to) == bytes
  }

  /** Cutting the fed events between the reported coordinates gives the line's bytes, for lines
      spanning any number of events and any offset base. */
  lemma SpanCutsExactly(h: seq<Event>, p: nat, q: nat)
    requires p < q <= |Stream(h)|
    ensures CutIs(h, StartAt(h, p).0, StartAt(h, p).1, EndAt(h, q).0, EndAt(h, q).1, Stream(h)[p..q])
  {
    var (i, from) := StartAt(h, p);
    var (j, to) := EndAt(h, q);
    StartAtExact(h, p);
    EndAtExact(h, q);
    Ordered(h, p, q);
    CutBetween(h, i, from, j, to, p, q);
  }

  lemma CutBetween(h: seq<Event>, i: nat, from: nat, j: nat, to: nat, p: nat, q: nat)
    requires i <= j < |h|
    requires h[i].offsetBase <= from <= h[i].offsetBase + |h[i].data|
    requires h[j].offsetBase <= to <= h[j].offsetBase + |h[j].data|
    requires i == j ==> from <= to
    requires p == |Stream(h[..i])| + from - h[i].offsetBase && q == |Stream(h[..j])| + to - h[j].offsetBase
    ensures p <= q <= |Stream(h)| && Cut(h, i, from, j, to) == Stream(h)[p..q]
  {
    hide *;
    var from', to' := from - h[i].offsetBase, to - h[j].offsetBase;
    EventBytes(h, j);
    CutUnfold(h, i, from, j, to);
    var s, a, d := Stream(h), Stream(h[..i]), h[i].data;
    if i == j {
      CutInside(s, a, d, from', to');
    } else {
      EventsBetween(h, i, j);
      CutAcross(s, Stream(h[..j]), a, d, Stream(h[i + 1..j]), h[j].data, from', to');
    }
  }

  lemma CutUnfold(h: seq<Event>, i: nat, from: nat, j: nat, to: nat)
    requires i <= j < |h|
    requires h[i].offsetBase <= from <= h[i].offsetBase + |h[i].data|
    requires h[j].offsetBase <= to <= h[j].offsetBase + |h[j].data|
    requires i == j ==> from <= to
    ensures var from', to' := from - h[i].offsetBase, to - h[j].offsetBase;
            Cut(h, i, from, j, to) == if i == j then h[i].data[from'..to'] else h[i].data[from'..] + Stream(h[i + 1..j]) + h[j].data[..to']
  {
  }

  lemma {:induction false} Ordered(h: seq<Event>, p: nat, q: nat)
    requires p < q <= |Stream(h)|
    ensures StartAt(h, p).0 <= EndAt(h, q).0
  {
    if q <= |Stream(h[..|h| - 1])| {
      Ordered(h[..|h| - 1], p, q);
    }
  }

  lemma {:induction false} EventBytes(h: seq<Event>, j: nat)
    requires j < |h|
    ensures Stream(h[..j]) + h[j].data <= Stream(h)
    ensures Stream(h[..j + 1]) == Stream(h[..j]) + h[j].data
  {
    var g := h[..j + 1];
    assert g == h[..j] + [h[j]];
    StreamSnoc(h[..j], h[j]);
    StreamTake(h, j + 1);
    Prefix(Stream(h), Stream(g));
  }

  lemma Prefix(s: seq<byte>, t: seq<byte>)
    requires |t| <= |s| && s[..|t|] == t
    ensures t <= s
  {
  }

  lemma EventsBetween(h: seq<Event>, i: nat, j: nat)
    requires i < j < |h|
    ensures Stream(h[..j]) == Stream(h[..i]) + h[i].data + Stream(h[i + 1..j])
  {
    EventBytes(h, i);
    assert h[..j] == h[..i + 1] + h[i + 1..j];
    StreamAppend(h[..i + 1], h[i + 1..j]);
  }

  lemma CutInside(s: seq<byte>, a: seq<byte>, d: seq<byte>, from: nat, to: nat)
    requires a + d <= s && from <= to <= |d|
    ensures s[|a| + from..|a| + to] == d[from..to]
  {
    assert forall k :: |a| <= k < |a| + |d| ==> s[k] == (a + d)[k];
  }

  lemma CutAcross(s: seq<byte>, w: seq<byte>, a: seq<byte>, d: seq<byte>, mid: seq<byte>, e: seq<byte>, from: nat, to: nat)
    requires w == a + d + mid && w + e <= s && from <= |d| && to <= |e|
    ensures |a| + from <= |w| + to && s[|a| + from..|w| + to] == d[from..] + mid + e[..to]
  {
    assert forall k :: 0 <= k < |w + e| ==> s[k] == (w + e)[k];
  }

  // ----- The coordinates an item carries -----

  function SpanOfItem(item: Item): Span {
    match item case Whole(line) => line.span case Oversized(d) => d.span
  }

  /** The span says, in so many words, that the line starts with stream byte `p`, inside event `i`, and ends
      with byte `q - 1`, inside event `j`, behind that event's earlier newlines. */
  ghost predicate SpanAt(h: seq<Event>, span: Span, p: nat, q: nat, i: nat, j: nat) {
    && i <= j < |h| && span.startEventOffset.Some? && span.endEventOffset.Some?
    && var from, to := span.startEventOffset.value - h[i].offsetBase, span.endEventOffset.value - h[j].offsetBase;
       && 0 <= from < |h[i].data| && 0 < to <= |h[j].data|
       && p == |Stream(h[..i])| + from && q == |Stream(h[..j])| + to
       && span.startIngestionIndex == h[i].ingestionIndex && span.endIngestionIndex == h[j].ingestionIndex
       && span.lineIndexInEvent == Some(Newlines(h[j].data[..to - 1]))
  }

  /** The item is about stream bytes `p..q`: its span leads to them, they are its bytes or their number is
      its size, and an oversized line has the timestamp of the event it ends in. */
  ghost predicate Located(h: seq<Event>, item: Item, p: nat, q: nat) {
    && p < q <= |Stream(h)|
    && exists i: nat, j: nat :: SpanAt(h, SpanOfItem(item), p, q, i, j)
         && match item
            case Whole(line) => line.raw == Stream(h)[p..q]
            case Oversized(d) => d.totalBytes == q - p && d.timestampUs == h[j].timestampUs
  }

  /** Cutting the events at the coordinates of a located item's span gives exactly its bytes. */
  lemma LocatedCuts(h: seq<Event>, item: Item, p: nat, q: nat)
    requires Located(h, item, p, q)
    ensures exists i: nat, j: nat ::
              && i < |h| && j < |h|
              && SpanOfItem(item).startIngestionIndex == h[i].ingestionIndex && SpanOfItem(item).endIngestionIndex == h[j].ingestionIndex
              && SpanOfItem(item).startEventOffset.Some? && SpanOfItem(item).endEventOffset.Some?
              && CutIs(h, i, SpanOfItem(item).startEventOffset.value, j, SpanOfItem(item).endEventOffset.value, Stream(h)[p..q])
  {
    var span := SpanOfItem(item);
    var i: nat, j: nat :| SpanAt(h, span, p, q, i, j);
    hide Stream, Cut;
    CutBetween(h, i, span.startEventOffset.value, j, span.endEventOffset.value, p, q);
    assert CutIs(h, i, span.startEventOffset.value, j, span.endEventOffset.value, Stream(h)[p..q]);
  }

  lemma {:induction false} LineNumberMeans(h: seq<Event>, q: nat)
    requires 0 < q <= |Stream(h)|
    ensures var (j, off) := EndAt(h, q);
            && 0 < off - h[j].offsetBase <= |h[j].data|
            && LineNumber(h, q) == Newlines(h[j].data[..off - h[j].offsetBase - 1])
  {
    EndAtExact(h, q);
    var n := |h| - 1;
    if q <= |Stream(h[..n])| {
      LineNumberMeans(h[..n], q);
    }
  }

  lemma SpanOfAt(h: seq<Event>, p: nat, q: nat)
    requires p < q <= |Stream(h)|
    ensures SpanAt(h, SpanOf(h, p, q), p, q, StartAt(h, p).0, EndAt(h, q).0)
  {
    hide Stream, StartAt, EndAt, LineNumber, Newlines;
    StartAtExact(h, p);
    EndAtExact(h, q);
    Ordered(h, p, q);
    LineNumberMeans(h, q);
  }

  lemma ItemOfLocated(h: seq<Event>, p: nat, q: nat, terminated: bool)
    requires p < q <= |Stream(h)|
    ensures Located(h, ItemOf(h, p, q, terminated), p, q)
  {
    hide Stream, SpanAt, SpanOf, EndAt, StartAt;
    SpanOfAt(h, p, q);
    var item, j := ItemOf(h, p, q, terminated), EndAt(h, q).0;
    assert SpanAt(h, SpanOfItem(item), p, q, StartAt(h, p).0, j);
    assert item.Oversized? ==> item.descriptor.timestampUs == h[j].timestampUs;
  }

  /** Item `k` is about exactly line `k` of the split, at its place in the stream. */
  lemma {:induction false} ItemsLocated(h: seq<Event>, p: nat, k: nat)
    requires p <= |Stream(h)| && k < |Items(h, p)|
    ensures var lines := LinesFrom(Stream(h), p);
            && |lines| == |Items(h, p)|
            && var at := p + |Concat(lines[..k])|;
               Located(h, Items(h, p)[k], at, at + |lines[k]|) && Stream(h)[at..at + |lines[k]|] == lines[k]
    decreases |Stream(h)| - p
  {
    hide *;
    SplitLengths(h, p);
    var i := FirstItemAndLine(h, p);
    var lines := LinesFrom(Stream(h), p);
    if k == 0 {
      ItemOfLocated(h, p, i + 1, true);
      assert lines[..0] == [];
      NothingJoined();
    } else {
      ItemsLocated(h, i + 1, k - 1);
      var rest := LinesFrom(Stream(h), i + 1);
      assert lines[..k] == [lines[0]] + rest[..k - 1];
      ConcatCons(lines[0], rest[..k - 1]);
    }
  }

  lemma SplitLengths(h: seq<Event>, p: nat)
    requires p <= |Stream(h)|
    ensures |LinesFrom(Stream(h), p)| == |Items(h, p)|
  {
    ItemsAreSplit(h, p);
  }

  lemma NothingJoined()
    ensures Concat([]) == []
  {
  }

  lemma FirstItemAndLine(h: seq<Event>, p: nat) returns (i: nat)
    requires p <= |Stream(h)| && |Items(h, p)| > 0
    ensures p <= i < |Stream(h)|
    ensures Items(h, p) == [ItemOf(h, p, i + 1, true)] + Items(h, i + 1)
    ensures LinesFrom(Stream(h), p) == [Stream(h)[p..i + 1]] + LinesFrom(Stream(h), i + 1)
  {
    i := FindNewline(Stream(h), p).value;
  }

  /** A returned line carries coordinates at which the recorded events hold it. */
  ghost predicate Recorded(h: seq<Event>, item: Item) {
    exists p, q :: Located(h, item, p, q)
  }

  lemma {:induction false} ViewsAreItems(items: seq<Item>)
    ensures forall k :: 0 <= k < |Wholes(items)| ==> Whole(Wholes(items)[k]) in items
    ensures forall k :: 0 <= k < |Oversizeds(items)| ==> Oversized(Oversizeds(items)[k]) in items
  {
    if items != [] {
      var n := |items| - 1;
      ViewsAreItems(items[..n]);
      assert items == items[..n] + [items[n]];
    }
  }

  lemma ItemsRecorded(h: seq<Event>, p: nat)
    requires p <= |Stream(h)|
    ensures forall k :: 0 <= k < |Wholes(Items(h, p))| ==> Recorded(h, Whole(Wholes(Items(h, p))[k]))
    ensures forall k :: 0 <= k < |Oversizeds(Items(h, p))| ==> Recorded(h, Oversized(Oversizeds(Items(h, p))[k]))
  {
    hide Located, Items, Wholes, Oversizeds, Stream;
    var items := Items(h, p);
    ViewsAreItems(items);
    forall item | item in items
      ensures Recorded(h, item)
    {
      var k :| 0 <= k < |items| && items[k] == item;
      ItemsLocated(h, p, k);
    }
  }

  // ----- The open line as a value -----

  /** The buffer's fields: either a normal unterminated line or an oversized one. */
  datatype OpenLine = OpenLine(
    pending: seq<byte>,
    pendingSpan: Span,
    oversizedTotalBytes: Option<nat>,
    oversizedSpan: Span,
    oversizedTimestampUs: Option<int>)

  const EMPTY := OpenLine([], NO_SPAN, None, NO_SPAN, None)

  /** The fields that stand for the open line `p..n` of the joined stream. */
  ghost function OpenLineOf(h: seq<Event>, p: nat, n: nat): OpenLine
    requires p <= n <= |Stream(h)|
  {
    if p == n then EMPTY
    else match ItemOf(h, p, n, false)
         case Whole(line) => OpenLine(line.raw, line.span, None, NO_SPAN, None)
         case Oversized(d) => OpenLine([], NO_SPAN, Some(d.totalBytes), d.span, d.timestampUs)
  }

  /** Either a bounded pending line or an oversized one, never both. */
  ghost predicate Bounded(open: OpenLine) {
    if open.oversizedTotalBytes.Some? then
      open.oversizedTotalBytes.value > MAX_UART_LINE_BYTES && open.pending == [] && open.pendingSpan == NO_SPAN
    else
      && |open.pending| <= MAX_UART_LINE_BYTES && open.oversizedSpan == NO_SPAN && open.oversizedTimestampUs == None
      && (open.pending == [] ==> open.pendingSpan == NO_SPAN)
  }

  lemma OpenLineBounded(h: seq<Event>, p: nat, n: nat)
    requires p <= n <= |Stream(h)|
    ensures Bounded(OpenLineOf(h, p, n))
  {
  }

  /** The loop body's effect on the fields, before a newline closes the line. */
  ghost function Extended(open: OpenLine, e: Event, from: nat, to: nat, lineIndex: nat): OpenLine
    requires from < to <= |e.data|
  {
    var total := to - from + if open.oversizedTotalBytes.Some? then open.oversizedTotalBytes.value else |open.pending|;
    var began := if open.oversizedTotalBytes.Some? then open.oversizedSpan else open.pendingSpan;
    var atStart := open.oversizedTotalBytes.None? && open.pending == [];
    var span := Span(
      if atStart then e.ingestionIndex else began.startIngestionIndex,
      if atStart then Some(e.offsetBase + from) else began.startEventOffset,
      e.ingestionIndex, Some(e.offsetBase + to), Some(lineIndex));
    if total > MAX_UART_LINE_BYTES then OpenLine([], NO_SPAN, Some(total), span, e.timestampUs)
    else OpenLine(open.pending + e.data[from..to], span, None, NO_SPAN, None)
  }

  /** The item reported when the open line ends. */
  ghost function Closed(open: OpenLine, terminated: bool): Item {
    if open.oversizedTotalBytes.Some? then
      Oversized(OversizedUartLine(open.oversizedSpan, open.oversizedTotalBytes.value, terminated, open.oversizedTimestampUs))
    else Whole(UartLine(open.pending, open.pendingSpan))
  }

  lemma PieceBytes(s: seq<byte>, d: seq<byte>, p: nat, from: nat, to: nat)
    requires from <= to <= |d| && p <= |s| + from
    ensures (s + d)[p..|s| + to] == (s + d)[p..|s| + from] + d[from..to]
  {
  }

  /** The coordinates of a piece that ends in the newest event. */
  lemma SpanInNewest(h: seq<Event>, e: Event, from: nat, to: nat, p: nat)
    requires from < to <= |e.data| && Unbroken(e.data, from, to - 1)
    requires p <= |Stream(h)| + from
    ensures |Stream(h + [e])| == |Stream(h)| + |e.data|
    ensures var g, n0 := h + [e], |Stream(h)|;
            && EndAt(g, n0 + to) == (|h|, e.offsetBase + to)
            && LineNumber(g, n0 + to) == Newlines(e.data[..from])
            && (p == n0 + from ==> StartAt(g, p) == (|h|, e.offsetBase + from))
  {
    StreamSnoc(h, e);
    assert (h + [e])[..|h|] == h;
    hide Stream;
    NewlinesOfUnbroken(e.data, from, to - 1);
  }

  /** Reading the piece `from..to` of the newest event moves the fields to the longer open line. */
  lemma ExtendedIsOpen(h: seq<Event>, e: Event, from: nat, to: nat, p: nat)
    requires from < to <= |e.data| && Unbroken(e.data, from, to - 1)
    requires p <= |Stream(h)| + from
    ensures |Stream(h + [e])| == |Stream(h)| + |e.data|
    ensures var g, n0 := h + [e], |Stream(h)|;
            var open := Extended(OpenLineOf(g, p, n0 + from), e, from, to, Newlines(e.data[..from]));
            && open == OpenLineOf(g, p, n0 + to)
            && Closed(open, true) == ItemOf(g, p, n0 + to, true)
  {
    hide Stream, StartAt, EndAt, LineNumber, Newlines, Unbroken;
    SpanInNewest(h, e, from, to, p);
    StreamSnoc(h, e);
    PieceBytes(Stream(h), e.data, p, from, to);
  }

  /** Where the newest event's next newline stands in the joined stream. */
  lemma NextNewline(s: seq<byte>, d: seq<byte>, p: nat, from: nat)
    requires from <= |d| && p <= |s| + from && Unbroken(s + d, p, |s| + from)
    ensures FindNewline(s + d, p) == Shifted(FindNewline(d, from), |s|)
  {
    hide FindNewline;
    var r := FindNewline(d, from);
    FindNewlineIsFirst(d, from);
    var to := if r.Some? then r.value else |d|;
    forall i | |s| + from <= i < |s| + to
      ensures (s + d)[i] != NEWLINE
    {
      assert (s + d)[i] == d[i - |s|];
    }
    if r.Some? {
      FirstNewlineUnique(s + d, p, |s| + r.value);
    } else {
      NoNewline(s + d, p);
    }
  }

  ghost function Shifted(r: Option<nat>, n: nat): Option<nat> {
    if r.Some? then Some(n + r.value) else None
  }

  /** What a loop iteration needs: the next item, and the next newline after it. */
  lemma NextItem(h: seq<Event>, e: Event, p: nat, from: nat)
    requires from < |e.data|
    requires |Stream(h + [e])| == |Stream(h)| + |e.data| && p <= |Stream(h)| + from
    requires FindNewline(Stream(h + [e]), p) == Shifted(FindNewline(e.data, from), |Stream(h)|)
    ensures var r := FindNewline(e.data, from);
            var to := if r.Some? then r.value + 1 else |e.data|;
            && Unbroken(e.data, from, to - 1)
            && (r.Some? ==> e.data[to - 1] == NEWLINE)
            && (r.None? ==> Items(h + [e], p) == [] && OpenStart(Stream(h + [e]), p) == p)
            && (r.Some? ==>
                  && Newlines(e.data[..to]) == Newlines(e.data[..from]) + 1
                  && OpenStart(Stream(h + [e]), p) == OpenStart(Stream(h + [e]), |Stream(h)| + to)
                  && Items(h + [e], p) == [ItemOf(h + [e], p, |Stream(h)| + to, true)] + Items(h + [e], |Stream(h)| + to)
                  && FindNewline(Stream(h + [e]), |Stream(h)| + to) == Shifted(FindNewline(e.data, to), |Stream(h)|))
  {
    hide FindNewline, ItemOf;
    FindNewlineIsFirst(e.data, from);
    var r := FindNewline(e.data, from);
    if r.Some? {
      var to := r.value + 1;
      StreamSnoc(h, e);
      NextNewline(Stream(h), e.data, |Stream(h)| + to, to);
      NewlinesOfUnbroken(e.data, from, to - 1);
      assert e.data[..to][..to - 1] == e.data[..to - 1];
    }
  }

  /** Before the first iteration the open line reaches the new event unbroken. */
  lemma FirstItem(h: seq<Event>, e: Event, p: nat)
    requires p == OpenStart(Stream(h), 0)
    ensures |Stream(h + [e])| == |Stream(h)| + |e.data|
    ensures FindNewline(Stream(h + [e]), p) == Shifted(FindNewline(e.data, 0), |Stream(h)|)
    ensures OpenLineOf(h + [e], p, |Stream(h)|) == OpenLineOf(h, p, |Stream(h)|)
  {
    hide FindNewline, OpenStart, ItemOf;
    StreamSnoc(h, e);
    SplitFromCuts(Stream(h), 0);
    forall i | p <= i < |Stream(h)|
      ensures (Stream(h) + e.data)[i] != NEWLINE
    {
      assert (Stream(h) + e.data)[i] == Stream(h)[i];
    }
    NextNewline(Stream(h), e.data, p, 0);
    if p < |Stream(h)| {
      ItemStable(h, e, p, |Stream(h)|, false);
    }
  }

  lemma NewLineOpens(h: seq<Event>, n: nat)
    requires n <= |Stream(h)|
    ensures OpenLineOf(h, n, n) == EMPTY
  {
  }

  lemma NothingAfterEnd(d: seq<byte>)
    ensures FindNewline(d, |d|) == None
  {
  }

  lemma NothingLeft(h: seq<Event>, p: nat)
    requires p <= |Stream(h)| && FindNewline(Stream(h), p) == None
    ensures Items(h, p) == [] && OpenStart(Stream(h), p) == p
  {
  }

  /** The items so far, and where their next line begins. */
  ghost predicate Reached(h: seq<Event>, p0: nat, items: seq<Item>, p: nat)
    requires p0 <= |Stream(h)| && p <= |Stream(h)|
  {
    && items + Items(h, p) == Items(h, p0)
    && OpenStart(Stream(h), p) == OpenStart(Stream(h), p0)
  }

  lemma ReachedFirst(h: seq<Event>, p0: nat)
    requires p0 <= |Stream(h)|
    ensures Reached(h, p0, [], p0)
  {
    assert [] + Items(h, p0) == Items(h, p0);
  }

  lemma ReachedLast(h: seq<Event>, p0: nat, items: seq<Item>, p: nat)
    requires p0 <= |Stream(h)| && p <= |Stream(h)| && FindNewline(Stream(h), p) == None
    requires Reached(h, p0, items, p)
    ensures items == Items(h, p0) && p == OpenStart(Stream(h), p0)
  {
    NothingLeft(h, p);
    assert items + [] == items;
  }

  lemma ReachedNext(h: seq<Event>, p0: nat, items: seq<Item>, p: nat, q: nat, item: Item)
    requires p0 <= |Stream(h)| && p <= |Stream(h)| && q <= |Stream(h)|
    requires Reached(h, p0, items, p)
    requires Items(h, p) == [item] + Items(h, q) && OpenStart(Stream(h), p) == OpenStart(Stream(h), q)
    ensures Reached(h, p0, items + [item], q)
  {
    hide Items, OpenStart;
    Regroup(items, [item], Items(h, q));
  }

  /** The feeding loop's state after `from` bytes of the newest event: `items` are finished, the
      line that began at stream position `p` is open, `open` and `lineIndex` describe it. */
  ghost predicate Reading(h: seq<Event>, e: Event, from: nat, items: seq<Item>, p: nat, open: OpenLine, lineIndex: nat)
    requires from <= |e.data|
  {
    var g, n0 := h + [e], |Stream(h)|;
    && |Stream(g)| == n0 + |e.data| && p <= n0 + from
    && FindNewline(Stream(g), p) == Shifted(FindNewline(e.data, from), n0)
    && open == OpenLineOf(g, p, n0 + from)
    && lineIndex == Newlines(e.data[..from])
    && Reached(g, OpenStart(Stream(h), 0), items, p)
  }

  lemma ReadingFirst(h: seq<Event>, e: Event)
    ensures Reading(h, e, 0, [], OpenStart(Stream(h), 0), OpenLineOf(h, OpenStart(Stream(h), 0), |Stream(h)|), 0)
  {
    FirstItem(h, e, OpenStart(Stream(h), 0));
    ReachedFirst(h + [e], OpenStart(Stream(h), 0));
  }

  lemma ReadingNext(h: seq<Event>, e: Event, from: nat, to: nat, items: seq<Item>, p: nat, open: OpenLine, lineIndex: nat)
    requires from < to <= |e.data| && Reading(h, e, from, items, p, open, lineIndex)
    requires FindNewline(e.data, from) == Some(to - 1)
    ensures Bounded(open)
    ensures var item := Closed(Extended(open, e, from, to, lineIndex), true);
            Reading(h, e, to, items + [item], |Stream(h)| + to, EMPTY, lineIndex + 1)
  {
    hide Stream, OpenLineOf, Items, OpenStart, FindNewline, Newlines, Extended, Closed, Bounded, Reached, Unbroken, ItemOf;
    var g, n0 := h + [e], |Stream(h)|;
    NextItem(h, e, p, from);
    ExtendedIsOpen(h, e, from, to, p);
    OpenLineBounded(g, p, n0 + from);
    ReachedNext(g, OpenStart(Stream(h), 0), items, p, n0 + to, ItemOf(g, p, n0 + to, true));
    NewLineOpens(g, n0 + to);
  }

  /** The whole event has been taken. */
  ghost predicate Complete(h: seq<Event>, e: Event, items: seq<Item>, open: OpenLine) {
    var g := h + [e];
    && OpenStart(Stream(h), 0) <= |Stream(g)|
    && items == Items(g, OpenStart(Stream(h), 0))
    && open == OpenLineOf(g, OpenStart(Stream(g), 0), |Stream(g)|)
    && Items(g, 0) == Items(h, 0) + items
  }

  lemma ReadingLast(h: seq<Event>, e: Event, from: nat, items: seq<Item>, p: nat, open: OpenLine, lineIndex: nat)
    requires from <= |e.data| && Reading(h, e, from, items, p, open, lineIndex)
    requires FindNewline(e.data, from) == None
    ensures Bounded(open)
    ensures Complete(h, e, items, if from < |e.data| then Extended(open, e, from, |e.data|, lineIndex) else open)
  {
    hide Stream, OpenLineOf, Items, OpenStart, FindNewline, Newlines, Extended, Closed, Bounded, Reached, Unbroken, ItemOf;
    var g, n0 := h + [e], |Stream(h)|;
    OpenLineBounded(g, p, n0 + from);
    ReachedLast(g, OpenStart(Stream(h), 0), items, p);
    ItemsExtend(h, e, 0);
    if from < |e.data| {
      NextItem(h, e, p, from);
      ExtendedIsOpen(h, e, from, |e.data|, p);
    }
  }

  // ----- The buffer -----

  class UartLineBuffer {
    var pending: seq<byte>
    var pendingSpan: Span
    var oversizedTotalBytes: Option<nat>
    var oversizedSpan: Span
    var oversizedTimestampUs: Option<int>

    /** Everything fed, everything emitted and every newly-oversized count since creation or flush. */
    ghost var history: seq<Event>
    ghost var emitted: seq<Item>
    ghost var newlyOversizedTotal: nat

    ghost function Fields(): OpenLine
      reads this
    {
      OpenLine(pending, pendingSpan, oversizedTotalBytes, oversizedSpan, oversizedTimestampUs)
    }

    ghost function Open(): nat
      reads this
    {
      OpenStart(Stream(history), 0)
    }

    /** The whole run so far refines splitting: every line that ended was emitted once, in order,
        and the fields hold exactly the unterminated line. */
    ghost predicate Valid()
      reads this
    {
      && Fields() == OpenLineOf(history, Open(), |Stream(history)|)
      && emitted == Items(history, 0)
      && newlyOversizedTotal == |Oversizeds(emitted)| + OversizedCount()
    }

    ghost function OversizedCount(): nat
      reads this
    {
      if oversizedTotalBytes.Some? then 1 else 0
    }

    constructor ()
      ensures Valid() && history == [] && emitted == [] && newlyOversizedTotal == 0
    {
      pending, pendingSpan := [], NO_SPAN;
      oversizedTotalBytes, oversizedSpan, oversizedTimestampUs := None, NO_SPAN, None;
      history, emitted, newlyOversizedTotal := [], [], 0;
    }

    /** True exactly when the bytes fed so far end inside a line. */
    predicate HasUnterminatedLine()
      requires Valid()
      reads this
      ensures HasUnterminatedLine() <==> Rest(Stream(history)) != []
    {
      pending != [] || oversizedTotalBytes.Some?
    }

    method ClearPending()
      modifies this`pending, this`pendingSpan
      ensures pending == [] && pendingSpan == NO_SPAN
    {
      pending, pendingSpan := [], NO_SPAN;
    }

    method FinishOversizedLine(terminated: bool) returns (line: OversizedUartLine)
      requires oversizedTotalBytes.Some?
      modifies this`oversizedTotalBytes, this`oversizedSpan, this`oversizedTimestampUs
      ensures Oversized(line) == Closed(old(Fields()), terminated)
      ensures Fields() == EMPTY.(pending := pending, pendingSpan := pendingSpan)
    {
      line := OversizedUartLine(oversizedSpan, oversizedTotalBytes.value, terminated, oversizedTimestampUs);
      oversizedTotalBytes, oversizedSpan, oversizedTimestampUs := None, NO_SPAN, None;
    }

    /** The loop body: take the piece `from..to` of the event, which ends the line if `ends`. */
    method TakePiece(event: Event, from: nat, to: nat, ends: bool, lineIndexInEvent: nat)
      returns (line: seq<UartLine>, oversizedLine: seq<OversizedUartLine>, becameOversized: nat)
      requires from < to <= |event.data| && Bounded(Fields())
      modifies this`pending, this`pendingSpan, this`oversizedTotalBytes, this`oversizedSpan, this`oversizedTimestampUs
      ensures becameOversized + old(OversizedCount()) == |oversizedLine| + OversizedCount()
      ensures var open := Extended(old(Fields()), event, from, to, lineIndexInEvent);
              if ends then
                Fields() == EMPTY && line == WholeOf(Closed(open, true)) && oversizedLine == OversizedOf(Closed(open, true))
              else Fields() == open && line == [] && oversizedLine == []
    {
      line, oversizedLine, becameOversized := [], [], 0;
      var startIngestionIndex, startEventOffset := event.ingestionIndex, Some(event.offsetBase + from);
      if oversizedTotalBytes.Some? {
        oversizedTotalBytes := Some(oversizedTotalBytes.value + to - from);
        oversizedSpan := Span(oversizedSpan.startIngestionIndex, oversizedSpan.startEventOffset,
                              event.ingestionIndex, Some(event.offsetBase + to), Some(lineIndexInEvent));
        oversizedTimestampUs := event.timestampUs;
        if ends {
          var finished := FinishOversizedLine(true);
          oversizedLine := [finished];
        }
        return;
      }
      if pending != [] {
        startIngestionIndex, startEventOffset := pendingSpan.startIngestionIndex, pendingSpan.startEventOffset;
      }
      var span := Span(startIngestionIndex, startEventOffset,
                       event.ingestionIndex, Some(event.offsetBase + to), Some(lineIndexInEvent));
      var totalBytes := |pending| + (to - from);
      if totalBytes > MAX_UART_LINE_BYTES {
        ClearPending();
        oversizedTotalBytes, oversizedSpan, oversizedTimestampUs := Some(totalBytes), span, event.timestampUs;
        becameOversized := 1;
        if ends {
          var finished := FinishOversizedLine(true);
          oversizedLine := [finished];
        }
      } else if !ends {
        pending, pendingSpan := pending + event.data[from..to], span;
      } else {
        line := [UartLine(pending + event.data[from..to], span)];
        ClearPending();
      }
    }

    /** One loop iteration: find the next newline at or after `from` and take the piece it ends. */
    method ReadPiece(event: Event, from: nat, lineIndexInEvent: nat, ghost items: seq<Item>, ghost p: nat)
      returns (to: nat, ended: bool, line: seq<UartLine>, oversizedLine: seq<OversizedUartLine>, becameOversized: nat,
               ghost read: seq<Item>, ghost next: nat)
      requires from < |event.data| && Reading(history, event, from, items, p, Fields(), lineIndexInEvent)
      modifies this`pending, this`pendingSpan, this`oversizedTotalBytes, this`oversizedSpan, this`oversizedTimestampUs
      ensures from < to <= |event.data|
      ensures becameOversized + old(OversizedCount()) == |oversizedLine| + OversizedCount()
      ensures Wholes(read) == Wholes(items) + line && Oversizeds(read) == Oversizeds(items) + oversizedLine
      ensures if ended then Reading(history, event, to, read, next, Fields(), lineIndexInEvent + 1)
              else Complete(history, event, read, Fields())
    {
      hide *;
      var newlineOffset := FindNewline(event.data, from);
      to := if newlineOffset.Some? then newlineOffset.value + 1 else |event.data|;
      ended := newlineOffset.Some?;
      ghost var item := Closed(Extended(Fields(), event, from, to, lineIndexInEvent), true);
      read, next := items, |Stream(history)| + to;
      if ended {
        ReadingNext(history, event, from, to, items, p, Fields(), lineIndexInEvent);
        SnocViews(items, item);
        read := items + [item];
      } else {
        ReadingLast(history, event, from, items, p, Fields(), lineIndexInEvent);
      }
      line, oversizedLine, becameOversized := TakePiece(event, from, to, ended, lineIndexInEvent);
    }

    /** Feed one event: the lines it completes, whole and oversized, and how many became oversized. */
    method FeedResult(event: Event)
      returns (lines: seq<UartLine>, oversizedLines: seq<OversizedUartLine>, newlyOversized: nat)
      requires Valid()
      modifies this
      ensures Valid()
      ensures history == old(history) + [event]
      ensures old(Open()) <= |Stream(history)|
      ensures var items := Items(history, old(Open()));
              emitted == old(emitted) + items && lines == Wholes(items) && oversizedLines == Oversizeds(items)
      ensures newlyOversizedTotal == old(newlyOversizedTotal) + newlyOversized
      ensures |pending| <= MAX_UART_LINE_BYTES
      ensures newlyOversized + old(OversizedCount()) == |oversizedLines| + OversizedCount()
      ensures forall k :: 0 <= k < |lines| ==> Recorded(history, Whole(lines[k]))
      ensures forall k :: 0 <= k < |oversizedLines| ==> Recorded(history, Oversized(oversizedLines[k]))
    {
      lines, oversizedLines, newlyOversized := [], [], 0;
      ghost var items, p: nat := [], Open();
      var eventOffset, lineIndexInEvent, ended := 0, 0, true;
      ReadingFirst(history, event);
      hide *;
      while ended && eventOffset < |event.data|
        invariant eventOffset <= |event.data|
        invariant if ended then Reading(history, event, eventOffset, items, p, Fields(), lineIndexInEvent)
                  else Complete(history, event, items, Fields())
        invariant lines == Wholes(items) && oversizedLines == Oversizeds(items)
        invariant newlyOversized + old(OversizedCount()) == |oversizedLines| + OversizedCount()
        invariant history == old(history) && emitted == old(emitted) && newlyOversizedTotal == old(newlyOversizedTotal)
        decreases |event.data| - eventOffset
      {
        var line, oversizedLine, became;
        eventOffset, ended, line, oversizedLine, became, items, p :=
          ReadPiece(event, eventOffset, lineIndexInEvent, items, p);
        lines, oversizedLines := lines + line, oversizedLines + oversizedLine;
        newlyOversized := newlyOversized + became;
        lineIndexInEvent := lineIndexInEvent + 1;
      }
      if ended {
        NothingAfterEnd(event.data);
        ReadingLast(history, event, eventOffset, items, p, Fields(), lineIndexInEvent);
      }
      Finish(event, items, newlyOversized);
      PendingBounded();
      ItemsRecorded(history, old(Open()));
    }

    lemma PendingBounded()
      requires Valid()
      ensures |pending| <= MAX_UART_LINE_BYTES
    {
      OpenLineBounded(history, Open(), |Stream(history)|);
    }

    /** Finalize the unterminated line at a hard boundary; the buffer starts afresh. */
    method FlushResult() returns (lines: seq<UartLine>, oversizedLines: seq<OversizedUartLine>)
      requires Valid()
      modifies this
      ensures Valid() && history == [] && emitted == []
      ensures var h, p := old(history), old(Open());
              if p == |Stream(h)| then lines == [] && oversizedLines == []
              else var item := ItemOf(h, p, |Stream(h)|, false);
                   lines == WholeOf(item) && oversizedLines == OversizedOf(item) && Located(h, item, p, |Stream(h)|)
    {
      if Open() < |Stream(history)| { ItemOfLocated(history, Open(), |Stream(history)|, false); }
      hide Located;
      lines, oversizedLines := [], [];
      OpenLineBounded(history, Open(), |Stream(history)|);
      if oversizedTotalBytes.Some? {
        var line := FinishOversizedLine(false);
        oversizedLines := [line];
      } else if pending != [] {
        lines := [UartLine(pending, pendingSpan)];
        ClearPending();
      }
      history, emitted, newlyOversizedTotal := [], [], 0;
    }

    /** Record in the ghost history that `event` was fed and `items` were emitted. */
    ghost method Finish(event: Event, items: seq<Item>, newlyOversized: nat)
      requires emitted == Items(history, 0) && Complete(history, event, items, Fields())
      requires newlyOversizedTotal + newlyOversized == |Oversizeds(emitted)| + |Oversizeds(items)| + OversizedCount()
      modifies this`history, this`emitted, this`newlyOversizedTotal
      ensures Valid()
      ensures history == old(history) + [event] && emitted == old(emitted) + items
      ensures OpenStart(Stream(old(history)), 0) <= |Stream(history)| && items == Items(history, OpenStart(Stream(old(history)), 0))
      ensures newlyOversizedTotal == old(newlyOversizedTotal) + newlyOversized
    {
      hide Items, Stream, OpenStart, OpenLineOf;
      OversizedsAppend(emitted, items);
      history, emitted := history + [event], emitted + items;
      newlyOversizedTotal := newlyOversizedTotal + newlyOversized;
    }
  }
}
