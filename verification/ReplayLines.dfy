/**
  What each replayed line says about itself.

  A line's coordinates are places in its channel's records, and those records hold it there; the entry's
  position is that of the record the line ends in; a complete line has that record's timestamp, a partial
  one the timestamp of its channel's last record.
*/
module ReplayLines {
  import opened Wrappers
  import opened Splitting
  import opened LineBuffer
  import opened MinHeap
  import opened LogReplay
  import opened ReplayViews

  function ItemOfRecord(r: Record): Item {
    match r case LineRecord(_, _, line, _) => Whole(line) case OversizedRecord(_, d) => Oversized(d)
  }

  /** The channel's records hold the line at its coordinates. */
  ghost predicate Kept(events: seq<LogEvent>, x: Entry<Record>) {
    Recorded(Fed(events, KeyOfRecord(x.item)), ItemOfRecord(x.item))
  }

  /** The line ends in record `n`, as the line `x.minor` of it, and is filed under that record. */
  ghost predicate EndsIn(events: seq<LogEvent>, x: Entry<Record>, n: nat) {
    && n < |events|
    && var e, span := events[n], SpanOfRecord(x.item);
       && e.key == KeyOfRecord(x.item)
       && span.endIngestionIndex == Some(e.ingestionIndex) && x.major == e.ingestionIndex
       && span.lineIndexInEvent.Some? && x.minor == span.lineIndexInEvent.value
  }

  /** Record `n` is the channel's last. */
  ghost predicate IsLastOf(events: seq<LogEvent>, key: Key, n: nat) {
    n < |events| && events[n].key == key && forall m :: n < m < |events| ==> events[m].key != key
  }

  // ----- Where an entry's line ends -----

  lemma RecordedGrows(h: seq<Event>, e: Event, item: Item)
    requires Recorded(h, item)
    ensures Recorded(h + [e], item)
  {
    hide Stream, Newlines;
    var p: nat, q: nat :| Located(h, item, p, q);
    var i: nat, j: nat :| SpanAt(h, SpanOfItem(item), p, q, i, j)
                          && match item
                             case Whole(line) => line.raw == Stream(h)[p..q]
                             case Oversized(d) => d.totalBytes == q - p && d.timestampUs == h[j].timestampUs;
    var g := h + [e];
    StreamSnoc(h, e);
    assert g[..i] == h[..i] && g[..j] == h[..j] && g[i] == h[i] && g[j] == h[j];
    assert SpanAt(g, SpanOfItem(item), p, q, i, j);
    assert Stream(g)[p..q] == Stream(h)[p..q];
    assert Located(g, item, p, q);
  }

  lemma KeptGrows(before: seq<LogEvent>, e: LogEvent, x: Entry<Record>)
    requires Kept(before, x)
    ensures Kept(before + [e], x)
  {
    hide Recorded, Fed;
    EventSnoc(before, e, KeyOfRecord(x.item));
    if e.key == KeyOfRecord(x.item) { RecordedGrows(Fed(before, e.key), AsEvent(e), ItemOfRecord(x.item)); }
  }

  /** A line held at its coordinates ends in one of the channel's records; an oversized one has its timestamp. */
  lemma KeptEnds(events: seq<LogEvent>, x: Entry<Record>)
    requires Kept(events, x) && x == EntryOf(x.item)
    ensures exists n: nat ::
              EndsIn(events, x, n) && (x.item.OversizedRecord? ==> x.item.descriptor.timestampUs == Some(events[n].timestampUs))
  {
    hide Stream, Newlines, Fed;
    var key, item := KeyOfRecord(x.item), ItemOfRecord(x.item);
    var h := Fed(events, key);
    var p: nat, q: nat :| Located(h, item, p, q);
    var i: nat, j: nat :| SpanAt(h, SpanOfItem(item), p, q, i, j)
                          && match item
                             case Whole(line) => line.raw == Stream(h)[p..q]
                             case Oversized(d) => d.totalBytes == q - p && d.timestampUs == h[j].timestampUs;
    var n := FedFrom(events, key, j);
    assert EndsIn(events, x, n);
  }

  // ----- Complete lines -----

  lemma EntriesAre(key: Key, timestampUs: int, lines: seq<UartLine>, partial: bool, k: nat)
    requires k < |lines|
    ensures var x := LineEntries(key, timestampUs, lines, partial)[k];
            x.item == LineRecord(key, timestampUs, lines[k], partial) && x == EntryOf(x.item)
  {
  }

  lemma NewlyComplete(before: seq<LogEvent>, e: LogEvent, k: nat)
    requires k < |Wholes(ItemsBy(Fed(before, e.key), e))|
    ensures var x := LineEntries(e.key, e.timestampUs, Wholes(ItemsBy(Fed(before, e.key), e)), false)[k];
            && x.item.LineRecord? && !x.item.partial && x.item.key == e.key && x.item.timestampUs == e.timestampUs
            && Kept(before + [e], x) && EndsIn(before + [e], x, |before|)
  {
    hide Fed, Recorded, Items, Wholes, Stream, OpenStart;
    var h := Fed(before, e.key);
    var lines := Wholes(ItemsBy(h, e));
    EntriesAre(e.key, e.timestampUs, lines, false, k);
    EventSnoc(before, e, e.key);
    OpensWithin(h, AsEvent(e));
    ItemsRecorded(h + [AsEvent(e)], OpenStart(Stream(h), 0));
    CompletedAscend(h, e);
    var bound: nat :| Ascending(lines, AsEvent(e), bound);
  }

  /** A complete line is not partial, stands at its coordinates in its channel's records, and has the
      timestamp of the record it ends in. */
  lemma {:induction false} CompleteLineMeans(events: seq<LogEvent>, k: nat)
    requires k < |CompleteLines(events)|
    ensures var x := CompleteLines(events)[k];
            && x.item.LineRecord? && !x.item.partial && Kept(events, x)
            && exists n: nat :: EndsIn(events, x, n) && x.item.timestampUs == events[n].timestampUs
  {
    hide Kept, ItemsBy, Wholes, Fed, LineEntries;
    var before, e := events[..|events| - 1], events[|events| - 1];
    assert events == before + [e];
    if k < |CompleteLines(before)| {
      CompleteLineMeans(before, k);
      var x := CompleteLines(before)[k];
      KeptGrows(before, e, x);
      var n: nat :| EndsIn(before, x, n) && x.item.timestampUs == before[n].timestampUs;
      assert EndsIn(events, x, n);
    } else {
      NewlyComplete(before, e, k - |CompleteLines(before)|);
      assert EndsIn(events, CompleteLines(events)[k], |before|);
    }
  }

  // ----- Oversized lines -----

  lemma NewlyOversized(before: seq<LogEvent>, e: LogEvent, k: nat)
    requires k < |Oversizeds(ItemsBy(Fed(before, e.key), e))|
    ensures var x := OversizedEntries(e.key, Oversizeds(ItemsBy(Fed(before, e.key), e)))[k];
            x.item.OversizedRecord? && x == EntryOf(x.item) && Kept(before + [e], x)
  {
    hide Fed, Recorded, Items, Oversizeds, Stream, OpenStart;
    var h := Fed(before, e.key);
    EntryIsItself(e.key, Oversizeds(ItemsBy(h, e)), k);
    EventSnoc(before, e, e.key);
    OpensWithin(h, AsEvent(e));
    ItemsRecorded(h + [AsEvent(e)], OpenStart(Stream(h), 0));
  }

  lemma {:induction false} OversizedKept(events: seq<LogEvent>, k: nat)
    requires k < |OversizedLines(events)|
    ensures var x := OversizedLines(events)[k]; x.item.OversizedRecord? && x == EntryOf(x.item) && Kept(events, x)
  {
    hide Kept, ItemsBy, Oversizeds, Fed, OversizedEntries;
    var before, e := events[..|events| - 1], events[|events| - 1];
    assert events == before + [e];
    if k < |OversizedLines(before)| {
      OversizedKept(before, k);
      KeptGrows(before, e, OversizedLines(before)[k]);
    } else {
      NewlyOversized(before, e, k - |OversizedLines(before)|);
    }
  }

  /** The same of an over-long line's descriptor. */
  lemma OversizedLineMeans(events: seq<LogEvent>, k: nat)
    requires k < |OversizedLines(events)|
    ensures var x := OversizedLines(events)[k];
            && x.item.OversizedRecord? && Kept(events, x)
            && exists n: nat :: EndsIn(events, x, n) && x.item.descriptor.timestampUs == Some(events[n].timestampUs)
  {
    hide Kept, OversizedLines;
    OversizedKept(events, k);
    KeptEnds(events, OversizedLines(events)[k]);
  }

  // ----- Open lines -----

  lemma {:induction false} LastOf(events: seq<LogEvent>, key: Key) returns (n: nat)
    requires Fed(events, key) != []
    ensures IsLastOf(events, key, n) && LastTimestamp(events, key) == events[n].timestampUs
  {
    n := |events| - 1;
    if events[n].key != key {
      n := LastOf(events[..n], key);
    }
  }

  lemma OpenKept(h: seq<Event>)
    ensures forall k :: 0 <= k < |Wholes(OpenItem(h))| ==> Recorded(h, Whole(Wholes(OpenItem(h))[k]))
    ensures forall k :: 0 <= k < |Oversizeds(OpenItem(h))| ==> Recorded(h, Oversized(Oversizeds(OpenItem(h))[k]))
  {
    hide Located, Stream, OpenStart, ItemOf;
    var p := OpenStart(Stream(h), 0);
    OpenItemViews(h);
    if p != |Stream(h)| {
      ItemOfLocated(h, p, |Stream(h)|, false);
    }
  }

  lemma SilentIsClosed()
    ensures Wholes(OpenItem([])) == [] && Oversizeds(OpenItem([])) == []
  {
  }

  /** A partial line says so, stands at its coordinates in its channel's records, and has the timestamp of
      the channel's last record. */
  lemma {:induction false} PartialLineMeans(events: seq<LogEvent>, keys: seq<Key>, k: nat)
    requires k < |PartialLines(events, keys)|
    ensures var x := PartialLines(events, keys)[k];
            && x.item.LineRecord? && x.item.partial && Kept(events, x) && (exists n: nat :: EndsIn(events, x, n))
            && exists n: nat :: IsLastOf(events, x.item.key, n) && x.item.timestampUs == events[n].timestampUs
  {
    hide OpenItem, Wholes, Fed, LineEntries, Recorded, LastTimestamp, EndsIn, IsLastOf;
    var n := |keys| - 1;
    var key, before := keys[n], PartialLines(events, keys[..n]);
    if k < |before| {
      PartialLineMeans(events, keys[..n], k);
    } else {
      var h := Fed(events, key);
      var lines, j := Wholes(OpenItem(h)), k - |before|;
      SilentIsClosed();
      OpenKept(h);
      EntriesAre(key, LastTimestamp(events, key), lines, true, j);
      KeptEnds(events, PartialLines(events, keys)[k]);
      var last := LastOf(events, key);
    }
  }

  lemma {:induction false} OversizedPartialMeans(events: seq<LogEvent>, keys: seq<Key>, k: nat)
    requires k < |OversizedPartials(events, keys)|
    ensures var x := OversizedPartials(events, keys)[k];
            && x.item.OversizedRecord? && Kept(events, x)
            && exists n: nat :: EndsIn(events, x, n) && x.item.descriptor.timestampUs == Some(events[n].timestampUs)
  {
    hide OpenItem, Oversizeds, Fed, OversizedEntries, Recorded, EndsIn;
    var n := |keys| - 1;
    var key, before := keys[n], OversizedPartials(events, keys[..n]);
    if k < |before| {
      OversizedPartialMeans(events, keys[..n], k);
    } else {
      var h := Fed(events, key);
      OpenKept(h);
      EntryIsItself(key, Oversizeds(OpenItem(h)), k - |before|);
      KeptEnds(events, OversizedPartials(events, keys)[k]);
    }
  }
}
