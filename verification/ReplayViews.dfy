/**
  The partial and oversized results of a replay, against the per-channel newline split.

  `LogReplay.ReplayRecords` says that each result holds the newest of its lines. Here the lines
  themselves are tied to the split of each channel's bytes, their coordinates are shown to be distinct,
  and so each result is fully determined: the end of the sorted lines.
*/
module ReplayViews {
  import opened Wrappers
  import opened Splitting
  import opened LineBuffer
  import opened MinHeap
  import opened LogReplay

  // ----- With distinct coordinates the newest are determined -----

  ghost predicate DistinctCoordinates<T>(s: seq<Entry<T>>) {
    forall i, j :: 0 <= i < j < |s| ==> Less(s[i], s[j]) || Less(s[j], s[i])
  }

  function Insert<T>(s: seq<Entry<T>>, e: Entry<T>): seq<Entry<T>> {
    if s == [] then [e]
    else if Less(s[|s| - 1], e) then s + [e]
    else Insert(s[..|s| - 1], e) + [s[|s| - 1]]
  }

  function SortEntries<T>(s: seq<Entry<T>>): seq<Entry<T>> {
    if s == [] then [] else Insert(SortEntries(s[..|s| - 1]), s[|s| - 1])
  }

  lemma {:induction false} InsertKeeps<T>(s: seq<Entry<T>>, e: Entry<T>)
    ensures multiset(Insert(s, e)) == multiset(s) + multiset{e} && |Insert(s, e)| == |s| + 1
  {
    if s != [] && !Less(s[|s| - 1], e) {
      var n := |s| - 1;
      InsertKeeps(s[..n], e);
      assert s == s[..n] + [s[n]];
    }
  }

  lemma {:induction false} SortKeeps<T>(s: seq<Entry<T>>)
    ensures multiset(SortEntries(s)) == multiset(s) && |SortEntries(s)| == |s|
  {
    if s != [] {
      var n := |s| - 1;
      SortKeeps(s[..n]);
      InsertKeeps(SortEntries(s[..n]), s[n]);
      assert s == s[..n] + [s[n]];
    }
  }

  lemma {:induction false} InsertSorts<T>(s: seq<Entry<T>>, e: Entry<T>)
    requires StrictlySorted(s) && forall x :: x in multiset(s) ==> Less(x, e) || Less(e, x)
    ensures StrictlySorted(Insert(s, e))
  {
    if s != [] {
      var n := |s| - 1;
      var last := s[n];
      assert last in multiset(s);
      if Less(last, e) {
        SortedSnocEntry(s, e);
      } else {
        FrontOf(s);
        InsertSorts(s[..n], e);
        InsertKeeps(s[..n], e);
        AllLess(Insert(s[..n], e), s[..n], e, last);
        SortedSnocEntry(Insert(s[..n], e), last);
      }
    }
  }

  lemma SortedSnocEntry<T>(s: seq<Entry<T>>, e: Entry<T>)
    requires StrictlySorted(s) && (s != [] ==> Less(s[|s| - 1], e))
    ensures StrictlySorted(s + [e])
  {
  }

  lemma FrontOf<T>(s: seq<Entry<T>>)
    requires s != [] && StrictlySorted(s)
    ensures StrictlySorted(s[..|s| - 1])
    ensures forall x :: x in multiset(s[..|s| - 1]) ==> x in multiset(s) && Less(x, s[|s| - 1])
  {
    var n := |s| - 1;
    forall x | x in multiset(s[..n])
      ensures x in multiset(s) && Less(x, s[n])
    {
      var k :| 0 <= k < n && s[..n][k] == x;
      assert s[k] == x;
    }
  }

  lemma AllLess<T>(front: seq<Entry<T>>, s: seq<Entry<T>>, e: Entry<T>, last: Entry<T>)
    requires multiset(front) == multiset(s) + multiset{e}
    requires Less(e, last) && forall x :: x in multiset(s) ==> Less(x, last)
    ensures front != [] ==> Less(front[|front| - 1], last)
  {
    if front != [] {
      assert front[|front| - 1] in multiset(front);
    }
  }

  lemma {:induction false} SortSorts<T>(s: seq<Entry<T>>)
    requires DistinctCoordinates(s)
    ensures StrictlySorted(SortEntries(s))
  {
    if s != [] {
      var n := |s| - 1;
      SortSorts(s[..n]);
      SortKeeps(s[..n]);
      forall x | x in multiset(SortEntries(s[..n]))
        ensures Less(x, s[n]) || Less(s[n], x)
      {
        assert x in multiset(s[..n]);
        var k :| 0 <= k < n && s[..n][k] == x;
      }
      InsertSorts(SortEntries(s[..n]), s[n]);
    }
  }

  /** The newest of entries with distinct coordinates are the end of the sorted entries. */
  lemma NewestAreDetermined<T(!new)>(all: seq<Entry<T>>, limit: nat, kept: seq<Entry<T>>, omitted: nat)
    requires DistinctCoordinates(all) && NewestOf(all, limit, kept, omitted)
    ensures omitted <= |all| && |SortEntries(all)| == |all| && kept == SortEntries(all)[omitted..]
  {
    SortKeeps(all);
    SortSorts(all);
    var dropped :| LogReplay.Newest(multiset(all), multiset(kept), dropped);
    hide Insert, SortEntries, Sorted, StrictlySorted, LogReplay.Newest, DistinctCoordinates;
    RefinesSortAndTake(SortEntries(all), kept, dropped);
  }

  // ----- Line ends have rising coordinates -----

  lemma {:induction false} NewlinesRise(d: seq<byte>, from: nat, to: nat)
    requires from < to <= |d| && d[from] == NEWLINE
    ensures Newlines(d[..from]) < Newlines(d[..to])
  {
    assert d[..to][..to - 1] == d[..to - 1];
    if from < to - 1 {
      NewlinesRise(d, from, to - 1);
    }
  }

  /** A later end is in a later event, or further on in the same one. */
  lemma {:induction false} CoordinatesRise(h: seq<Event>, q: nat, r: nat)
    requires 0 < q < r <= |Stream(h)| && Stream(h)[q - 1] == NEWLINE
    ensures EndAt(h, q).0 < EndAt(h, r).0 || (EndAt(h, q).0 == EndAt(h, r).0 && LineNumber(h, q) < LineNumber(h, r))
    decreases |h|
  {
    var n := |h| - 1;
    var before := |Stream(h[..n])|;
    assert Stream(h) == Stream(h[..n]) + h[n].data;
    if r <= before {
      CoordinatesRise(h[..n], q, r);
    } else if q > before {
      NewlinesRise(h[n].data, q - before - 1, r - before - 1);
    }
  }

  // ----- Where replayed lines come from -----

  /** The channel's buffer event `i` is one of the records. */
  lemma {:induction false} FedFrom(events: seq<LogEvent>, key: Key, i: nat) returns (k: nat)
    requires i < |Fed(events, key)|
    ensures k < |events| && events[k].key == key && Fed(events, key)[i] == AsEvent(events[k])
  {
    var n := |events| - 1;
    if i < |Fed(events[..n], key)| {
      k := FedFrom(events[..n], key, i);
    } else {
      k := n;
    }
  }

  lemma {:induction false} FedIncreases(events: seq<LogEvent>, key: Key, i: nat, j: nat)
    requires Increasing(events) && i < j < |Fed(events, key)|
    ensures Fed(events, key)[i].ingestionIndex.Some? && Fed(events, key)[j].ingestionIndex.Some?
    ensures Fed(events, key)[i].ingestionIndex.value < Fed(events, key)[j].ingestionIndex.value
  {
    var n := |events| - 1;
    if j < |Fed(events[..n], key)| {
      FedIncreases(events[..n], key, i, j);
    } else {
      var k := FedFrom(events[..n], key, i);
    }
  }

  /** The coordinates of the line that ends at byte `q` of a channel. */
  ghost predicate EndsAt(events: seq<LogEvent>, key: Key, q: nat, x: Entry<Record>) {
    var h := Fed(events, key);
    && 0 < q <= |Stream(h)|
    && x.major == Coordinate(h[EndAt(h, q).0].ingestionIndex) && x.minor == LineNumber(h, q)
  }

  /** In one channel an earlier line end has smaller coordinates. */
  lemma EarlierIsLess(events: seq<LogEvent>, key: Key, q: nat, r: nat, x: Entry<Record>, y: Entry<Record>)
    requires Increasing(events) && EndsAt(events, key, q, x) && EndsAt(events, key, r, y)
    requires q < r && Stream(Fed(events, key))[q - 1] == NEWLINE
    ensures Less(x, y)
  {
    var h := Fed(events, key);
    CoordinatesRise(h, q, r);
    if EndAt(h, q).0 < EndAt(h, r).0 {
      FedIncreases(events, key, EndAt(h, q).0, EndAt(h, r).0);
    }
  }

  /** Lines of different channels end in different records. */
  lemma ChannelsDiffer(events: seq<LogEvent>, key: Key, other: Key, q: nat, r: nat, x: Entry<Record>, y: Entry<Record>)
    requires Increasing(events) && key != other && EndsAt(events, key, q, x) && EndsAt(events, other, r, y)
    ensures Less(x, y) || Less(y, x)
  {
    var i := FedFrom(events, key, EndAt(Fed(events, key), q).0);
    var j := FedFrom(events, other, EndAt(Fed(events, other), r).0);
    assert i < j || j < i;
  }

  // ----- Finished lines that are over the limit -----

  /** A finished over-long line of the channel. */
  ghost predicate FinishedAt(h: seq<Event>, p: nat, q: nat, d: OversizedUartLine) {
    && p < q <= |Stream(h)| && Stream(h)[q - 1] == NEWLINE && Oversized(d) == ItemOf(h, p, q, true)
  }

  ghost predicate Finished(h: seq<Event>, d: OversizedUartLine) {
    exists p, q :: FinishedAt(h, p, q, d)
  }

  lemma {:induction false} ItemsFinished(h: seq<Event>, p: nat, k: nat)
    requires p <= |Stream(h)| && k < |Items(h, p)| && Items(h, p)[k].Oversized?
    ensures Finished(h, Items(h, p)[k].descriptor)
    decreases |Stream(h)| - p
  {
    var i := FindNewline(Stream(h), p).value;
    FindNewlineIsFirst(Stream(h), p);
    if k == 0 {
      assert FinishedAt(h, p, i + 1, Items(h, p)[0].descriptor);
    } else {
      ItemsFinished(h, i + 1, k - 1);
    }
  }

  lemma {:induction false} OversizedFrom(items: seq<Item>, k: nat) returns (i: nat)
    requires k < |Oversizeds(items)|
    ensures i < |items| && items[i] == Oversized(Oversizeds(items)[k])
  {
    var n := |items| - 1;
    if k < |Oversizeds(items[..n])| {
      i := OversizedFrom(items[..n], k);
    } else {
      i := n;
    }
  }

  lemma FinishedStays(h: seq<Event>, e: Event, d: OversizedUartLine)
    requires Finished(h, d)
    ensures Finished(h + [e], d)
  {
    var p, q :| FinishedAt(h, p, q, d);
    ItemStable(h, e, p, q, true);
    StreamSnoc(h, e);
    assert FinishedAt(h + [e], p, q, d);
  }

  ghost predicate FinishedEntry(events: seq<LogEvent>, x: Entry<Record>) {
    x.item.OversizedRecord? && x == EntryOf(x.item) && Finished(Fed(events, x.item.key), x.item.descriptor)
  }

  lemma EntryStays(before: seq<LogEvent>, e: LogEvent, x: Entry<Record>)
    requires FinishedEntry(before, x)
    ensures FinishedEntry(before + [e], x)
  {
    hide Finished, Fed, EntryOf;
    EventSnoc(before, e, x.item.key);
    if e.key == x.item.key { FinishedStays(Fed(before, e.key), AsEvent(e), x.item.descriptor); }
  }

  lemma EntryEnters(before: seq<LogEvent>, e: LogEvent, j: nat)
    requires j < |Oversizeds(ItemsBy(Fed(before, e.key), e))|
    ensures FinishedEntry(before + [e], OversizedEntries(e.key, Oversizeds(ItemsBy(Fed(before, e.key), e)))[j])
  {
    hide Finished, Fed, EntryOf, ItemsBy, Oversizeds, OversizedEntries;
    EventSnoc(before, e, e.key);
    NewlyFinished(Fed(before, e.key), e, j);
    EntryIsItself(e.key, Oversizeds(ItemsBy(Fed(before, e.key), e)), j);
  }

  /** Every descriptor among the oversized lines is of a finished line of its channel. */
  lemma {:induction false} OversizedLinesFinished(events: seq<LogEvent>, k: nat)
    requires k < |OversizedLines(events)|
    ensures FinishedEntry(events, OversizedLines(events)[k])
  {
    hide FinishedEntry, Fed, ItemsBy, Oversizeds, OversizedEntries;
    var before, e := events[..|events| - 1], events[|events| - 1];
    assert events == before + [e];
    var more := OversizedEntries(e.key, Oversizeds(ItemsBy(Fed(before, e.key), e)));
    assert OversizedLines(events) == OversizedLines(before) + more;
    if k < |OversizedLines(before)| {
      OversizedLinesFinished(before, k);
      EntryStays(before, e, OversizedLines(before)[k]);
    } else {
      EntryEnters(before, e, k - |OversizedLines(before)|);
    }
  }

  lemma EntryIsItself(key: Key, descriptors: seq<OversizedUartLine>, j: nat)
    requires j < |descriptors|
    ensures var x := OversizedEntries(key, descriptors)[j];
            x.item == OversizedRecord(key, descriptors[j]) && x == EntryOf(x.item)
  {
  }

  lemma NewlyFinished(h: seq<Event>, e: LogEvent, j: nat)
    requires j < |Oversizeds(ItemsBy(h, e))|
    ensures Finished(h + [AsEvent(e)], Oversizeds(ItemsBy(h, e))[j])
  {
    hide Finished, Items, Oversizeds;
    OpensWithin(h, AsEvent(e));
    var i := OversizedFrom(ItemsBy(h, e), j);
    ItemsFinished(h + [AsEvent(e)], OpenStart(Stream(h), 0), i);
  }

  lemma FinishedEnds(events: seq<LogEvent>, x: Entry<Record>) returns (q: nat)
    requires FinishedEntry(events, x)
    ensures EndsAt(events, x.item.key, q, x) && Stream(Fed(events, x.item.key))[q - 1] == NEWLINE
    ensures x.item.descriptor.terminated
  {
    hide Stream, EndAt, StartAt, LineNumber, Fed;
    var p, r :| FinishedAt(Fed(events, x.item.key), p, r, x.item.descriptor);
    q := r;
  }

  // ----- Their order -----

  ghost predicate AscendingDescriptors(ds: seq<OversizedUartLine>, e: Event, bound: nat) {
    && (forall k :: 0 <= k < |ds| ==>
          ds[k].span.endIngestionIndex == e.ingestionIndex && ds[k].span.lineIndexInEvent.Some?
          && ds[k].span.lineIndexInEvent.value < bound)
    && forall i, j :: 0 <= i < j < |ds| ==> ds[i].span.lineIndexInEvent.value < ds[j].span.lineIndexInEvent.value
  }

  lemma {:induction false} OversizedsAscend(items: seq<Item>, e: Event, first: nat)
    requires NumberedFrom(items, e, first)
    ensures AscendingDescriptors(Oversizeds(items), e, first + |items|)
  {
    if items != [] {
      var n := |items| - 1;
      assert forall k :: 0 <= k < n ==> items[..n][k] == items[k];
      OversizedsAscend(items[..n], e, first);
    }
  }

  lemma NewDescriptorsAscend(h: seq<Event>, e: LogEvent)
    ensures exists bound: nat :: AscendingDescriptors(Oversizeds(ItemsBy(h, e)), AsEvent(e), bound)
  {
    var event, p := AsEvent(e), OpenStart(Stream(h), 0);
    FirstItem(h, event, p);
    ItemsNumbered(h, event, p, 0);
    OversizedsAscend(Items(h + [event], p), event, Newlines(event.data[..0]));
    assert AscendingDescriptors(Oversizeds(ItemsBy(h, e)), event, Newlines(event.data[..0]) + |Items(h + [event], p)|);
  }

  lemma DescriptorEntriesAscend(e: LogEvent, ds: seq<OversizedUartLine>, bound: nat)
    requires AscendingDescriptors(ds, AsEvent(e), bound)
    ensures StrictlySorted(OversizedEntries(e.key, ds))
    ensures forall k :: 0 <= k < |ds| ==> OversizedEntries(e.key, ds)[k].major == e.ingestionIndex
  {
  }

  ghost predicate AllBefore(events: seq<LogEvent>, major: int) {
    forall i :: 0 <= i < |events| ==> events[i].ingestionIndex < major
  }

  /** Replay meets finished over-long lines in strictly increasing coordinate order, too. */
  lemma {:induction false} OversizedLinesSorted(events: seq<LogEvent>, major: int)
    requires Increasing(events) && AllBefore(events, major)
    ensures StrictlySorted(OversizedLines(events)) && Below(OversizedLines(events), major)
  {
    hide *;
    if events == [] {
      NoOversized(major);
    } else {
      var before, e := events[..|events| - 1], events[|events| - 1];
      assert events == before + [e];
      IncreasingPrefix(before, e);
      BeforeLast(before, e, major);
      OversizedLinesSorted(before, e.ingestionIndex);
      EventSnoc(before, e, e.key);
      var ds := Oversizeds(ItemsBy(Fed(before, e.key), e));
      NewDescriptorsAscend(Fed(before, e.key), e);
      var bound: nat :| AscendingDescriptors(ds, AsEvent(e), bound);
      DescriptorEntriesAscend(e, ds, bound);
      SortedAppend(OversizedLines(before), OversizedEntries(e.key, ds), e.ingestionIndex);
      BelowMore(OversizedLines(events), e.ingestionIndex + 1, major);
    }
  }

  lemma NoOversized(major: int)
    ensures StrictlySorted(OversizedLines([])) && Below(OversizedLines([]), major)
  {
  }

  lemma BeforeLast(before: seq<LogEvent>, e: LogEvent, major: int)
    requires Increasing(before + [e]) && AllBefore(before + [e], major)
    ensures AllBefore(before, e.ingestionIndex) && e.ingestionIndex < major
  {
    IncreasingPrefix(before, e);
    assert (before + [e])[|before|] == e;
  }

  // ----- Open lines at the end -----

  function KeyOfRecord(r: Record): Key {
    match r case LineRecord(key, _, _, _) => key case OversizedRecord(key, _) => key
  }

  /** The entry is the open line of one of the channels. */
  ghost predicate OpenEntry(events: seq<LogEvent>, x: Entry<Record>) {
    var key := KeyOfRecord(x.item);
    EndsAt(events, key, |Stream(Fed(events, key))|, x) && Rest(Stream(Fed(events, key))) != []
  }

  lemma OpenItemEnds(events: seq<LogEvent>, key: Key, x: Entry<Record>)
    requires KeyOfRecord(x.item) == key && x == EntryOf(x.item)
    requires match x.item
             case LineRecord(_, _, line, _) => Wholes(OpenItem(Fed(events, key))) == [line]
             case OversizedRecord(_, d) => Oversizeds(OpenItem(Fed(events, key))) == [d]
    ensures OpenEntry(events, x)
  {
    var h := Fed(events, key);
    OpenItemViews(h);
    hide Stream, EndAt, StartAt, LineNumber, Fed, Wholes, Oversizeds, OpenItem, OpenStart, FindNewline;
    RestIsOpen(Stream(h));
  }

  lemma RestIsOpen(s: seq<byte>)
    ensures OpenStart(s, 0) <= |s| && Rest(s) == s[OpenStart(s, 0)..]
  {
  }

  lemma AtMostOneOpen(h: seq<Event>)
    ensures |Wholes(OpenItem(h))| + |Oversizeds(OpenItem(h))| == if Rest(Stream(h)) == [] then 0 else 1
  {
    OpenItemViews(h);
    RestIsOpen(Stream(h));
    hide Stream, Wholes, Oversizeds, OpenItem, OpenStart;
  }

  /** Partial lines: one per channel at most, from among `keys`. */
  lemma {:induction false} PartialsOpen(events: seq<LogEvent>, keys: seq<Key>, k: nat)
    requires k < |PartialLines(events, keys)|
    ensures var x := PartialLines(events, keys)[k]; x.item.LineRecord? && KeyOfRecord(x.item) in keys && OpenEntry(events, x)
  {
    hide OpenEntry, EntryOf, OpenItem, Wholes, Oversizeds, Fed;
    var n := |keys| - 1;
    var before := PartialLines(events, keys[..n]);
    var x := PartialLines(events, keys)[k];
    if k < |before| {
      PartialsOpen(events, keys[..n], k);
    } else {
      var lines := Wholes(OpenItem(Fed(events, keys[n])));
      AtMostOneOpen(Fed(events, keys[n]));
      assert lines == [lines[0]] && k == |before|;
      assert x == EntryOf(LineRecord(keys[n], LastTimestamp(events, keys[n]), lines[0], true));
      ItemOfEntry(LineRecord(keys[n], LastTimestamp(events, keys[n]), lines[0], true));
      OpenItemEnds(events, keys[n], x);
    }
  }

  lemma ItemOfEntry(r: Record)
    ensures EntryOf(r).item == r
  {
  }

  lemma {:induction false} OversizedPartialsOpen(events: seq<LogEvent>, keys: seq<Key>, k: nat)
    requires k < |OversizedPartials(events, keys)|
    ensures var x := OversizedPartials(events, keys)[k]; x.item.OversizedRecord? && KeyOfRecord(x.item) in keys && OpenEntry(events, x)
  {
    hide OpenEntry, EntryOf, OpenItem, Wholes, Oversizeds, Fed;
    var n := |keys| - 1;
    var before := OversizedPartials(events, keys[..n]);
    var x := OversizedPartials(events, keys)[k];
    if k < |before| {
      OversizedPartialsOpen(events, keys[..n], k);
    } else {
      var ds := Oversizeds(OpenItem(Fed(events, keys[n])));
      AtMostOneOpen(Fed(events, keys[n]));
      assert ds == [ds[0]] && k == |before|;
      assert x == EntryOf(OversizedRecord(keys[n], ds[0]));
      ItemOfEntry(OversizedRecord(keys[n], ds[0]));
      OpenItemEnds(events, keys[n], x);
    }
  }

  lemma OpensDiffer(events: seq<LogEvent>, x: Entry<Record>, y: Entry<Record>)
    requires Increasing(events) && OpenEntry(events, x) && OpenEntry(events, y) && KeyOfRecord(x.item) != KeyOfRecord(y.item)
    ensures Less(x, y) || Less(y, x)
  {
    hide EndsAt;
    var a, b := KeyOfRecord(x.item), KeyOfRecord(y.item);
    ChannelsDiffer(events, a, b, |Stream(Fed(events, a))|, |Stream(Fed(events, b))|, x, y);
  }

  lemma {:induction false} PartialsDistinctIn(events: seq<LogEvent>, keys: seq<Key>)
    requires Increasing(events) && Distinct(keys)
    ensures DistinctCoordinates(PartialLines(events, keys))
  {
    hide OpenEntry, EntryOf, OpenItem, Wholes, Fed;
    if keys != [] {
      var n := |keys| - 1;
      var before, all := PartialLines(events, keys[..n]), PartialLines(events, keys);
      PartialsDistinctIn(events, keys[..n]);
      AtMostOneOpen(Fed(events, keys[n]));
      forall i, j | 0 <= i < j < |all|
        ensures Less(all[i], all[j]) || Less(all[j], all[i])
      {
        if j < |before| {
          assert before[i] == all[i] && before[j] == all[j];
        } else {
          PartialsOpen(events, keys[..n], i);
          PartialsOpen(events, keys, j);
          ItemOfEntry(LineRecord(keys[n], LastTimestamp(events, keys[n]), Wholes(OpenItem(Fed(events, keys[n])))[0], true));
          assert before[i] == all[i];
          OpensDiffer(events, all[i], all[j]);
        }
      }
    }
  }

  /** Partial lines have distinct coordinates. */
  lemma PartialsDistinct(events: seq<LogEvent>)
    requires Increasing(events)
    ensures DistinctCoordinates(PartialLines(events, KeysOf(events)))
  {
    KeysDistinct(events);
    PartialsDistinctIn(events, KeysOf(events));
  }

  lemma {:induction false} OversizedPartialsDistinctIn(events: seq<LogEvent>, keys: seq<Key>)
    requires Increasing(events) && Distinct(keys)
    ensures DistinctCoordinates(OversizedPartials(events, keys))
  {
    hide OpenEntry, EntryOf, OpenItem, Oversizeds, Fed;
    if keys != [] {
      var n := |keys| - 1;
      var before, all := OversizedPartials(events, keys[..n]), OversizedPartials(events, keys);
      OversizedPartialsDistinctIn(events, keys[..n]);
      AtMostOneOpen(Fed(events, keys[n]));
      forall i, j | 0 <= i < j < |all|
        ensures Less(all[i], all[j]) || Less(all[j], all[i])
      {
        if j < |before| {
          assert before[i] == all[i] && before[j] == all[j];
        } else {
          OversizedPartialsOpen(events, keys[..n], i);
          OversizedPartialsOpen(events, keys, j);
          ItemOfEntry(OversizedRecord(keys[n], Oversizeds(OpenItem(Fed(events, keys[n])))[0]));
          assert before[i] == all[i];
          OpensDiffer(events, all[i], all[j]);
        }
      }
    }
  }

  /** A finished line is told apart from every open one. */
  lemma FinishedDiffersFromOpen(events: seq<LogEvent>, x: Entry<Record>, y: Entry<Record>)
    requires Increasing(events) && FinishedEntry(events, x) && OpenEntry(events, y)
    ensures Less(x, y) || Less(y, x)
  {
    hide EndsAt, Finished, EntryOf;
    var q := FinishedEnds(events, x);
    var a, b := x.item.key, KeyOfRecord(y.item);
    var n := |Stream(Fed(events, b))|;
    if a == b {
      EndsWithin(events, a, q, x);
      OpenEndUnbroken(Stream(Fed(events, b)));
      EarlierIsLess(events, a, q, n, x, y);
    } else {
      ChannelsDiffer(events, a, b, q, n, x, y);
    }
  }

  lemma EndsWithin(events: seq<LogEvent>, key: Key, q: nat, x: Entry<Record>)
    requires EndsAt(events, key, q, x)
    ensures 0 < q <= |Stream(Fed(events, key))|
  {
  }

  lemma OpenEndUnbroken(s: seq<byte>)
    requires Rest(s) != []
    ensures |s| > 0 && s[|s| - 1] != NEWLINE
  {
    SplitSound(s);
    RestIsOpen(s);
    assert Rest(s)[|Rest(s)| - 1] == s[|s| - 1];
  }

  /** Finished and open over-long lines together have distinct coordinates. */
  lemma OversizedDistinct(events: seq<LogEvent>)
    requires Increasing(events)
    ensures DistinctCoordinates(OversizedLines(events) + OversizedPartials(events, KeysOf(events)))
  {
    hide FinishedEntry, OpenEntry, OversizedLines, OversizedPartials, KeysOf, Increasing;
    var a, b := OversizedLines(events), OversizedPartials(events, KeysOf(events));
    SomeBound(events);
    var major :| AllBefore(events, major);
    OversizedLinesSorted(events, major);
    KeysDistinct(events);
    OversizedPartialsDistinctIn(events, KeysOf(events));
    forall i, j | 0 <= i < j < |a + b|
      ensures Less((a + b)[i], (a + b)[j]) || Less((a + b)[j], (a + b)[i])
    {
      if i < |a| <= j {
        OversizedLinesFinished(events, i);
        OversizedPartialsOpen(events, KeysOf(events), j - |a|);
        FinishedDiffersFromOpen(events, a[i], b[j - |a|]);
      }
    }
  }

  lemma {:induction false} SomeBound(events: seq<LogEvent>)
    ensures exists major :: AllBefore(events, major)
  {
    if events == [] {
      assert AllBefore(events, 0);
    } else {
      var n := |events| - 1;
      SomeBound(events[..n]);
      var m :| AllBefore(events[..n], m);
      var major := if m > events[n].ingestionIndex then m else events[n].ingestionIndex + 1;
      assert forall i :: 0 <= i < n ==> events[i] == events[..n][i];
      assert AllBefore(events, major);
    }
  }

  /** Replay's partial result: the last of the sorted open lines. */
  lemma NewestPartials(events: seq<LogEvent>, limit: nat, kept: seq<Entry<Record>>, omitted: nat)
    requires Increasing(events) && NewestOf(PartialLines(events, KeysOf(events)), limit, kept, omitted)
    ensures var all := PartialLines(events, KeysOf(events));
            omitted <= |all| == |SortEntries(all)| && kept == SortEntries(all)[omitted..]
  {
    PartialsDistinct(events);
    NewestAreDetermined(PartialLines(events, KeysOf(events)), limit, kept, omitted);
  }

  /** Replay's oversized result: the last of the sorted over-long lines, finished and open. */
  lemma NewestOversized(events: seq<LogEvent>, limit: nat, kept: seq<Entry<Record>>, omitted: nat)
    requires Increasing(events) && NewestOf(OversizedLines(events) + OversizedPartials(events, KeysOf(events)), limit, kept, omitted)
    ensures var all := OversizedLines(events) + OversizedPartials(events, KeysOf(events));
            omitted <= |all| == |SortEntries(all)| && kept == SortEntries(all)[omitted..]
  {
    OversizedDistinct(events);
    NewestAreDetermined(OversizedLines(events) + OversizedPartials(events, KeysOf(events)), limit, kept, omitted);
  }

  /** For records in ingestion order, everything `ReplayRecords` returns is determined: the complete lines
      are the last in the order replay met them, the others the last once sorted. */
  lemma ReplayIsDetermined(events: seq<LogEvent>, limit: nat, r: Replay)
    requires Increasing(events)
    requires NewestOf(CompleteLines(events), limit, r.complete, r.omittedComplete)
    requires NewestOf(PartialLines(events, KeysOf(events)), limit, r.partials, r.omittedPartials)
    requires NewestOf(OversizedLines(events) + OversizedPartials(events, KeysOf(events)), limit, r.oversized, r.omittedOversized)
    ensures var partials, oversized := PartialLines(events, KeysOf(events)), OversizedLines(events) + OversizedPartials(events, KeysOf(events));
            && r.omittedComplete <= |CompleteLines(events)| && r.complete == CompleteLines(events)[r.omittedComplete..]
            && r.omittedPartials <= |SortEntries(partials)| && r.partials == SortEntries(partials)[r.omittedPartials..]
            && r.omittedOversized <= |SortEntries(oversized)| && r.oversized == SortEntries(oversized)[r.omittedOversized..]
  {
    hide *;
    NewestAreLast(events, limit, r.complete, r.omittedComplete);
    NewestPartials(events, limit, r.partials, r.omittedPartials);
    NewestOversized(events, limit, r.oversized, r.omittedOversized);
  }

  // ----- What they say of each channel -----

  /** The channel's open line, if it is short enough. */
  ghost function ShortRest(s: seq<byte>): seq<seq<byte>> {
    if Rest(s) == [] || |Rest(s)| > MAX_UART_LINE_BYTES then [] else [Rest(s)]
  }

  /** How many bytes each over-long line has. */
  ghost function LongSizes(lines: seq<seq<byte>>): seq<nat> {
    if lines == [] then []
    else
      var line := lines[|lines| - 1];
      LongSizes(lines[..|lines| - 1]) + if |line| > MAX_UART_LINE_BYTES then [|line|] else []
  }

  /** The over-long lines of one channel among replay entries: size, and whether it is finished. */
  ghost function SizesOf(entries: seq<Entry<Record>>, key: Key, terminated: bool): seq<nat> {
    if entries == [] then []
    else
      var r := entries[|entries| - 1].item;
      SizesOf(entries[..|entries| - 1], key, terminated)
      + if r.OversizedRecord? && r.key == key && r.descriptor.terminated == terminated then [r.descriptor.totalBytes] else []
  }

  ghost function Sizes(ds: seq<OversizedUartLine>, terminated: bool): seq<nat> {
    if ds == [] then []
    else
      var d := ds[|ds| - 1];
      Sizes(ds[..|ds| - 1], terminated) + if d.terminated == terminated then [d.totalBytes] else []
  }

  lemma {:induction false} SizesOfMore(entries: seq<Entry<Record>>, other: Key, ds: seq<OversizedUartLine>, key: Key, terminated: bool)
    ensures SizesOf(entries + OversizedEntries(other, ds), key, terminated) ==
            SizesOf(entries, key, terminated) + if other == key then Sizes(ds, terminated) else []
  {
    var more := OversizedEntries(other, ds);
    if ds == [] {
      assert entries + more == entries;
    } else {
      var n := |ds| - 1;
      assert (entries + more)[..|entries| + n] == entries + OversizedEntries(other, ds[..n]);
      SizesOfMore(entries, other, ds[..n], key, terminated);
    }
  }

  lemma {:induction false} SizesAppend(a: seq<OversizedUartLine>, b: seq<OversizedUartLine>, terminated: bool)
    ensures Sizes(a + b, terminated) == Sizes(a, terminated) + Sizes(b, terminated)
  {
    if b == [] {
      assert a + b == a;
    } else {
      var n := |b| - 1;
      assert (a + b)[..|a| + n] == a + b[..n];
      SizesAppend(a, b[..n], terminated);
    }
  }

  lemma {:induction false} OversizedsAreLong(items: seq<Item>, lines: seq<seq<byte>>)
    requires AllReported(items, lines)
    ensures Sizes(Oversizeds(items), true) == LongSizes(lines) && Sizes(Oversizeds(items), false) == []
  {
    if items != [] {
      var n := |items| - 1;
      OversizedsAreLong(items[..n], lines[..n]);
      assert Reports(items[n], lines[n]);
      SizesAppend(Oversizeds(items[..n]), OversizedOf(items[n]), true);
      SizesAppend(Oversizeds(items[..n]), OversizedOf(items[n]), false);
      OneSize(items[n]);
    }
  }

  lemma OneSize(item: Item)
    requires item.Oversized? ==> item.descriptor.terminated
    ensures Sizes(OversizedOf(item), true) == if item.Oversized? then [item.descriptor.totalBytes] else []
    ensures Sizes(OversizedOf(item), false) == []
  {
    if item.Oversized? {
      var ds := [item.descriptor];
      assert ds[..0] == [];
    }
  }

  lemma {:induction false} OversizedLinesOfKey(events: seq<LogEvent>, key: Key, terminated: bool)
    ensures SizesOf(OversizedLines(events), key, terminated) == Sizes(Oversizeds(Items(Fed(events, key), 0)), terminated)
  {
    hide *;
    if events == [] {
      NothingOversized(key, terminated);
    } else {
      var before, e := events[..|events| - 1], events[|events| - 1];
      assert events == before + [e];
      OversizedLinesOfKey(before, key, terminated);
      EventSnoc(before, e, key);
      var h := Fed(before, e.key);
      var ds := Oversizeds(ItemsBy(h, e));
      SizesOfMore(OversizedLines(before), e.key, ds, key, terminated);
      if e.key == key {
        ItemsByExtend(h, e);
        OversizedsAppend(Items(h, 0), ItemsBy(h, e));
        SizesAppend(Oversizeds(Items(h, 0)), ds, terminated);
      } else {
        NothingAdded(SizesOf(OversizedLines(before), key, terminated));
      }
    }
  }

  lemma NothingOversized(key: Key, terminated: bool)
    ensures SizesOf(OversizedLines([]), key, terminated) == Sizes(Oversizeds(Items(Fed([], key), 0)), terminated)
  {
  }

  /** Per channel, the finished over-long lines are those of the split, in order, with their sizes. */
  lemma OversizedLinesAreSplit(events: seq<LogEvent>, key: Key)
    ensures SizesOf(OversizedLines(events), key, true) == LongSizes(Lines(Stream(Fed(events, key))))
    ensures SizesOf(OversizedLines(events), key, false) == []
  {
    hide SizesOf, OversizedLines, Stream, Fed, Sizes, Oversizeds, LongSizes, AllReported;
    var h := Fed(events, key);
    OversizedLinesOfKey(events, key, true);
    OversizedLinesOfKey(events, key, false);
    ItemsAreSplit(h, 0);
    OversizedsAreLong(Items(h, 0), Lines(Stream(h)));
  }

  lemma {:induction false} RawsOfMore(entries: seq<Entry<Record>>, other: Key, timestampUs: int, lines: seq<UartLine>, key: Key)
    ensures RawsOf(entries + LineEntries(other, timestampUs, lines, true), key) == RawsOf(entries, key) + if other == key then Raws(lines) else []
  {
    var more := LineEntries(other, timestampUs, lines, true);
    if lines == [] {
      assert entries + more == entries;
    } else {
      var n := |lines| - 1;
      assert (entries + more)[..|entries| + n] == entries + LineEntries(other, timestampUs, lines[..n], true);
      RawsOfMore(entries, other, timestampUs, lines[..n], key);
      assert Raws(lines) == Raws(lines[..n]) + [lines[n].raw];
    }
  }

  lemma {:induction false} PartialsOfKey(events: seq<LogEvent>, keys: seq<Key>, key: Key)
    requires Distinct(keys)
    ensures RawsOf(PartialLines(events, keys), key) == if key in keys then Raws(Wholes(OpenItem(Fed(events, key)))) else []
    ensures SizesOf(OversizedPartials(events, keys), key, false) ==
            if key in keys then Sizes(Oversizeds(OpenItem(Fed(events, key))), false) else []
  {
    hide OpenItem, Wholes, Oversizeds, Fed, Raws, Sizes, LineEntries, OversizedEntries;
    if keys != [] {
      var n := |keys| - 1;
      var last := keys[n];
      PartialsOfKey(events, keys[..n], key);
      RawsOfMore(PartialLines(events, keys[..n]), last, LastTimestamp(events, last), Wholes(OpenItem(Fed(events, last))), key);
      SizesOfMore(OversizedPartials(events, keys[..n]), last, Oversizeds(OpenItem(Fed(events, last))), key, false);
      assert key in keys <==> key == last || key in keys[..n];
      assert key == last ==> key !in keys[..n];
    }
  }

  lemma {:induction false} UnknownIsSilent(events: seq<LogEvent>, key: Key)
    ensures key !in KeysOf(events) ==> Fed(events, key) == []
  {
    if events != [] {
      UnknownIsSilent(events[..|events| - 1], key);
    }
  }

  lemma OpenOfKey(h: seq<Event>)
    ensures Raws(Wholes(OpenItem(h))) == ShortRest(Stream(h))
    ensures Sizes(Oversizeds(OpenItem(h)), false) ==
            if |Rest(Stream(h))| > MAX_UART_LINE_BYTES then [|Rest(Stream(h))|] else []
  {
    OpenItemViews(h);
    RestIsOpen(Stream(h));
    hide Stream, Wholes, Oversizeds, OpenItem, OpenStart, StartAt, EndAt, LineNumber;
    var p := OpenStart(Stream(h), 0);
    if p < |Stream(h)| {
      var item := ItemOf(h, p, |Stream(h)|, false);
      OneOpenSize(item);
      assert Stream(h)[p..|Stream(h)|] == Stream(h)[p..];
      if item.Whole? { assert Raws(WholeOf(item)) == [item.line.raw]; }
    }
  }

  lemma OneOpenSize(item: Item)
    requires item.Oversized? ==> !item.descriptor.terminated
    ensures Sizes(OversizedOf(item), false) == if item.Oversized? then [item.descriptor.totalBytes] else []
  {
    if item.Oversized? {
      var ds := [item.descriptor];
      assert ds[..0] == [];
    }
  }

  /** Per channel, the partial line is the unterminated rest of the split, and an over-long rest is
      reported once, by its size. */
  lemma PartialsAreRests(events: seq<LogEvent>, key: Key)
    ensures var s := Stream(Fed(events, key));
            && RawsOf(PartialLines(events, KeysOf(events)), key) == ShortRest(s)
            && SizesOf(OversizedPartials(events, KeysOf(events)), key, false) ==
               if |Rest(s)| > MAX_UART_LINE_BYTES then [|Rest(s)|] else []
  {
    KeysDistinct(events);
    PartialsOfKey(events, KeysOf(events), key);
    OpenOfKey(Fed(events, key));
    UnknownIsSilent(events, key);
    hide RawsOf, SizesOf, PartialLines, OversizedPartials, KeysOf, Fed, OpenItem, Wholes, Oversizeds, Raws, Sizes;
    if key !in KeysOf(events) { SilentRest(); }
  }

  lemma SilentRest()
    ensures Rest(Stream([])) == []
  {
  }
}
