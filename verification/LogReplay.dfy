/**
  Recent-log replay: the newest bounded lines of a stored session, rebuilt from its UART records.

  `BoundedNewest` keeps at most `limit` entries in a min-heap and is proved to hold exactly the greatest
  of everything added; the replay feeds every channel's line buffer, flushes the open lines at the end,
  and returns the newest of the lines of the per-channel newline split.
*/
module LogReplay {
  import opened Wrappers
  import opened Splitting
  import opened LineBuffer
  import opened MinHeap

  // ----- Bounded newest -----

  /** In coordinate order, each entry strictly after the one before or equal to it. */
  ghost predicate Sorted<T>(s: seq<Entry<T>>) {
    forall i, j :: 0 <= i < j < |s| ==> !Less(s[j], s[i])
  }

  ghost predicate StrictlySorted<T>(s: seq<Entry<T>>) {
    forall i, j :: 0 <= i < j < |s| ==> Less(s[i], s[j])
  }

  /** `kept` and `dropped` make up `all`, and nothing dropped is newer than anything kept. */
  ghost predicate Newest<T>(all: multiset<Entry<T>>, kept: multiset<Entry<T>>, dropped: multiset<Entry<T>>) {
    && kept + dropped == all
    && forall k, d :: k in kept && d in dropped ==> !Less(k, d)
  }

  class BoundedNewest<T(==)> {
    const limit: nat
    var heap: seq<Entry<T>>
    var omitted: nat

    ghost var added: seq<Entry<T>>
    ghost var dropped: multiset<Entry<T>>

    ghost predicate Valid()
      reads this
    {
      && limit > 0 && IsHeap(heap)
      && |heap| == (if |added| < limit then |added| else limit)
      && |heap| + omitted == |added|
      && Newest(multiset(added), multiset(heap), dropped)
    }

    constructor (limit: nat)
      requires limit > 0
      ensures Valid() && this.limit == limit && added == [] && omitted == 0
    {
      this.limit := limit;
      heap, omitted, added, dropped := [], 0, [], multiset{};
    }

    /** `add`: push while there is room, else replace the oldest if the entry is newer. */
    method Add(entry: Entry<T>)
      requires Valid()
      modifies this
      ensures Valid() && added == old(added) + [entry]
    {
      hide *;
      ghost var all := multiset(added);
      ValidMeans();
      added := added + [entry];
      assert multiset(added) == all + multiset{entry};
      if |heap| < limit {
        SizesAdd(multiset(heap), dropped, all);
        NewestPushed(all, multiset(heap), dropped, entry);
        heap := MinHeap.Push(heap, entry);
      } else {
        omitted := omitted + 1;
        LeastOfAll(heap);
        if Less(heap[0], entry) {
          ghost var kept := multiset(heap);
          var least;
          least, heap := MinHeap.Replace(heap, entry);
          NewestReplaced(all, kept, dropped, least, entry);
          dropped := dropped + multiset{least};
        } else {
          NewestRefused(all, multiset(heap), dropped, heap[0], entry);
          dropped := dropped + multiset{entry};
        }
      }
      ValidMeans();
    }

    lemma ValidMeans()
      ensures Valid() <==>
                && limit > 0 && IsHeap(heap)
                && |heap| == (if |added| < limit then |added| else limit)
                && |heap| + omitted == |added|
                && Newest(multiset(added), multiset(heap), dropped)
      ensures |heap| > 0 ==> heap[0] in multiset(heap)
      ensures |multiset(heap)| == |heap| && |multiset(added)| == |added|
      ensures Valid() ==> multiset(heap) + dropped == multiset(added)
    {
      hide IsHeap, Less;
    }

    /** `values`: the kept entries, sorted. */
    method Values() returns (values: seq<Entry<T>>)
      requires Valid()
      ensures Sorted(values) && |values| + omitted == |added| && |values| == (if |added| < limit then |added| else limit)
      ensures Newest(multiset(added), multiset(values), dropped)
    {
      values := SortHeap(heap);
    }
  }

  lemma SizesAdd<T>(a: multiset<T>, b: multiset<T>, c: multiset<T>)
    requires a + b == c
    ensures |a| + |b| == |c|
  {
  }

  lemma NewestPushed<T>(all: multiset<Entry<T>>, kept: multiset<Entry<T>>, dropped: multiset<Entry<T>>, e: Entry<T>)
    requires Newest(all, kept, dropped)
    ensures |dropped| == 0 ==> Newest(all + multiset{e}, kept + multiset{e}, dropped)
  {
    assert kept + multiset{e} + dropped == (kept + dropped) + multiset{e};
  }

  lemma NewestReplaced<T>(all: multiset<Entry<T>>, kept: multiset<Entry<T>>, dropped: multiset<Entry<T>>, least: Entry<T>, e: Entry<T>)
    requires Newest(all, kept, dropped) && least in kept && Less(least, e)
    requires forall k :: k in kept ==> !Less(k, least)
    ensures Newest(all + multiset{e}, kept - multiset{least} + multiset{e}, dropped + multiset{least})
  {
    assert kept - multiset{least} + multiset{e} + (dropped + multiset{least}) == (kept + dropped) + multiset{e};
  }

  lemma NewestRefused<T>(all: multiset<Entry<T>>, kept: multiset<Entry<T>>, dropped: multiset<Entry<T>>, least: Entry<T>, e: Entry<T>)
    requires Newest(all, kept, dropped) && least in kept && !Less(least, e)
    requires forall k :: k in kept ==> !Less(k, least)
    ensures Newest(all + multiset{e}, kept, dropped + multiset{e})
  {
    assert kept + (dropped + multiset{e}) == (kept + dropped) + multiset{e};
  }

  /** Sorting by taking least entries out one by one. */
  method SortHeap<T>(heap: seq<Entry<T>>) returns (s: seq<Entry<T>>)
    requires IsHeap(heap)
    ensures Sorted(s) && multiset(s) == multiset(heap) && |s| == |heap|
  {
    s := [];
    var rest := heap;
    hide IsHeap;
    while |rest| > 0
      invariant IsHeap(rest) && multiset(s) + multiset(rest) == multiset(heap) && |s| + |rest| == |heap|
      invariant Sorted(s) && forall x, y :: x in multiset(s) && y in multiset(rest) ==> !Less(y, x)
      decreases |rest|
    {
      ghost var before := rest;
      var least;
      least, rest := MinHeap.Pop(rest);
      SortedSnoc(s, least, multiset(before));
      s := s + [least];
    }
  }

  lemma SortedSnoc<T>(s: seq<Entry<T>>, e: Entry<T>, rest: multiset<Entry<T>>)
    requires Sorted(s) && e in rest && forall x, y :: x in multiset(s) && y in rest ==> !Less(y, x)
    ensures Sorted(s + [e]) && multiset(s + [e]) == multiset(s) + multiset{e}
  {
    assert forall i :: 0 <= i < |s| ==> s[i] in multiset(s);
  }

  /** Bounded retention refines sort-and-take: with distinct coordinates, what is kept is exactly the end
      of the sorted list of everything added. */
  lemma {:induction false} RefinesSortAndTake<T>(sorted: seq<Entry<T>>, kept: seq<Entry<T>>, dropped: multiset<Entry<T>>)
    requires StrictlySorted(sorted) && Sorted(kept) && Newest(multiset(sorted), multiset(kept), dropped)
    ensures |kept| <= |sorted| && kept == sorted[|sorted| - |kept|..]
    decreases |kept|
  {
    hide *;
    NewestMeans(sorted, kept, dropped);
    if |kept| > 0 {
      LastIsLast(sorted, kept, dropped);
      WithoutLast(sorted, kept, dropped);
      RefinesSortAndTake(sorted[..|sorted| - 1], kept[..|kept| - 1], dropped);
      EndsAgree(sorted, kept);
    } else {
      assert sorted[|sorted|..] == [];
    }
  }

  lemma NewestMeans<T>(sorted: seq<Entry<T>>, kept: seq<Entry<T>>, dropped: multiset<Entry<T>>)
    requires Newest(multiset(sorted), multiset(kept), dropped)
    ensures |kept| <= |sorted|
  {
    SizesAdd(multiset(kept), dropped, multiset(sorted));
    assert |multiset(sorted)| == |sorted| && |multiset(kept)| == |kept|;
  }

  lemma EndsAgree<T>(s: seq<T>, k: seq<T>)
    requires 0 < |k| <= |s| && k[|k| - 1] == s[|s| - 1] && k[..|k| - 1] == s[..|s| - 1][|s| - |k|..]
    ensures k == s[|s| - |k|..]
  {
    assert k == k[..|k| - 1] + [k[|k| - 1]];
    assert s == s[..|s| - 1] + [s[|s| - 1]];
  }

  lemma WithoutLast<T>(sorted: seq<Entry<T>>, kept: seq<Entry<T>>, dropped: multiset<Entry<T>>)
    requires StrictlySorted(sorted) && Sorted(kept) && Newest(multiset(sorted), multiset(kept), dropped)
    requires 0 < |kept| && 0 < |sorted| && kept[|kept| - 1] == sorted[|sorted| - 1]
    ensures StrictlySorted(sorted[..|sorted| - 1]) && Sorted(kept[..|kept| - 1])
    ensures Newest(multiset(sorted[..|sorted| - 1]), multiset(kept[..|kept| - 1]), dropped)
  {
    hide *;
    var n, m := |sorted| - 1, |kept| - 1;
    SortedPrefix(sorted, kept, n, m);
    MultisetLast(sorted);
    MultisetLast(kept);
    NewestWithout(multiset(sorted[..n]), multiset(kept[..m]), dropped, sorted[n]);
  }

  lemma SortedPrefix<T>(sorted: seq<Entry<T>>, kept: seq<Entry<T>>, n: nat, m: nat)
    requires StrictlySorted(sorted) && Sorted(kept) && n <= |sorted| && m <= |kept|
    ensures StrictlySorted(sorted[..n]) && Sorted(kept[..m])
  {
    hide Less;
  }

  lemma MultisetLast<T>(s: seq<T>)
    requires |s| > 0
    ensures multiset(s) == multiset(s[..|s| - 1]) + multiset{s[|s| - 1]}
  {
    assert s == s[..|s| - 1] + [s[|s| - 1]];
  }

  lemma NewestWithout<T>(all: multiset<Entry<T>>, kept: multiset<Entry<T>>, dropped: multiset<Entry<T>>, e: Entry<T>)
    requires Newest(all + multiset{e}, kept + multiset{e}, dropped)
    ensures Newest(all, kept, dropped)
  {
    hide Less;
    assert (kept + dropped) + multiset{e} == all + multiset{e};
    Cancel(kept + dropped, all, multiset{e});
    assert forall k :: k in kept ==> k in kept + multiset{e};
  }

  lemma Cancel<T>(a: multiset<T>, b: multiset<T>, x: multiset<T>)
    requires a + x == b + x
    ensures a == b
  {
    assert a == (a + x) - x && b == (b + x) - x;
  }

  lemma LastIsLast<T>(sorted: seq<Entry<T>>, kept: seq<Entry<T>>, dropped: multiset<Entry<T>>)
    requires StrictlySorted(sorted) && Sorted(kept) && Newest(multiset(sorted), multiset(kept), dropped)
    requires |kept| > 0 && |sorted| > 0
    ensures kept[|kept| - 1] == sorted[|sorted| - 1]
  {
    var last, top := sorted[|sorted| - 1], kept[|kept| - 1];
    assert top in multiset(kept) && top in multiset(sorted);
    var i :| 0 <= i < |sorted| && sorted[i] == top;
    assert last in multiset(kept) + dropped;
    if last in multiset(kept) {
      var k :| 0 <= k < |kept| && kept[k] == last;
      assert !Less(kept[|kept| - 1], kept[k]) || k == |kept| - 1;
    }
  }

  // ----- The reference: per-channel lines of a list of UART records -----

  datatype Key = Key(segment: nat, channel: nat)

  /** One stored UART record. */
  datatype LogEvent = LogEvent(key: Key, ingestionIndex: int, timestampUs: int, data: seq<byte>)

  datatype Record =
    | LineRecord(key: Key, timestampUs: int, line: UartLine, partial: bool)
    | OversizedRecord(key: Key, descriptor: OversizedUartLine)

  function AsEvent(e: LogEvent): Event {
    Event(Some(e.ingestionIndex), Some(e.timestampUs), 0, e.data)
  }

  /** What one channel's line buffer is fed. */
  ghost function Fed(events: seq<LogEvent>, key: Key): seq<Event> {
    if events == [] then []
    else
      var e := events[|events| - 1];
      Fed(events[..|events| - 1], key) + if e.key == key then [AsEvent(e)] else []
  }

  /** Channels in order of first appearance. */
  ghost function KeysOf(events: seq<LogEvent>): seq<Key> {
    if events == [] then []
    else
      var before, key := KeysOf(events[..|events| - 1]), events[|events| - 1].key;
      if key in before then before else before + [key]
  }

  /** The timestamp of the channel's latest record. */
  ghost function LastTimestamp(events: seq<LogEvent>, key: Key): int {
    if events == [] then 0
    else if events[|events| - 1].key == key then events[|events| - 1].timestampUs
    else LastTimestamp(events[..|events| - 1], key)
  }

  function SpanOfRecord(r: Record): Span {
    match r case LineRecord(_, _, line, _) => line.span case OversizedRecord(_, d) => d.span
  }

  function Coordinate(o: Option<int>): int {
    if o.Some? then o.value else 0
  }

  /** A record under its replay coordinates: the event its line ends in, and its place among that event's lines. */
  function EntryOf(r: Record): Entry<Record> {
    var span := SpanOfRecord(r);
    Entry(Coordinate(span.endIngestionIndex), if span.lineIndexInEvent.Some? then span.lineIndexInEvent.value else 0, r)
  }

  function LineEntries(key: Key, timestampUs: int, lines: seq<UartLine>, partial: bool): (entries: seq<Entry<Record>>)
    ensures |entries| == |lines|
  {
    seq(|lines|, (k: nat) requires k < |lines| => EntryOf(LineRecord(key, timestampUs, lines[k], partial)))
  }

  function OversizedEntries(key: Key, descriptors: seq<OversizedUartLine>): (entries: seq<Entry<Record>>)
    ensures |entries| == |descriptors|
  {
    seq(|descriptors|, (k: nat) requires k < |descriptors| => EntryOf(OversizedRecord(key, descriptors[k])))
  }

  /** The items event `e` completes behind `h`. */
  ghost function ItemsBy(h: seq<Event>, e: LogEvent): seq<Item> {
    OpensWithin(h, AsEvent(e));
    Items(h + [AsEvent(e)], OpenStart(Stream(h), 0))
  }

  lemma OpensWithin(h: seq<Event>, e: Event)
    ensures OpenStart(Stream(h), 0) <= |Stream(h + [e])|
  {
    StreamSnoc(h, e);
  }

  ghost function CompleteLines(events: seq<LogEvent>): seq<Entry<Record>> {
    if events == [] then []
    else
      var before, e := events[..|events| - 1], events[|events| - 1];
      CompleteLines(before) + LineEntries(e.key, e.timestampUs, Wholes(ItemsBy(Fed(before, e.key), e)), false)
  }

  ghost function OversizedLines(events: seq<LogEvent>): seq<Entry<Record>> {
    if events == [] then []
    else
      var before, e := events[..|events| - 1], events[|events| - 1];
      OversizedLines(before) + OversizedEntries(e.key, Oversizeds(ItemsBy(Fed(before, e.key), e)))
  }

  /** The open line at the end of a channel. */
  ghost function OpenItem(h: seq<Event>): seq<Item> {
    var p := OpenStart(Stream(h), 0);
    if p == |Stream(h)| then [] else [ItemOf(h, p, |Stream(h)|, false)]
  }

  ghost function PartialLines(events: seq<LogEvent>, keys: seq<Key>): seq<Entry<Record>> {
    if keys == [] then []
    else
      var key := keys[|keys| - 1];
      PartialLines(events, keys[..|keys| - 1]) + LineEntries(key, LastTimestamp(events, key), Wholes(OpenItem(Fed(events, key))), true)
  }

  ghost function OversizedPartials(events: seq<LogEvent>, keys: seq<Key>): seq<Entry<Record>> {
    if keys == [] then []
    else
      var key := keys[|keys| - 1];
      OversizedPartials(events, keys[..|keys| - 1]) + OversizedEntries(key, Oversizeds(OpenItem(Fed(events, key))))
  }

  /** Replayed lines always have coordinates. */
  lemma {:induction false} CoordinatesPresent(h: seq<Event>, p: nat, q: nat)
    requires p < q <= |Stream(h)| && forall i :: 0 <= i < |h| ==> h[i].ingestionIndex.Some?
    ensures var s := SpanOf(h, p, q);
            s.startIngestionIndex.Some? && s.endIngestionIndex.Some? && s.startEventOffset.Some? && s.endEventOffset.Some? && s.lineIndexInEvent.Some?
  {
    hide StartAt, EndAt, LineNumber, Stream;
    assert StartAt(h, p).0 < |h| && EndAt(h, q).0 < |h|;
  }

  lemma EventSnoc(before: seq<LogEvent>, e: LogEvent, key: Key)
    ensures Fed(before + [e], key) == if e.key == key then Fed(before, key) + [AsEvent(e)] else Fed(before, key)
    ensures LastTimestamp(before + [e], key) == if e.key == key then e.timestampUs else LastTimestamp(before, key)
    ensures KeysOf(before + [e]) == if e.key in KeysOf(before) then KeysOf(before) else KeysOf(before) + [e.key]
    ensures CompleteLines(before + [e]) ==
            CompleteLines(before) + LineEntries(e.key, e.timestampUs, Wholes(ItemsBy(Fed(before, e.key), e)), false)
    ensures OversizedLines(before + [e]) ==
            OversizedLines(before) + OversizedEntries(e.key, Oversizeds(ItemsBy(Fed(before, e.key), e)))
  {
    assert (before + [e])[..|before|] == before;
    assert Fed(before, key) + [] == Fed(before, key);
  }

  // ----- Completion order is coordinate order -----

  /** The items completed by event `e`, from its byte `from` on, are numbered consecutively. */
  ghost predicate NumberedFrom(items: seq<Item>, e: Event, first: nat) {
    forall k :: 0 <= k < |items| ==>
      SpanOfItem(items[k]).endIngestionIndex == e.ingestionIndex && SpanOfItem(items[k]).lineIndexInEvent == Some(first + k)
  }

  lemma {:induction false} ItemsNumbered(h: seq<Event>, e: Event, p: nat, from: nat)
    requires from <= |e.data| && |Stream(h + [e])| == |Stream(h)| + |e.data| && p <= |Stream(h)| + from
    requires FindNewline(Stream(h + [e]), p) == Shifted(FindNewline(e.data, from), |Stream(h)|)
    ensures NumberedFrom(Items(h + [e], p), e, Newlines(e.data[..from]))
    decreases |e.data| - from
  {
    hide *;
    var g, r := h + [e], FindNewline(e.data, from);
    if from == |e.data| {
      NothingAfterEnd(e.data);
      NoItems(g, p, r, |Stream(h)|);
    } else {
      NextItem(h, e, p, from);
      if r.Some? {
        var to := r.value + 1;
        NewlineWithin(e.data, from);
        ItemInNewest(h, e, p, from, to);
        ItemsNumbered(h, e, |Stream(h)| + to, to);
        NumberedCons(g, e, ItemOf(g, p, |Stream(h)| + to, true), Items(g, |Stream(h)| + to), Newlines(e.data[..from]));
      } else {
        NoneNumbered(e, Newlines(e.data[..from]));
      }
    }
    if r.None? { NoneNumbered(e, Newlines(e.data[..from])); }
  }

  lemma NewlineWithin(d: seq<byte>, from: nat)
    requires from <= |d|
    ensures FindNewline(d, from).Some? ==> from <= FindNewline(d, from).value < |d|
  {
  }

  lemma NoneNumbered(e: Event, first: nat)
    ensures NumberedFrom([], e, first)
  {
  }

  lemma NoItems(g: seq<Event>, p: nat, r: Option<nat>, n: nat)
    requires p <= |Stream(g)| && FindNewline(Stream(g), p) == Shifted(r, n) && r.None?
    ensures Items(g, p) == []
  {
  }

  lemma ItemInNewest(h: seq<Event>, e: Event, p: nat, from: nat, to: nat)
    requires from < to <= |e.data| && Unbroken(e.data, from, to - 1) && p <= |Stream(h)| + from
    ensures |Stream(h + [e])| == |Stream(h)| + |e.data|
    ensures var span := SpanOfItem(ItemOf(h + [e], p, |Stream(h)| + to, true));
            span.endIngestionIndex == e.ingestionIndex && span.lineIndexInEvent == Some(Newlines(e.data[..from]))
  {
    SpanInNewest(h, e, from, to, p);
    hide Stream, StartAt, EndAt, LineNumber, Newlines, Unbroken;
  }

  lemma NumberedCons(g: seq<Event>, e: Event, item: Item, items: seq<Item>, first: nat)
    requires NumberedFrom(items, e, first + 1)
    requires SpanOfItem(item).endIngestionIndex == e.ingestionIndex && SpanOfItem(item).lineIndexInEvent == Some(first)
    ensures NumberedFrom([item] + items, e, first)
  {
  }

  /** Lines of one event, in increasing order of their numbers below `bound`. */
  ghost predicate Ascending(lines: seq<UartLine>, e: Event, bound: nat) {
    && (forall k :: 0 <= k < |lines| ==>
          lines[k].span.endIngestionIndex == e.ingestionIndex && lines[k].span.lineIndexInEvent.Some?
          && lines[k].span.lineIndexInEvent.value < bound)
    && forall i, j :: 0 <= i < j < |lines| ==> lines[i].span.lineIndexInEvent.value < lines[j].span.lineIndexInEvent.value
  }

  lemma {:induction false} WholesAscend(items: seq<Item>, e: Event, first: nat)
    requires NumberedFrom(items, e, first)
    ensures Ascending(Wholes(items), e, first + |items|)
  {
    if items != [] {
      var n := |items| - 1;
      assert forall k :: 0 <= k < n ==> items[..n][k] == items[k];
      WholesAscend(items[..n], e, first);
    }
  }

  ghost predicate Increasing(events: seq<LogEvent>) {
    forall i, j :: 0 <= i < j < |events| ==> events[i].ingestionIndex < events[j].ingestionIndex
  }

  lemma CompletedAscend(h: seq<Event>, e: LogEvent)
    ensures exists bound: nat :: Ascending(Wholes(ItemsBy(h, e)), AsEvent(e), bound)
  {
    var event, p := AsEvent(e), OpenStart(Stream(h), 0);
    FirstItem(h, event, p);
    ItemsNumbered(h, event, p, 0);
    WholesAscend(Items(h + [event], p), event, Newlines(event.data[..0]));
    assert Ascending(Wholes(ItemsBy(h, e)), event, Newlines(event.data[..0]) + |Items(h + [event], p)|);
  }

  ghost predicate Below<T>(s: seq<Entry<T>>, major: int) {
    forall k :: 0 <= k < |s| ==> s[k].major < major
  }

  lemma SortedAppend<T>(a: seq<Entry<T>>, b: seq<Entry<T>>, major: int)
    requires StrictlySorted(a) && StrictlySorted(b) && Below(a, major) && forall k :: 0 <= k < |b| ==> b[k].major == major
    ensures StrictlySorted(a + b) && Below(a + b, major + 1)
  {
  }

  lemma EntriesAscend(e: LogEvent, lines: seq<UartLine>, bound: nat)
    requires Ascending(lines, AsEvent(e), bound)
    ensures StrictlySorted(LineEntries(e.key, e.timestampUs, lines, false))
    ensures forall k :: 0 <= k < |lines| ==> LineEntries(e.key, e.timestampUs, lines, false)[k].major == e.ingestionIndex
  {
  }

  /** Replay meets complete lines in strictly increasing coordinate order. */
  lemma {:induction false} CompleteLinesSorted(events: seq<LogEvent>)
    requires Increasing(events)
    ensures StrictlySorted(CompleteLines(events))
    ensures forall major :: (forall i :: 0 <= i < |events| ==> events[i].ingestionIndex < major) ==> Below(CompleteLines(events), major)
  {
    hide *;
    if events == [] {
      NoneSorted();
    } else {
      var before, e := events[..|events| - 1], events[|events| - 1];
      assert events == before + [e];
      IncreasingPrefix(before, e);
      CompleteLinesSorted(before);
      EventSnoc(before, e, e.key);
      var lines := Wholes(ItemsBy(Fed(before, e.key), e));
      CompletedAscend(Fed(before, e.key), e);
      var bound: nat :| Ascending(lines, AsEvent(e), bound);
      EntriesAscend(e, lines, bound);
      SortedAppend(CompleteLines(before), LineEntries(e.key, e.timestampUs, lines, false), e.ingestionIndex);
      forall major | forall i :: 0 <= i < |events| ==> events[i].ingestionIndex < major
        ensures Below(CompleteLines(events), major)
      {
        assert events[|events| - 1].ingestionIndex < major;
        BelowMore(CompleteLines(events), e.ingestionIndex + 1, major);
      }
    }
  }

  lemma NoneSorted()
    ensures StrictlySorted(CompleteLines([])) && forall major :: Below(CompleteLines([]), major)
  {
  }

  lemma BelowMore<T>(s: seq<Entry<T>>, less: int, more: int)
    requires Below(s, less) && less <= more
    ensures Below(s, more)
  {
  }

  lemma IncreasingPrefix(before: seq<LogEvent>, e: LogEvent)
    requires Increasing(before + [e])
    ensures Increasing(before) && forall i :: 0 <= i < |before| ==> before[i].ingestionIndex < e.ingestionIndex
  {
    var events := before + [e];
    assert forall i :: 0 <= i < |before| ==> events[i] == before[i];
    assert events[|before|] == e;
  }

  // ----- The replay's line buffers -----

  class Channels {
    var buffers: map<Key, UartLineBuffer>
    var order: seq<Key>
    var lastTimestamps: map<Key, int>

    ghost var seen: seq<LogEvent>

    function At(k: Key): set<UartLineBuffer>
      reads this`buffers
    {
      if k in buffers then {buffers[k]} else {}
    }

    ghost predicate Separate()
      reads this`buffers
    {
      forall k, l :: k in buffers && l in buffers && buffers[k] == buffers[l] ==> k == l
    }

    ghost predicate Stands(k: Key, h: seq<Event>)
      reads this`buffers, At(k)
    {
      if k in buffers then buffers[k].Valid() && buffers[k].history == h else h == []
    }

    ghost predicate Valid()
      reads this, buffers.Values
    {
      && Separate() && order == KeysOf(seen)
      && (forall k :: k in order <==> k in buffers)
      && (forall k :: k in buffers ==> k in lastTimestamps && lastTimestamps[k] == LastTimestamp(seen, k))
      && (forall k: Key :: Stands(k, Fed(seen, k)))
    }

    constructor ()
      ensures Valid() && seen == [] && buffers == map[]
    {
      buffers, order, lastTimestamps, seen := map[], [], map[], [];
    }

    /** Feed one record to its channel, created on first use. */
    method FeedChannel(e: LogEvent, ghost h: seq<Event>) returns (lines: seq<UartLine>, oversized: seq<OversizedUartLine>)
      requires Separate() && Stands(e.key, h)
      modifies this`buffers, this`order, this`lastTimestamps, At(e.key)
      ensures Separate() && e.key in buffers && Stands(e.key, h + [AsEvent(e)])
      ensures if e.key in old(buffers) then buffers == old(buffers) && order == old(order)
              else buffers == old(buffers)[e.key := buffers[e.key]] && fresh(buffers[e.key]) && order == old(order) + [e.key]
      ensures lastTimestamps == old(lastTimestamps)[e.key := e.timestampUs]
      ensures lines == Wholes(ItemsBy(h, e)) && oversized == Oversizeds(ItemsBy(h, e))
    {
      hide UartLineBuffer.Valid, Items, OpenStart, Stream, Wholes, Oversizeds;
      if e.key !in buffers {
        var created := new UartLineBuffer();
        buffers, order := buffers[e.key := created], order + [e.key];
      }
      var newlyOversized;
      lines, oversized, newlyOversized := buffers[e.key].FeedResult(AsEvent(e));
      lastTimestamps := lastTimestamps[e.key := e.timestampUs];
    }

    lemma ValidGives(k: Key)
      requires Valid()
      ensures Separate() && Stands(k, Fed(seen, k)) && At(k) <= buffers.Values
      ensures order == KeysOf(seen) && forall l :: l in order <==> l in buffers
    {
      hide UartLineBuffer.Valid;
    }

    lemma StandsMeans(k: Key, h: seq<Event>)
      ensures Stands(k, h) <==> if k in buffers then buffers[k].Valid() && buffers[k].history == h else h == []
      ensures At(k) == if k in buffers then {buffers[k]} else {}
      ensures Separate() ==> forall l :: l != k && l in buffers ==> buffers[l] !in At(k)
    {
      hide UartLineBuffer.Valid;
    }

    /** One record: the whole and oversized lines it completes. */
    method Feed(e: LogEvent) returns (lines: seq<Entry<Record>>, oversized: seq<Entry<Record>>)
      requires Valid()
      modifies this, buffers.Values
      ensures Valid() && fresh(buffers.Values - old(buffers.Values)) && seen == old(seen) + [e]
      ensures CompleteLines(seen) == CompleteLines(old(seen)) + lines
      ensures OversizedLines(seen) == OversizedLines(old(seen)) + oversized
    {
      hide *;
      ghost var before, h := seen, Fed(seen, e.key);
      ValidGives(e.key);
      StandsMeans(e.key, h);
      EventSnoc(before, e, e.key);
      var whole, descriptors;
      whole, descriptors := FeedChannel(e, h);
      StandsMeans(e.key, h + [AsEvent(e)]);
      seen := seen + [e];
      StandsMeans(e.key, h + [AsEvent(e)]);
      lines, oversized := LineEntries(e.key, e.timestampUs, whole, false), OversizedEntries(e.key, descriptors);
      StillValid(e);
    }

    twostate lemma StillValid(e: LogEvent)
      requires old(Valid()) && Separate() && seen == old(seen) + [e] && Stands(e.key, Fed(seen, e.key)) && e.key in buffers
      requires if e.key in old(buffers) then buffers == old(buffers) && order == old(order)
               else buffers == old(buffers)[e.key := buffers[e.key]] && order == old(order) + [e.key]
      requires lastTimestamps == old(lastTimestamps)[e.key := e.timestampUs]
      requires forall k :: k != e.key && k in buffers ==> unchanged(buffers[k])
      ensures Valid()
    {
      hide UartLineBuffer.Valid, Fed, KeysOf, LastTimestamp, CompleteLines, OversizedLines;
      EventSnoc(old(seen), e, e.key);
      forall k: Key
        ensures Stands(k, Fed(seen, k))
        ensures k in buffers ==> k in lastTimestamps && lastTimestamps[k] == LastTimestamp(seen, k)
      {
        EventSnoc(old(seen), e, k);
        assert old(Stands(k, Fed(seen, k)));
      }
    }

    /** The channels from `n` on still hold everything they were fed. */
    ghost predicate Unflushed(n: nat)
      reads this, buffers.Values
    {
      forall i :: n <= i < |order| ==> order[i] in buffers && buffers[order[i]].Valid() && buffers[order[i]].history == Fed(seen, order[i])
    }

    /** Flush one channel. */
    method FlushChannel(n: nat) returns (lines: seq<UartLine>, oversized: seq<OversizedUartLine>)
      requires n < |order| && Separate() && Distinct(order) && Unflushed(n)
      modifies buffers.Values
      ensures Unflushed(n + 1)
      ensures lines == Wholes(OpenItem(Fed(seen, order[n]))) && oversized == Oversizeds(OpenItem(Fed(seen, order[n])))
    {
      hide UartLineBuffer.Valid, Items, Stream, OpenStart, ItemOf, Fed;
      var buffer := buffers[order[n]];
      OpenItemViews(buffer.history);
      assert forall i :: n < i < |order| ==> buffers[order[i]] != buffer;
      lines, oversized := buffer.FlushResult();
    }

    /** Finalize all open lines, channel by channel. */
    method FlushAll() returns (partials: seq<Entry<Record>>, oversized: seq<Entry<Record>>)
      requires Valid()
      modifies buffers.Values
      ensures partials == PartialLines(seen, KeysOf(seen)) && oversized == OversizedPartials(seen, KeysOf(seen))
    {
      partials, oversized := [], [];
      KeysDistinct(seen);
      AllUnflushed();
      assert order[..0] == [];
      hide *;
      for n := 0 to |order|
        invariant Unflushed(n) && order == old(order) && buffers == old(buffers) && seen == old(seen) && lastTimestamps == old(lastTimestamps)
        invariant partials == PartialLines(seen, order[..n]) && oversized == OversizedPartials(seen, order[..n])
      {
        var key := order[n];
        var lines, descriptors := FlushChannel(n);
        PartialsSnoc(seen, order, n);
        partials := partials + LineEntries(key, lastTimestamps[key], lines, true);
        oversized := oversized + OversizedEntries(key, descriptors);
      }
      assert order[..|order|] == order;
    }

    lemma AllUnflushed()
      requires Valid()
      ensures Unflushed(0) && Separate() && order == KeysOf(seen)
      ensures forall i :: 0 <= i < |order| ==> order[i] in lastTimestamps && lastTimestamps[order[i]] == LastTimestamp(seen, order[i])
    {
      hide UartLineBuffer.Valid;
      forall i | 0 <= i < |order|
        ensures order[i] in buffers && buffers[order[i]].Valid() && buffers[order[i]].history == Fed(seen, order[i])
      {
        assert order[i] in order;
        assert Stands(order[i], Fed(seen, order[i]));
      }
    }
  }

  ghost predicate Distinct(keys: seq<Key>) {
    forall i, j :: 0 <= i < j < |keys| ==> keys[i] != keys[j]
  }

  lemma {:induction false} KeysDistinct(events: seq<LogEvent>)
    ensures Distinct(KeysOf(events))
  {
    if events != [] {
      KeysDistinct(events[..|events| - 1]);
    }
  }

  lemma OpenItemViews(h: seq<Event>)
    ensures var p := OpenStart(Stream(h), 0);
            if p == |Stream(h)| then Wholes(OpenItem(h)) == [] && Oversizeds(OpenItem(h)) == []
            else var item := ItemOf(h, p, |Stream(h)|, false);
                 Wholes(OpenItem(h)) == WholeOf(item) && Oversizeds(OpenItem(h)) == OversizedOf(item)
  {
    var p := OpenStart(Stream(h), 0);
    if p != |Stream(h)| {
      var item := ItemOf(h, p, |Stream(h)|, false);
      SnocViews([], item);
      assert [] + [item] == [item];
      assert [] + WholeOf(item) == WholeOf(item) && [] + OversizedOf(item) == OversizedOf(item);
    }
  }

  lemma PartialsSnoc(events: seq<LogEvent>, keys: seq<Key>, n: nat)
    requires n < |keys|
    ensures PartialLines(events, keys[..n + 1]) ==
            PartialLines(events, keys[..n]) + LineEntries(keys[n], LastTimestamp(events, keys[n]), Wholes(OpenItem(Fed(events, keys[n]))), true)
    ensures OversizedPartials(events, keys[..n + 1]) ==
            OversizedPartials(events, keys[..n]) + OversizedEntries(keys[n], Oversizeds(OpenItem(Fed(events, keys[n]))))
  {
    assert keys[..n + 1][..n] == keys[..n];
  }

  // ----- The replay -----

  datatype Replay = Replay(
    eventCount: nat,
    complete: seq<Entry<Record>>,
    partials: seq<Entry<Record>>,
    oversized: seq<Entry<Record>>,
    omittedComplete: nat,
    omittedPartials: nat,
    omittedOversized: nat)

  /** `kept` is the newest `limit` of `all`, sorted, and `omitted` counts the rest. */
  ghost predicate NewestOf<T(!new)>(all: seq<Entry<T>>, limit: nat, kept: seq<Entry<T>>, omitted: nat) {
    && Sorted(kept) && |kept| + omitted == |all| && |kept| == (if |all| < limit then |all| else limit)
    && exists dropped :: Newest(multiset(all), multiset(kept), dropped)
  }

  method AddAll<T(==)>(newest: BoundedNewest<T>, entries: seq<Entry<T>>)
    requires newest.Valid()
    modifies newest
    ensures newest.Valid() && newest.added == old(newest.added) + entries
  {
    hide *;
    ghost var before := newest.added;
    assert before + entries[..0] == before;
    for k := 0 to |entries|
      invariant newest.Valid() && newest.added == before + entries[..k]
    {
      newest.Add(entries[k]);
      assert (before + entries[..k]) + [entries[k]] == before + entries[..k + 1];
    }
    assert entries[..|entries|] == entries;
  }

  /** What `values` and `omitted` report in the end. */
  method Collected<T(==, !new)>(newest: BoundedNewest<T>) returns (kept: seq<Entry<T>>, omitted: nat)
    requires newest.Valid()
    ensures NewestOf(newest.added, newest.limit, kept, omitted)
  {
    kept := newest.Values();
    omitted := newest.omitted;
    hide Newest, Sorted;
  }

  /** Replay of a session's UART records: the newest complete, partial and oversized lines, each sorted, and
      how many older ones were omitted. That the lines are those of the per-channel split is
      `CompleteLinesAreSplit` and, for the other two, `ReplayViews`. */
  method ReplayRecords(events: seq<LogEvent>, limit: nat) returns (r: Replay)
    requires limit > 0
    ensures r.eventCount == |events|
    ensures NewestOf(CompleteLines(events), limit, r.complete, r.omittedComplete)
    ensures NewestOf(PartialLines(events, KeysOf(events)), limit, r.partials, r.omittedPartials)
    ensures NewestOf(OversizedLines(events) + OversizedPartials(events, KeysOf(events)), limit, r.oversized, r.omittedOversized)
  {
    hide *;
    var channels := new Channels();
    var complete := new BoundedNewest<Record>(limit);
    var partials := new BoundedNewest<Record>(limit);
    var oversized := new BoundedNewest<Record>(limit);
    NoEvents();
    assert events[..0] == [];
    for n := 0 to |events|
      invariant channels.Valid() && fresh(channels) && fresh(channels.buffers.Values) && channels.seen == events[..n]
      invariant fresh(complete) && fresh(partials) && fresh(oversized)
      invariant complete.Valid() && complete.added == CompleteLines(events[..n])
      invariant oversized.Valid() && oversized.added == OversizedLines(events[..n])
      invariant partials.Valid() && partials.added == []
    {
      assert events[..n] + [events[n]] == events[..n + 1];
      var lines, descriptors := channels.Feed(events[n]);
      AddAll(complete, lines);
      AddAll(oversized, descriptors);
    }
    assert events[..|events|] == events;
    var open, descriptors := channels.FlushAll();
    AddAll(partials, open);
    AddAll(oversized, descriptors);
    assert [] + open == open;
    var c, oc := Collected(complete);
    var p, op := Collected(partials);
    var o, oo := Collected(oversized);
    r := Replay(|events|, c, p, o, oc, op, oo);
  }

  lemma NoEvents()
    ensures CompleteLines([]) == [] && OversizedLines([]) == []
  {
  }

  /** For records in ingestion order, the complete lines returned are exactly the last `limit` lines the
      per-channel newline split completes, in order. */
  lemma NewestAreLast(events: seq<LogEvent>, limit: nat, kept: seq<Entry<Record>>, omitted: nat)
    requires Increasing(events) && NewestOf(CompleteLines(events), limit, kept, omitted)
    ensures omitted <= |CompleteLines(events)| && kept == CompleteLines(events)[omitted..]
  {
    CompleteLinesSorted(events);
    var dropped :| Newest(multiset(CompleteLines(events)), multiset(kept), dropped);
    hide *;
    RefinesSortAndTake(CompleteLines(events), kept, dropped);
    CountsMean(CompleteLines(events), limit, kept, omitted);
  }

  lemma CountsMean<T(!new)>(all: seq<Entry<T>>, limit: nat, kept: seq<Entry<T>>, omitted: nat)
    requires NewestOf(all, limit, kept, omitted)
    ensures omitted == |all| - |kept|
  {
  }

  /** The raw lines of one channel among replay entries. */
  ghost function RawsOf(entries: seq<Entry<Record>>, key: Key): seq<seq<byte>> {
    if entries == [] then []
    else
      var r := entries[|entries| - 1].item;
      RawsOf(entries[..|entries| - 1], key) + if r.LineRecord? && r.key == key then [r.line.raw] else []
  }

  lemma {:induction false} RawsOfEntries(entries: seq<Entry<Record>>, e: LogEvent, lines: seq<UartLine>, key: Key)
    ensures RawsOf(entries + LineEntries(e.key, e.timestampUs, lines, false), key) ==
            RawsOf(entries, key) + if e.key == key then Raws(lines) else []
  {
    var more := LineEntries(e.key, e.timestampUs, lines, false);
    if lines == [] {
      assert entries + more == entries;
    } else {
      var n := |lines| - 1;
      assert (entries + more)[..|entries| + n] == entries + LineEntries(e.key, e.timestampUs, lines[..n], false);
      RawsOfEntries(entries, e, lines[..n], key);
      assert Raws(lines) == Raws(lines[..n]) + [lines[n].raw];
    }
  }

  /** Per channel, the complete lines are the stream's lines of at most 65536 bytes. */
  lemma CompleteLinesAreSplit(events: seq<LogEvent>, key: Key)
    ensures RawsOf(CompleteLines(events), key) == Short(Lines(Stream(Fed(events, key))))
  {
    var h := Fed(events, key);
    CompleteLinesOfKey(events, key);
    ItemsAreSplit(h, 0);
    WholesAreShort(Items(h, 0), Lines(Stream(h)));
  }

  lemma {:induction false} CompleteLinesOfKey(events: seq<LogEvent>, key: Key)
    ensures RawsOf(CompleteLines(events), key) == Raws(Wholes(Items(Fed(events, key), 0)))
  {
    hide *;
    if events == [] {
      NothingComplete(key);
    } else {
      var before, e := events[..|events| - 1], events[|events| - 1];
      assert events == before + [e];
      CompleteLinesOfKey(before, key);
      EventSnoc(before, e, key);
      StepOfKey(before, e, key);
    }
  }

  lemma NothingComplete(key: Key)
    ensures RawsOf(CompleteLines([]), key) == Raws(Wholes(Items(Fed([], key), 0)))
  {
  }

  lemma StepOfKey(before: seq<LogEvent>, e: LogEvent, key: Key)
    requires RawsOf(CompleteLines(before), key) == Raws(Wholes(Items(Fed(before, key), 0)))
    ensures RawsOf(CompleteLines(before) + LineEntries(e.key, e.timestampUs, Wholes(ItemsBy(Fed(before, e.key), e)), false), key) ==
            Raws(Wholes(Items(if e.key == key then Fed(before, key) + [AsEvent(e)] else Fed(before, key), 0)))
  {
    hide *;
    var h := Fed(before, e.key);
    var lines := Wholes(ItemsBy(h, e));
    RawsOfEntries(CompleteLines(before), e, lines, key);
    if e.key == key {
      ItemsByExtend(h, e);
      WholesAppend(Items(h, 0), ItemsBy(h, e));
      RawsAppend(Wholes(Items(h, 0)), lines);
    } else {
      NothingAdded(RawsOf(CompleteLines(before), key));
    }
  }

  lemma ItemsByExtend(h: seq<Event>, e: LogEvent)
    ensures Items(h + [AsEvent(e)], 0) == Items(h, 0) + ItemsBy(h, e)
  {
    ItemsExtend(h, AsEvent(e), 0);
  }

  lemma RawsAppend(a: seq<UartLine>, b: seq<UartLine>)
    ensures Raws(a + b) == Raws(a) + Raws(b)
  {
  }

  lemma NothingAdded<T>(s: seq<T>)
    ensures s + [] == s
  {
  }
}
