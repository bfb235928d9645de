/**
  A client that follows `next_cursor`: what the pages served one after another add up to.

  The only thing known of each page is the contract of `EvidencePages.ReadEvidencePage`. The store may
  grow and roll over during each call and between calls.
*/
module EvidencePolls {
  import opened Wrappers
  import opened Splitting
  import opened EvidenceTail
  import opened EvidencePages

  /** One call and what it returned; `worlds` and `ledgers` are what the store held and what was committed at
      its openings. */
  datatype Poll = Poll(worlds: seq<World>, ledgers: seq<Ledger>, cursor: string, limit: nat, tail: Option<SessionId>, result: PageResult)

  ghost predicate Growing<R>(f: Format<R>, ledgers: seq<Ledger>) {
    && |ledgers| > 0
    && (forall k :: 0 <= k < |ledgers| ==> Sound(f, ledgers[k]))
    && (forall i, k :: 0 <= i <= k < |ledgers| ==> Grows(ledgers[i], ledgers[k]))
  }

  /** The result is one that `ReadEvidencePage` may return. */
  ghost predicate Kept<R>(codec: Codec<R>, p: Poll) {
    && History(codec.format, p.worlds, p.ledgers) && Growing(codec.format, p.ledgers) && 0 < p.limit <= MAX_LIMIT && codec.decode(p.cursor).Some?
    && var c := codec.decode(p.cursor).value;
       ValidCursor(p.ledgers[0], c) ==> Answers(codec, p.worlds, p.ledgers, c, p.cursor, p.limit, p.tail, p.result)
  }

  /** One call of a client: whatever the store held at its openings, the result is one such. */
  method PollOnce<R>(codec: Codec<R>, worlds: seq<World>, cursor: string, limit: nat, tail: Option<SessionId>, ghost ledgers: seq<Ledger>)
    returns (r: PageResult)
    requires History(codec.format, worlds, ledgers) && Faithful(codec, ledgers[|ledgers| - 1])
    requires 1 <= limit <= MAX_LIMIT && |cursor| <= MAX_CURSOR_LENGTH && codec.decode(cursor).Some?
    ensures Kept(codec, Poll(worlds, ledgers, cursor, limit, tail, r))
  {
    HistoryIsGrowing(codec.format, worlds, ledgers);
    hide History, Faithful, Growing, ValidCursor, Answers, Attached, Print;
    r := ReadEvidencePage(codec, worlds, Some(cursor), tail, limit, ledgers);
  }

  lemma HistoryIsGrowing<R>(f: Format<R>, worlds: seq<World>, ledgers: seq<Ledger>)
    requires History(f, worlds, ledgers)
    ensures Growing(f, ledgers)
  {
    hide Sound, Grows, Holds;
  }

  const NO_LEDGER := Ledger(map[], map[], map[], 0)

  ghost function Oldest(p: Poll): Ledger {
    if p.ledgers == [] then NO_LEDGER else p.ledgers[0]
  }

  ghost function Newest(p: Poll): Ledger {
    if p.ledgers == [] then NO_LEDGER else p.ledgers[|p.ledgers| - 1]
  }

  ghost predicate Continues(p: Poll, next: Poll) {
    p.result.Served? && next.cursor == p.result.page.nextCursor
  }

  /** Each poll continues at the cursor the one before it returned, from the first, valid one on. The last
      one may be refused. */
  ghost predicate Followed<R>(codec: Codec<R>, polls: seq<Poll>) {
    && |polls| > 0
    && (forall i :: 0 <= i < |polls| ==> Kept(codec, polls[i]))
    && (forall i, k :: 0 <= i < |polls| - 1 && k == i + 1 ==> Continues(polls[i], polls[k]))
    && (forall i, k :: 0 <= i < k < |polls| ==> Grows(Newest(polls[i]), Oldest(polls[k])))
    && ValidCursor(Oldest(polls[0]), codec.decode(polls[0].cursor).value)
  }

  ghost function First<R>(codec: Codec<R>, polls: seq<Poll>): Cursor
    requires Followed(codec, polls)
  {
    codec.decode(polls[0].cursor).value
  }

  ghost function RecordsOf(r: PageResult): seq<seq<byte>> {
    if r.Served? then r.page.records else []
  }

  /** All records delivered, page after page. */
  ghost function Records(polls: seq<Poll>): seq<seq<byte>> {
    if polls == [] then [] else Records(polls[..|polls| - 1]) + RecordsOf(polls[|polls| - 1].result)
  }

  /** `records` are the projections of the very next records ahead of `c`. */
  ghost predicate AreNext<R>(codec: Codec<R>, l: Ledger, c: Cursor, records: seq<seq<byte>>) {
    && Sound(codec.format, l) && ValidCursor(l, c) && |records| <= |Ahead(codec.format, l, c)|
    && forall i :: 0 <= i < |records| ==> IsNext(codec, l, Ahead(codec.format, l, c)[i], records[i])
  }

  ghost predicate IsNext<R>(codec: Codec<R>, l: Ledger, place: (SessionId, nat), record: seq<byte>)
    requires Sound(codec.format, l)
  {
    var (s, q) := place;
    s in l.journals && q < |l.journals[s]| && record == codec.project(s, RecordAt(codec.format, l.journals[s], q))
  }

  lemma GrowsOn(k: Ledger, l: Ledger, m: Ledger)
    requires Grows(k, l) && Grows(l, m)
    ensures Grows(k, m)
  {
  }

  lemma IsNextGrows<R>(codec: Codec<R>, l: Ledger, m: Ledger, place: (SessionId, nat), record: seq<byte>)
    requires Sound(codec.format, l) && Sound(codec.format, m) && Grows(l, m)
    requires place.0 in l.journals && place.1 < |l.journals[place.0]|
    ensures IsNext(codec, l, place, record) <==> IsNext(codec, m, place, record)
  {
    var (s, q) := place;
    assert l.journals[s] <= m.journals[s];
    assert l.journals[s][q] == m.journals[s][q];
  }

  // ----- What was delivered -----

  /** All but the last poll. */
  lemma FollowedBefore<R>(codec: Codec<R>, polls: seq<Poll>)
    requires Followed(codec, polls) && |polls| > 1
    ensures polls[|polls| - 2].result.Served?
    ensures Followed(codec, polls[..|polls| - 1]) && First(codec, polls[..|polls| - 1]) == First(codec, polls)
  {
    hide Kept, Grows, ValidCursor;
    assert Continues(polls[|polls| - 2], polls[|polls| - 1]);
  }

  lemma PageDelivers<R>(codec: Codec<R>, p: Poll)
    requires Kept(codec, p) && p.result.Served? && ValidCursor(Oldest(p), codec.decode(p.cursor).value)
    ensures var c, d := codec.decode(p.cursor).value, codec.decode(p.result.page.nextCursor);
            && d.Some? && Moves(codec.format, Newest(p), c, |p.result.page.records|, d.value)
            && AreNext(codec, Newest(p), c, p.result.page.records)
  {
    hide Reaches, Following, Growing, Fits, Drained, ValidCursor, RecordAt;
    var l, c := Newest(p), codec.decode(p.cursor).value;
    KeptLedgers(codec, p);
    assert IsPage(codec, l, c, p.result.page);
  }

  /** One more page after `records`. */
  lemma NextDelivers<R>(codec: Codec<R>, m: Ledger, l: Ledger, c: Cursor, d: Cursor, e: Cursor, before: seq<seq<byte>>, records: seq<seq<byte>>)
    requires Sound(codec.format, l) && Grows(m, l)
    requires Moves(codec.format, m, c, |before|, d) && AreNext(codec, m, c, before)
    requires Moves(codec.format, l, d, |records|, e) && AreNext(codec, l, d, records)
    ensures Moves(codec.format, l, c, |before + records|, e) && AreNext(codec, l, c, before + records)
  {
    hide Reaches, Following, Sound, Grows, RecordAt, ValidCursor, ValidPosition, IsNext;
    var f := codec.format;
    MovesGrows(f, m, l, c, |before|, d);
    MovesOn(f, l, c, |before|, d, |records|, e);
    MovesAhead(f, l, c, |before|, d);
    AreNextGrows(codec, m, l, c, before);
    forall i | 0 <= i < |before + records|
      ensures IsNext(codec, l, Ahead(f, l, c)[i], (before + records)[i])
    {
      if i < |before| {
        assert (before + records)[i] == before[i];
      } else {
        assert (before + records)[i] == records[i - |before|];
        assert Ahead(f, l, d)[i - |before|] == Ahead(f, l, c)[i];
      }
    }
  }

  lemma AreNextGrows<R>(codec: Codec<R>, m: Ledger, l: Ledger, c: Cursor, records: seq<seq<byte>>)
    requires AreNext(codec, m, c, records) && Sound(codec.format, l) && Grows(m, l)
    ensures AreNext(codec, l, c, records)
  {
    var f := codec.format;
    CursorStaysValid(m, l, c);
    FollowingGrows(f, m, l, c.session, c.position.sequence);
    forall i | 0 <= i < |records|
      ensures IsNext(codec, l, Ahead(f, l, c)[i], records[i])
    {
      assert IsNext(codec, m, Ahead(f, m, c)[i], records[i]);
      assert Ahead(f, m, c)[i] == Ahead(f, l, c)[i];
      IsNextGrows(codec, m, l, Ahead(f, m, c)[i], records[i]);
    }
  }

  /** Following `next_cursor` delivers, in order and without a gap, exactly the records that lie between
      the first cursor and the last one returned. */
  lemma {:induction false} PollsDeliver<R>(codec: Codec<R>, polls: seq<Poll>)
    requires Followed(codec, polls) && polls[|polls| - 1].result.Served?
    ensures var last := polls[|polls| - 1];
            && Kept(codec, last) && codec.decode(last.result.page.nextCursor).Some?
            && ValidCursor(Oldest(last), codec.decode(last.cursor).value)
            && Moves(codec.format, Newest(last), First(codec, polls), |Records(polls)|, codec.decode(last.result.page.nextCursor).value)
            && AreNext(codec, Newest(last), First(codec, polls), Records(polls))
    decreases |polls|
  {
    hide Moves, AreNext, Growing, Answers, ValidCursor, Grows, Sound;
    var n := |polls| - 1;
    var last := polls[n];
    if n == 0 {
      PageDelivers(codec, last);
      assert Records(polls[..0]) == [];
      assert Records(polls) == last.result.page.records;
    } else {
      var before := polls[..n];
      FollowedBefore(codec, polls);
      PollsDeliver(codec, before);
      assert before[n - 1] == polls[n - 1];
      var m := Newest(polls[n - 1]);
      var d := codec.decode(last.cursor).value;
      MovesEnds(codec.format, m, First(codec, polls), |Records(before)|, d);
      CursorStaysValid(m, Oldest(last), d);
      PageDelivers(codec, last);
      NewestGrows(codec, last);
      GrowsOn(m, Oldest(last), Newest(last));
      NextDelivers(codec, m, Newest(last), First(codec, polls), d, codec.decode(last.result.page.nextCursor).value, Records(before), last.result.page.records);
    }
  }

  lemma MovesEnds<R>(f: Format<R>, l: Ledger, c: Cursor, k: nat, d: Cursor)
    requires Moves(f, l, c, k, d)
    ensures Sound(f, l) && ValidCursor(l, c) && ValidCursor(l, d)
  {
  }

  lemma NewestGrows<R>(codec: Codec<R>, p: Poll)
    requires Kept(codec, p)
    ensures p.ledgers != [] && Grows(Oldest(p), Newest(p)) && Sound(codec.format, Oldest(p)) && Sound(codec.format, Newest(p))
  {
    hide Grows, Sound, Answers, ValidCursor;
  }

  // ----- When a page delivers nothing -----

  /** The next candidate, from the ledger alone. */
  ghost function NextCandidate<R>(codec: Codec<R>, l: Ledger, c: Cursor): Candidate
    requires Sound(codec.format, l) && ValidCursor(l, c) && Ahead(codec.format, l, c) != []
    requires var (s, q) := Ahead(codec.format, l, c)[0]; s in l.journals && q < |l.journals[s]|
  {
    var (s, q) := Ahead(codec.format, l, c)[0];
    Candidate(codec.project(s, RecordAt(codec.format, l.journals[s], q)), Cursor(s, Position(q + 1, Ends(l.journals[s], q + 1))))
  }

  ghost predicate HasNext<R>(codec: Codec<R>, l: Ledger, c: Cursor) {
    && Sound(codec.format, l) && ValidCursor(l, c) && Ahead(codec.format, l, c) != []
    && var (s, q) := Ahead(codec.format, l, c)[0]; s in l.journals && q < |l.journals[s]|
  }

  lemma FirstCandidate<R>(codec: Codec<R>, l: Ledger, c: Cursor, x: Candidate)
    requires IsCandidate(codec, l, c, 0, x)
    ensures HasNext(codec, l, c) && x == NextCandidate(codec, l, c)
  {
    MovesAhead(codec.format, l, c, 1, x.after);
    hide Reaches, Following, Sound, WellFormed;
  }

  /** The page with the next record alone, when `n` records were collected. */
  ghost function FirstAlone<R>(codec: Codec<R>, l: Ledger, c: Cursor, n: nat): Page
    requires HasNext(codec, l, c) && n > 0
  {
    var x := NextCandidate(codec, l, c);
    Page([x.json], codec.encode(x.after), n - 1)
  }

  /** A page that omits records delivers none of them if and only if the next record alone would be over
      the byte cap; then, and only then, the same cursor comes back. */
  lemma StallsExactly<R>(codec: Codec<R>, l: Ledger, c: Cursor, cursor: string, page: Page)
    requires Fits(codec, l, c, cursor, page) && |page.records| + page.omitted > 0
    ensures HasNext(codec, l, c)
    ensures page.records == [] <==>
            |Print(FirstAlone(codec, l, c, |page.records| + page.omitted))| > MAX_EVIDENCE_RESPONSE_BYTES
    ensures page.records == [] ==> page.nextCursor == cursor
  {
    hide Print, IsCandidate, HasNext, NextCandidate;
    var xs: seq<Candidate> :| AreCandidates(codec, l, c, xs) && |xs| == |page.records| + page.omitted && Longest(codec, cursor, xs, page);
    assert IsCandidate(codec, l, c, 0, xs[0]);
    FirstCandidate(codec, l, c, xs[0]);
    assert Jsons(xs[..1]) == [xs[0].json];
    assert PageOf(codec, cursor, xs, 1) == FirstAlone(codec, l, c, |xs|);
    if page.records != [] {
      assert |Print(PageOf(codec, cursor, xs, 1))| <= MAX_EVIDENCE_RESPONSE_BYTES;
    }
  }

  /** No projected record is so long that its page, whatever the cursor, is over the cap. */
  ghost predicate Small<R>(codec: Codec<R>, l: Ledger)
    requires Sound(codec.format, l)
  {
    forall s, q: nat :: s in l.journals && q < |l.journals[s]| ==>
      |codec.project(s, RecordAt(codec.format, l.journals[s], q))| <= MAX_EVIDENCE_RESPONSE_BYTES - MAX_CURSOR_LENGTH - 100
  }

  lemma EnvelopeSize(cursor: string, omitted: nat)
    requires omitted <= MAX_LIMIT
    ensures |Print(Page([], cursor, omitted))| <= |cursor| + 100
  {
  }

  lemma SumOfOne(records: seq<seq<byte>>)
    requires |records| == 1
    ensures SumBytes(records) == |records[0]|
  {
    assert records[..0] == [];
  }

  lemma NextIsSmall<R>(codec: Codec<R>, l: Ledger, c: Cursor)
    requires HasNext(codec, l, c) && Small(codec, l)
    ensures |NextCandidate(codec, l, c).json| <= MAX_EVIDENCE_RESPONSE_BYTES - MAX_CURSOR_LENGTH - 100
  {
    var (s, q) := Ahead(codec.format, l, c)[0];
    assert |codec.project(s, RecordAt(codec.format, l.journals[s], q))| <= MAX_EVIDENCE_RESPONSE_BYTES - MAX_CURSOR_LENGTH - 100;
  }

  lemma AloneFits<R>(codec: Codec<R>, l: Ledger, c: Cursor, n: nat)
    requires HasNext(codec, l, c) && 0 < n <= MAX_LIMIT && Small(codec, l) && |codec.encode(NextCandidate(codec, l, c).after)| <= MAX_CURSOR_LENGTH
    ensures |Print(FirstAlone(codec, l, c, n))| <= MAX_EVIDENCE_RESPONSE_BYTES
  {
    hide Print, SumBytes, NextCandidate;
    var page := FirstAlone(codec, l, c, n);
    PrintedSize(page);
    EnvelopeSize(page.nextCursor, page.omitted);
    SumOfOne(page.records);
    NextIsSmall(codec, l, c);
  }

  /** With small records every page that has candidates delivers at least one. */
  lemma SmallNeverStalls<R>(codec: Codec<R>, l: Ledger, c: Cursor, cursor: string, page: Page)
    requires Fits(codec, l, c, cursor, page) && 0 < |page.records| + page.omitted <= MAX_LIMIT
    requires Faithful(codec, l) && Sound(codec.format, l) && Small(codec, l)
    ensures page.records != []
  {
    hide Print, Small, Following, Fits, Sound;
    StallsExactly(codec, l, c, cursor, page);
    NextIsValid(codec, l, c);
    AloneFits(codec, l, c, |page.records| + page.omitted);
  }

  lemma NextIsValid<R>(codec: Codec<R>, l: Ledger, c: Cursor)
    requires HasNext(codec, l, c)
    ensures ValidCursor(l, NextCandidate(codec, l, c).after)
  {
  }

  // ----- Enough polls deliver everything -----

  /** Where nothing is ahead in an older ledger, all it had before has been read. */
  lemma {:induction false} DrainedCount<R>(f: Format<R>, k: Ledger, l: Ledger, s: SessionId, q: nat, n: nat, t: SessionId, r: nat)
    requires Sound(f, k) && Sound(f, l) && Grows(k, l)
    requires s in k.journals && q <= |k.journals[s]| && t in k.journals && r <= |k.journals[t]|
    requires s in l.journals && q <= |l.journals[s]| && Reaches(f, l, s, q, n, t, r)
    requires Following(f, k, t, r) == []
    ensures |Following(f, k, s, q)| <= n
    decreases l.count - l.born[s], |l.journals[s]| - q
  {
    if !(n == 0 && t == s && r == q) {
      if q < |k.journals[s]| {
        DrainedCount(f, k, l, s, q + 1, n - 1, t, r);
      } else if s in k.successors {
        DrainedCount(f, k, l, l.successors[s], 0, n, t, r);
      }
    }
  }

  /** A page without candidates: everything committed when the call began lies before its cursor. */
  lemma DrainedMeans<R>(codec: Codec<R>, p: Poll, l0: Ledger, c: Cursor, n: nat, other: Option<SessionId>)
    requires Kept(codec, p) && Grows(l0, Oldest(p)) && Sound(codec.format, l0) && ValidCursor(l0, c)
    requires codec.decode(p.cursor).Some? && Moves(codec.format, Newest(p), c, n, codec.decode(p.cursor).value)
    requires Drained(codec, p.ledgers, codec.decode(p.cursor).value, 0, other)
    ensures |Ahead(codec.format, l0, c)| <= n
  {
    hide *;
    var f, l, d := codec.format, Newest(p), codec.decode(p.cursor).value;
    KeptLedgers(codec, p);
    var at, seen := WhereDrained(codec, p.ledgers, d, other);
    var k := Then(p.ledgers, seen);
    NewestIsLast(p);
    MovesOn(f, l, c, n, d, 0, at);
    ThenBetween(codec, p, seen);
    GrowsOn(l0, Oldest(p), k);
    DrainedBefore(f, l0, k, l, c, n, at);
  }

  lemma NewestIsLast(p: Poll)
    requires p.ledgers != []
    ensures Newest(p) == p.ledgers[|p.ledgers| - 1]
  {
  }

  lemma WhereDrained<R>(codec: Codec<R>, ledgers: seq<Ledger>, d: Cursor, other: Option<SessionId>) returns (at: Cursor, seen: nat)
    requires |ledgers| > 0 && Drained(codec, ledgers, d, 0, other)
    ensures Moves(codec.format, ledgers[|ledgers| - 1], d, 0, at) && NothingAhead(codec.format, Then(ledgers, seen), at)
  {
    hide Moves, NothingAhead, Then;
    at, seen :| Moves(codec.format, ledgers[|ledgers| - 1], d, 0, at) && NothingAhead(codec.format, Then(ledgers, seen), at);
  }

  lemma DrainedBefore<R>(f: Format<R>, l0: Ledger, k: Ledger, l: Ledger, c: Cursor, n: nat, at: Cursor)
    requires Sound(f, l0) && ValidCursor(l0, c) && Sound(f, k) && Grows(l0, k) && Grows(k, l)
    requires Moves(f, l, c, n, at) && NothingAhead(f, k, at)
    ensures |Ahead(f, l0, c)| <= n
  {
    hide Reaches, Following, Sound, Grows, ValidPosition;
    CursorStaysValid(l0, k, c);
    WithinLedger(l0, c);
    WithinLedger(l, c);
    WithinLedger(k, c);
    WithinLedger(k, at);
    DrainedCount(f, k, l, c.session, c.position.sequence, n, at.session, at.position.sequence);
    FollowingGrows(f, l0, k, c.session, c.position.sequence);
  }

  lemma WithinLedger(l: Ledger, c: Cursor)
    requires ValidCursor(l, c)
    ensures c.session in l.journals && c.position.sequence <= |l.journals[c.session]|
  {
  }

  lemma ThenBetween<R>(codec: Codec<R>, p: Poll, seen: nat)
    requires Kept(codec, p)
    ensures var k := Then(p.ledgers, seen);
            Sound(codec.format, k) && Sound(codec.format, Newest(p)) && Grows(Oldest(p), k) && Grows(k, Newest(p))
  {
    hide Sound, Grows, Answers, ValidCursor;
  }

  ghost predicate AllSmall<R>(codec: Codec<R>, polls: seq<Poll>)
    requires Followed(codec, polls)
  {
    forall i :: 0 <= i < |polls| ==>
      Sound(codec.format, Newest(polls[i])) && Small(codec, Newest(polls[i])) && Faithful(codec, Newest(polls[i]))
  }

  /** The oldest ledger of all grows to every later one. */
  lemma FirstGrows<R>(codec: Codec<R>, polls: seq<Poll>)
    requires Followed(codec, polls)
    ensures var l0, last := Oldest(polls[0]), polls[|polls| - 1];
            Sound(codec.format, l0) && Kept(codec, last) && Grows(l0, Oldest(last))
  {
    hide Sound, Grows, Answers, ValidCursor;
    var n := |polls| - 1;
    NewestGrows(codec, polls[0]);
    if n > 0 {
      GrowsOn(Oldest(polls[0]), Newest(polls[0]), Oldest(polls[n]));
    } else {
      assert Grows(polls[0].ledgers[0], polls[0].ledgers[0]);
    }
  }

  /** Before the last poll's page, `|Records|` records lie between the first cursor and its own. */
  lemma MovedBefore<R>(codec: Codec<R>, polls: seq<Poll>)
    requires Followed(codec, polls)
    ensures var last := polls[|polls| - 1];
            && Kept(codec, last)
            && ValidCursor(Oldest(last), codec.decode(last.cursor).value)
            && Moves(codec.format, Newest(last), First(codec, polls), |Records(polls[..|polls| - 1])|, codec.decode(last.cursor).value)
  {
    hide Moves, AreNext, Growing, Answers, ValidCursor, Grows, Sound;
    var n := |polls| - 1;
    var last, c := polls[n], First(codec, polls);
    NewestGrows(codec, last);
    if n == 0 {
      CursorStaysValid(Oldest(last), Newest(last), c);
      StandsStill(codec.format, Newest(last), c);
    } else {
      FollowedBefore(codec, polls);
      PollsDeliver(codec, polls[..n]);
      assert polls[..n][n - 1] == polls[n - 1];
      var m := Newest(polls[n - 1]);
      var d := codec.decode(last.cursor).value;
      MovesEnds(codec.format, m, c, |Records(polls[..n])|, d);
      CursorStaysValid(m, Oldest(last), d);
      GrowsOn(m, Oldest(last), Newest(last));
      MovesGrows(codec.format, m, Newest(last), c, |Records(polls[..n])|, codec.decode(last.cursor).value);
    }
  }

  lemma StandsStill<R>(f: Format<R>, l: Ledger, c: Cursor)
    requires Sound(f, l) && ValidCursor(l, c)
    ensures Moves(f, l, c, 0, c)
  {
  }

  /** A served page is empty of records only when everything committed at the first poll was delivered. */
  lemma EmptyMeansAll<R>(codec: Codec<R>, polls: seq<Poll>)
    requires Followed(codec, polls) && AllSmall(codec, polls) && polls[|polls| - 1].result.Served?
    requires RecordsOf(polls[|polls| - 1].result) == []
    ensures Sound(codec.format, Oldest(polls[0]))
    ensures |Ahead(codec.format, Oldest(polls[0]), First(codec, polls))| <= |Records(polls[..|polls| - 1])|
  {
    hide *;
    AllBefore(codec, polls);
    var last := polls[|polls| - 1];
    FirstGrows(codec, polls);
    MovedBefore(codec, polls);
    LastIsSmall(codec, polls);
    ServedMeans(codec, last);
    DrainedMeans(codec, last, Oldest(polls[0]), First(codec, polls), |Records(polls[..|polls| - 1])|, None);
  }

  lemma LastIsSmall<R>(codec: Codec<R>, polls: seq<Poll>)
    requires Followed(codec, polls) && AllSmall(codec, polls)
    ensures var l := Newest(polls[|polls| - 1]); Sound(codec.format, l) && Small(codec, l) && Faithful(codec, l)
  {
    hide Sound, Small, Faithful;
  }

  lemma ServedMeans<R>(codec: Codec<R>, p: Poll)
    requires Kept(codec, p) && p.result.Served? && ValidCursor(Oldest(p), codec.decode(p.cursor).value)
    requires RecordsOf(p.result) == []
    requires Sound(codec.format, Newest(p)) && Small(codec, Newest(p)) && Faithful(codec, Newest(p))
    ensures p.ledgers != [] && Drained(codec, p.ledgers, codec.decode(p.cursor).value, 0, None)
  {
    hide ValidCursor, Growing, Drained, Fits, IsPage, Small, Faithful, Sound;
    KeptLedgers(codec, p);
    var d, page := codec.decode(p.cursor).value, p.result.page;
    if page.omitted > 0 {
      SmallNeverStalls(codec, Newest(p), d, p.cursor, page);
    }
  }

  /** Every poll delivers a record, until everything that was committed at the first one is delivered. */
  lemma {:induction false} PollsProgress<R>(codec: Codec<R>, polls: seq<Poll>)
    requires Followed(codec, polls) && AllSmall(codec, polls) && polls[|polls| - 1].result.Served?
    ensures Sound(codec.format, Oldest(polls[0]))
    ensures |Records(polls)| >= |polls| || |Records(polls)| >= |Ahead(codec.format, Oldest(polls[0]), First(codec, polls))|
    decreases |polls|
  {
    hide *;
    AllBefore(codec, polls);
    FirstGrows(codec, polls);
    if |polls| > 1 {
      FollowedBefore(codec, polls);
      SmallBefore(codec, polls);
      PollsProgress(codec, polls[..|polls| - 1]);
    }
    if RecordsOf(polls[|polls| - 1].result) == [] {
      EmptyMeansAll(codec, polls);
    }
  }

  lemma SmallBefore<R>(codec: Codec<R>, polls: seq<Poll>)
    requires Followed(codec, polls) && AllSmall(codec, polls) && |polls| > 1
    requires Followed(codec, polls[..|polls| - 1])
    ensures AllSmall(codec, polls[..|polls| - 1])
  {
    hide Followed, Sound, Small, Faithful;
  }

  /** Everything is visited: as many polls as there were records ahead deliver all of them, each once and
      in order, whatever is added meanwhile. */
  lemma EverythingIsDelivered<R>(codec: Codec<R>, polls: seq<Poll>)
    requires Followed(codec, polls) && AllSmall(codec, polls) && polls[|polls| - 1].result.Served?
    requires Sound(codec.format, Oldest(polls[0]))
    requires |polls| >= |Ahead(codec.format, Oldest(polls[0]), First(codec, polls))|
    ensures var n := |Ahead(codec.format, Oldest(polls[0]), First(codec, polls))|;
            n <= |Records(polls)| && AreNext(codec, Oldest(polls[0]), First(codec, polls), Records(polls)[..n])
  {
    hide Kept, Moves, Grows, Sound, Small, Faithful, Following, RecordAt, IsNext;
    var f, l0, c, last := codec.format, Oldest(polls[0]), First(codec, polls), polls[|polls| - 1];
    PollsProgress(codec, polls);
    PollsDeliver(codec, polls);
    FirstGrows(codec, polls);
    NewestGrows(codec, last);
    GrowsOn(l0, Oldest(last), Newest(last));
    AreNextShrinks(codec, l0, Newest(last), c, Records(polls));
  }

  lemma AreNextShrinks<R>(codec: Codec<R>, l0: Ledger, l: Ledger, c: Cursor, records: seq<seq<byte>>)
    requires Sound(codec.format, l0) && Grows(l0, l) && ValidCursor(l0, c) && AreNext(codec, l, c, records)
    requires |Ahead(codec.format, l0, c)| <= |records|
    ensures AreNext(codec, l0, c, records[..|Ahead(codec.format, l0, c)|])
  {
    var f := codec.format;
    FollowingGrows(f, l0, l, c.session, c.position.sequence);
    forall i | 0 <= i < |Ahead(f, l0, c)|
      ensures IsNext(codec, l0, Ahead(f, l0, c)[i], records[i])
    {
      assert Ahead(f, l0, c)[i] == Ahead(f, l, c)[i];
      FollowingWithin(f, l0, c.session, c.position.sequence, i);
      IsNextGrows(codec, l0, l, Ahead(f, l0, c)[i], records[i]);
    }
  }

  lemma {:induction false} FollowingWithin<R>(f: Format<R>, l: Ledger, s: SessionId, q: nat, i: nat)
    requires Sound(f, l) && s in l.journals && q <= |l.journals[s]| && i < |Following(f, l, s, q)|
    ensures var (t, r) := Following(f, l, s, q)[i]; t in l.journals && r < |l.journals[t]|
    decreases l.count - l.born[s], |l.journals[s]| - q
  {
    if q < |l.journals[s]| {
      if i > 0 { FollowingWithin(f, l, s, q + 1, i - 1); }
    } else {
      FollowingWithin(f, l, l.successors[s], 0, i);
    }
  }

  lemma RefusedMeans<R>(codec: Codec<R>, p: Poll)
    requires Kept(codec, p) && p.result.Refused? && ValidCursor(Oldest(p), codec.decode(p.cursor).value)
    ensures p.ledgers != [] && p.result == Refused(Expired) && Drained(codec, p.ledgers, codec.decode(p.cursor).value, 0, p.tail)
  {
    hide ValidCursor, Growing, Drained;
    KeptLedgers(codec, p);
  }

  lemma KeptLedgers<R>(codec: Codec<R>, p: Poll)
    requires Kept(codec, p)
    ensures p.ledgers != [] && codec.decode(p.cursor).Some?
  {
    hide Answers, ValidCursor;
  }

  lemma AllBefore<R>(codec: Codec<R>, polls: seq<Poll>)
    requires Followed(codec, polls)
    ensures |polls| > 0 && codec.decode(polls[|polls| - 1].cursor).Some? && ValidCursor(Oldest(polls[0]), First(codec, polls))
    ensures Records(polls) == Records(polls[..|polls| - 1]) + RecordsOf(polls[|polls| - 1].result)
  {
    hide ValidCursor, Growing, Answers, Grows;
  }

  /** A followed cursor is refused, as expired, only when everything committed at the first poll has been
      delivered. */
  lemma RefusedAfterAll<R>(codec: Codec<R>, polls: seq<Poll>)
    requires Followed(codec, polls) && polls[|polls| - 1].result.Refused?
    ensures polls[|polls| - 1].result == Refused(Expired) && Sound(codec.format, Oldest(polls[0]))
    ensures |Ahead(codec.format, Oldest(polls[0]), First(codec, polls))| <= |Records(polls)|
  {
    hide *;
    AllBefore(codec, polls);
    var last := polls[|polls| - 1];
    FirstGrows(codec, polls);
    MovedBefore(codec, polls);
    RefusedMeans(codec, last);
    DrainedMeans(codec, last, Oldest(polls[0]), First(codec, polls), |Records(polls[..|polls| - 1])|, last.tail);
  }

  // ----- A store, and a poll that delivers its one record -----

  const ONE_LINE: seq<byte> := [NEWLINE]

  const ONE_JOURNAL := [Committed(0, ONE_LINE)]

  const ONE_LEDGER := Ledger(map["s" := ONE_JOURNAL], map[], map["s" := 0], 1)

  const BEFORE_ONE := Cursor("s", Position(0, [0, 0, 0, 0]))

  const AFTER_ONE := Cursor("s", Position(1, [1, 0, 0, 0]))

  const ONE_RECORD: seq<byte> := [65]

  function OneCodec(): Codec<int> {
    Codec(Format((line: seq<byte>) => Some(|line| - 1), (r: int) => r),
          (s: SessionId, r: int) => ONE_RECORD,
          (c: Cursor) => if c.position.sequence == 0 then "b" else "a",
          (text: string) => if text == "b" then Some(BEFORE_ONE) else if text == "a" then Some(AFTER_ONE) else None)
  }

  const ONE_PAGE := Page([ONE_RECORD], "a", 0)

  function OneWorld(active: bool): World {
    map["s" := Stored(Snapshot(1, [ONE_LINE, [], [], []], [1, 0, 0, 0]), None, active)]
  }

  const ONE_POLL := Poll([OneWorld(true)], [ONE_LEDGER], "b", 1, None, Served(ONE_PAGE))

  /** The record was delivered, its session has ended, and the newest session is another one. */
  const LATE_POLL := Poll([OneWorld(false)], [ONE_LEDGER], "a", 1, Some("t"), Refused(Expired))

  lemma OneIsSound()
    ensures Sound(OneCodec().format, ONE_LEDGER) && WellFormed(OneCodec().format, ONE_JOURNAL)
  {
    assert IsLine(ONE_LINE);
  }

  lemma OneEnds()
    ensures Ends(ONE_JOURNAL, 0) == [0, 0, 0, 0] && Ends(ONE_JOURNAL, 1) == [1, 0, 0, 0]
  {
    var j := ONE_JOURNAL;
    assert j[..0] == [] && j[..1] == j && j[..1][..0] == [];
    assert [] + ONE_LINE == ONE_LINE;
    assert StreamBytes(j[..1], 0) == ONE_LINE;
    forall i: nat | 0 < i < STREAMS
      ensures StreamBytes(j[..1], i) == []
    {
    }
  }

  lemma OneHolds(active: bool)
    ensures History(OneCodec().format, [OneWorld(active)], [ONE_LEDGER])
  {
    OneIsSound();
    var j := ONE_JOURNAL;
    assert j[..0] == [];
    forall i: nat | i < STREAMS
      ensures StreamBytes(j, i) == [ONE_LINE, [], [], []][i]
    {
      assert StreamBytes(j[..0], i) == [];
    }
    assert Commits(OneWorld(active)["s"].snapshot, j);
  }

  lemma OneIsFaithful()
    ensures ValidCursor(ONE_LEDGER, BEFORE_ONE) && ValidCursor(ONE_LEDGER, AFTER_ONE)
    ensures Faithful(OneCodec(), ONE_LEDGER)
  {
    OneEnds();
    forall c | ValidCursor(ONE_LEDGER, c)
      ensures c == BEFORE_ONE || c == AFTER_ONE
    {
      assert c.position.sequence == 0 || c.position.sequence == 1;
    }
  }

  lemma OneMoves()
    ensures Sound(OneCodec().format, ONE_LEDGER) && ValidCursor(ONE_LEDGER, BEFORE_ONE)
    ensures Ahead(OneCodec().format, ONE_LEDGER, BEFORE_ONE) == [("s", 0)]
    ensures Moves(OneCodec().format, ONE_LEDGER, BEFORE_ONE, 1, AFTER_ONE)
  {
    OneIsSound();
    OneIsFaithful();
    var f := OneCodec().format;
    assert Reaches(f, ONE_LEDGER, "s", 1, 0, "s", 1);
    assert Following(f, ONE_LEDGER, "s", 1) == [];
  }

  lemma OneCandidate()
    ensures IsCandidate(OneCodec(), ONE_LEDGER, BEFORE_ONE, 0, Candidate(ONE_RECORD, AFTER_ONE))
  {
    OneMoves();
  }

  lemma OneFits()
    ensures Fits(OneCodec(), ONE_LEDGER, BEFORE_ONE, "b", ONE_PAGE)
  {
    var codec, xs := OneCodec(), [Candidate(ONE_RECORD, AFTER_ONE)];
    OneCandidate();
    PrintedSize(ONE_PAGE);
    EnvelopeSize("a", 0);
    SumOfOne(ONE_PAGE.records);
    hide Print, IsCandidate, SumBytes;
    assert Jsons(xs[..1]) == [ONE_RECORD];
    assert PageOf(codec, "b", xs, 1) == ONE_PAGE;
    assert AreCandidates(codec, ONE_LEDGER, BEFORE_ONE, xs);
    assert Longest(codec, "b", xs, ONE_PAGE);
  }

  lemma OneIsFound(path: seq<SessionId>)
    ensures !Idle([OneWorld(true)], BEFORE_ONE, path)
  {
  }

  lemma OneIsKept()
    ensures Kept(OneCodec(), ONE_POLL)
  {
    var codec := OneCodec();
    OneMoves();
    OneIsFaithful();
    OneFits();
    OneHolds(true);
    OneIsPage();
    forall path
      ensures !Idle([OneWorld(true)], BEFORE_ONE, path)
    {
      OneIsFound(path);
    }
    hide Print, Reaches, Following, Fits, ValidPosition, ValidCursor, WellFormed, RecordAt, History, Idle, OneWorld, Sound, Grows, IsPage;
    assert Answers(codec, ONE_POLL.worlds, ONE_POLL.ledgers, BEFORE_ONE, "b", 1, None, Served(ONE_PAGE));
    HistoryIsGrowing(codec.format, ONE_POLL.worlds, ONE_POLL.ledgers);
  }

  lemma OneIsPage()
    ensures IsPage(OneCodec(), ONE_LEDGER, BEFORE_ONE, ONE_PAGE)
  {
    OneMoves();
    hide Reaches, Following, ValidPosition, WellFormed;
  }

  /** The promises are not empty: a stored record is served. */
  lemma DeliveryHappens()
    ensures var codec, polls := OneCodec(), [ONE_POLL];
            && Followed(codec, polls) && AllSmall(codec, polls) && polls[0].result.Served?
            && Sound(codec.format, Oldest(polls[0])) && |Ahead(codec.format, Oldest(polls[0]), First(codec, polls))| == 1
            && Records(polls) == [ONE_RECORD]
  {
    var polls := [ONE_POLL];
    OneMoves();
    OneIsFaithful();
    OneIsKept();
    hide Print, Reaches, Following, Fits, ValidPosition, WellFormed, RecordAt, History, Idle, OneWorld, Kept, Answers;
    assert polls[..0] == [];
    assert Small(OneCodec(), ONE_LEDGER);
  }

  /** And a cursor is refused: behind the record of an ended session, when another one is the newest. */
  lemma RefusalHappens()
    ensures Followed(OneCodec(), [LATE_POLL]) && LATE_POLL.result.Refused?
  {
    var codec, path := OneCodec(), ["s"];
    OneMoves();
    OneIsFaithful();
    OneHolds(false);
    var worlds := [OneWorld(false)];
    assert Idle(worlds, AFTER_ONE, path) && Ended(worlds, "s", path, Some("t"));
    assert Moves(codec.format, ONE_LEDGER, AFTER_ONE, 0, AFTER_ONE);
    assert Then([ONE_LEDGER], 0) == ONE_LEDGER;
    assert NothingAhead(codec.format, ONE_LEDGER, AFTER_ONE);
    hide Print, Reaches, Following, ValidPosition, WellFormed, History, Idle, Moves, NothingAhead;
    assert Drained(codec, [ONE_LEDGER], AFTER_ONE, 0, Some("t"));
    assert Kept(codec, LATE_POLL);
  }
}
