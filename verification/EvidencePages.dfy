/**
  Pages of durable evidence: following a cursor through a session and its rollover successors, under a
  record limit and an exact byte cap, while the store keeps growing.

  Cursor text and record projection are parameters; the page's JSON envelope is printed here, so that
  the byte cap is about real printed sizes.
*/
module EvidencePages {
  import opened Wrappers
  import opened Splitting
  import opened EvidenceTail

  const MAX_EVIDENCE_RESPONSE_BYTES := 262144
  const MAX_CURSOR_LENGTH := 2048
  const MAX_LIMIT := 500

  type SessionId = string

  datatype Cursor = Cursor(session: SessionId, position: Position)

  /** One stored session as a snapshot sees it. */
  datatype Stored = Stored(snapshot: Snapshot, successor: Option<SessionId>, active: bool)

  type World = map<SessionId, Stored>

  datatype Page = Page(records: seq<seq<byte>>, nextCursor: string, omitted: nat)

  datatype PageError = InvalidCursor | NoDurableSession | Expired | Cycle | Unreadable(error: ReadError)

  datatype PageResult = Served(page: Page) | Refused(error: PageError)

  /** What the store's pages depend on: record decoding, projection to JSON, and the cursor text. */
  datatype Codec<!R> = Codec(
    format: Format<R>,
    project: (SessionId, R) -> seq<byte>,
    encode: Cursor -> string,
    decode: string -> Option<Cursor>)

  function Beginning(s: SessionId): Cursor {
    Cursor(s, Position(0, [0, 0, 0, 0]))
  }

  // ----- What is there to be read -----

  /** All committed evidence: each session's journal, and the successor of each rolled-over session.
      `born` numbers sessions in order of creation, below `count`. */
  datatype Ledger = Ledger(
    journals: map<SessionId, seq<Committed>>,
    successors: map<SessionId, SessionId>,
    born: map<SessionId, nat>,
    count: nat)

  ghost predicate Sound<R>(f: Format<R>, l: Ledger) {
    && (forall s :: s in l.journals ==> s in l.born && l.born[s] < l.count && WellFormed(f, l.journals[s]))
    && (forall s :: s in l.successors ==>
          s in l.journals && l.successors[s] in l.journals && l.born[s] < l.born[l.successors[s]])
  }

  /** The store's files and metadata agree with the ledger. */
  ghost predicate Holds(w: World, l: Ledger) {
    && (forall s :: s in l.journals <==> s in w)
    && (forall s :: s in w ==> Commits(w[s].snapshot, l.journals[s]))
    && (forall s :: s in w ==> w[s].successor == if s in l.successors then Some(l.successors[s]) else None)
  }

  /** Sessions only gain records, and none once it has a successor. */
  ghost predicate Grows(l: Ledger, m: Ledger) {
    && l.count <= m.count
    && (forall s :: s in l.journals ==> s in m.journals && s in l.born && s in m.born && m.born[s] == l.born[s] && l.journals[s] <= m.journals[s])
    && (forall s :: s in l.successors ==> s in m.successors && m.successors[s] == l.successors[s])
    && (forall s :: s in l.successors && s in l.journals ==> m.journals[s] == l.journals[s])
  }

  /** The records from `q` of session `s` on, through all its successors. */
  ghost function Following<R>(f: Format<R>, l: Ledger, s: SessionId, q: nat): seq<(SessionId, nat)>
    requires Sound(f, l) && s in l.journals && q <= |l.journals[s]|
    decreases l.count - l.born[s], |l.journals[s]| - q
  {
    if q < |l.journals[s]| then [(s, q)] + Following(f, l, s, q + 1)
    else if s in l.successors then Following(f, l, l.successors[s], 0)
    else []
  }

  ghost predicate ValidCursor(l: Ledger, c: Cursor) {
    c.session in l.journals && ValidPosition(l.journals[c.session], c.position)
  }

  ghost function Ahead<R>(f: Format<R>, l: Ledger, c: Cursor): seq<(SessionId, nat)>
    requires Sound(f, l) && ValidCursor(l, c)
  {
    Following(f, l, c.session, c.position.sequence)
  }

  /** Growth never changes what was already ahead, it only adds behind it. */
  lemma {:induction false} FollowingGrows<R>(f: Format<R>, l: Ledger, m: Ledger, s: SessionId, q: nat)
    requires Sound(f, l) && Sound(f, m) && Grows(l, m) && s in l.journals && q <= |l.journals[s]|
    ensures q <= |m.journals[s]| && Following(f, l, s, q) <= Following(f, m, s, q)
    decreases l.count - l.born[s], |l.journals[s]| - q
  {
    if q < |l.journals[s]| {
      FollowingGrows(f, l, m, s, q + 1);
    } else if s in l.successors {
      FollowingGrows(f, l, m, l.successors[s], 0);
    }
  }

  lemma EndsGrow(j: seq<Committed>, k: seq<Committed>, p: Position)
    requires j <= k && ValidPosition(j, p)
    ensures ValidPosition(k, p)
  {
    assert j[..p.sequence] == k[..p.sequence];
  }

  /** A cursor stays valid, at the same place, however the store grows. */
  lemma CursorStaysValid(l: Ledger, m: Ledger, c: Cursor)
    requires Grows(l, m) && ValidCursor(l, c)
    ensures ValidCursor(m, c)
  {
    EndsGrow(l.journals[c.session], m.journals[c.session], c.position);
  }

  // ----- Moving a cursor -----

  /** From record `q` of session `s`, reading exactly `k` records leads to record `r` of session `t`. */
  ghost predicate Reaches<R>(f: Format<R>, l: Ledger, s: SessionId, q: nat, k: nat, t: SessionId, r: nat)
    requires Sound(f, l) && s in l.journals && q <= |l.journals[s]|
    decreases l.count - l.born[s], |l.journals[s]| - q
  {
    || (k == 0 && t == s && r == q)
    || (if q < |l.journals[s]| then k > 0 && Reaches(f, l, s, q + 1, k - 1, t, r)
        else s in l.successors && Reaches(f, l, l.successors[s], 0, k, t, r))
  }

  lemma {:induction false} ReachesGrows<R>(f: Format<R>, l: Ledger, m: Ledger, s: SessionId, q: nat, k: nat, t: SessionId, r: nat)
    requires Sound(f, l) && Sound(f, m) && Grows(l, m) && s in l.journals && q <= |l.journals[s]|
    requires Reaches(f, l, s, q, k, t, r)
    ensures q <= |m.journals[s]| && Reaches(f, m, s, q, k, t, r)
    decreases l.count - l.born[s], |l.journals[s]| - q
  {
    if !(k == 0 && t == s && r == q) {
      if q < |l.journals[s]| {
        ReachesGrows(f, l, m, s, q + 1, k - 1, t, r);
      } else {
        ReachesGrows(f, l, m, l.successors[s], 0, k, t, r);
      }
    }
  }

  /** Where the cursor ends up, exactly the remaining records are ahead; the last record read is the
      one just before it. */
  lemma {:induction false} ReachesAhead<R>(f: Format<R>, l: Ledger, s: SessionId, q: nat, k: nat, t: SessionId, r: nat)
    requires Sound(f, l) && s in l.journals && q <= |l.journals[s]|
    requires Reaches(f, l, s, q, k, t, r)
    ensures t in l.journals && r <= |l.journals[t]|
    ensures k <= |Following(f, l, s, q)| && Following(f, l, t, r) == Following(f, l, s, q)[k..]
    ensures k > 0 && r > 0 ==> Following(f, l, s, q)[k - 1] == (t, r - 1)
    decreases l.count - l.born[s], |l.journals[s]| - q
  {
    if !(k == 0 && t == s && r == q) {
      if q < |l.journals[s]| {
        ReachesAhead(f, l, s, q + 1, k - 1, t, r);
        if k == 1 && r > 0 { LastStep(f, l, s, q + 1, t, r); }
      } else {
        ReachesAhead(f, l, l.successors[s], 0, k, t, r);
      }
    }
  }

  lemma {:induction false} LastStep<R>(f: Format<R>, l: Ledger, s: SessionId, q: nat, t: SessionId, r: nat)
    requires Sound(f, l) && s in l.journals && q <= |l.journals[s]|
    requires Reaches(f, l, s, q, 0, t, r) && r > 0
    ensures t == s && r == q
    decreases l.count - l.born[s], |l.journals[s]| - q
  {
    if !(t == s && r == q) {
      LastStep(f, l, l.successors[s], 0, t, r);
    }
  }

  lemma {:induction false} ReachesOn<R>(f: Format<R>, l: Ledger, s: SessionId, q: nat, k: nat, t: SessionId, r: nat, n: nat, u: SessionId, x: nat)
    requires Sound(f, l) && s in l.journals && q <= |l.journals[s]|
    requires Reaches(f, l, s, q, k, t, r) && t in l.journals && r <= |l.journals[t]| && Reaches(f, l, t, r, n, u, x)
    ensures Reaches(f, l, s, q, k + n, u, x)
    decreases l.count - l.born[s], |l.journals[s]| - q
  {
    if !(k == 0 && t == s && r == q) {
      if q < |l.journals[s]| {
        ReachesOn(f, l, s, q + 1, k - 1, t, r, n, u, x);
      } else {
        ReachesOn(f, l, l.successors[s], 0, k, t, r, n, u, x);
      }
    }
  }

  /** Within one session. */
  lemma {:induction false} ReachesWithin<R>(f: Format<R>, l: Ledger, s: SessionId, q: nat, k: nat)
    requires Sound(f, l) && s in l.journals && q + k <= |l.journals[s]|
    ensures Reaches(f, l, s, q, k, s, q + k)
    decreases k
  {
    if k > 0 {
      ReachesWithin(f, l, s, q + 1, k - 1);
    }
  }

  /** The cursor `d` is what remains of `c` after reading `k` records. */
  ghost predicate Moves<R>(f: Format<R>, l: Ledger, c: Cursor, k: nat, d: Cursor) {
    && Sound(f, l) && ValidCursor(l, c) && ValidCursor(l, d)
    && Reaches(f, l, c.session, c.position.sequence, k, d.session, d.position.sequence)
  }

  lemma MovesGrows<R>(f: Format<R>, l: Ledger, m: Ledger, c: Cursor, k: nat, d: Cursor)
    requires Moves(f, l, c, k, d) && Sound(f, m) && Grows(l, m)
    ensures Moves(f, m, c, k, d)
  {
    CursorStaysValid(l, m, c);
    CursorStaysValid(l, m, d);
    ReachesGrows(f, l, m, c.session, c.position.sequence, k, d.session, d.position.sequence);
  }

  lemma MovesOn<R>(f: Format<R>, l: Ledger, c: Cursor, k: nat, d: Cursor, n: nat, e: Cursor)
    requires Moves(f, l, c, k, d) && Moves(f, l, d, n, e)
    ensures Moves(f, l, c, k + n, e)
  {
    ReachesOn(f, l, c.session, c.position.sequence, k, d.session, d.position.sequence, n, e.session, e.position.sequence);
  }

  lemma MovesAhead<R>(f: Format<R>, l: Ledger, c: Cursor, k: nat, d: Cursor)
    requires Moves(f, l, c, k, d)
    ensures k <= |Ahead(f, l, c)| && Ahead(f, l, d) == Ahead(f, l, c)[k..]
    ensures k > 0 && d.position.sequence > 0 ==> Ahead(f, l, c)[k - 1] == (d.session, d.position.sequence - 1)
  {
    ReachesAhead(f, l, c.session, c.position.sequence, k, d.session, d.position.sequence);
  }

  // ----- Following pages -----

  /** A sequence of polls: each starts at the cursor the one before returned, the store growing in
      between. */
  ghost predicate Polls<R>(f: Format<R>, ledgers: seq<Ledger>, cursors: seq<Cursor>, counts: seq<nat>) {
    && |cursors| == |ledgers| + 1 && |counts| == |ledgers|
    && (forall i :: 0 <= i < |ledgers| ==> Moves(f, ledgers[i], cursors[i], counts[i], cursors[i + 1]))
    && (forall i, k :: 0 <= i <= k < |ledgers| ==> Grows(ledgers[i], ledgers[k]))
  }

  ghost function Delivered<R>(f: Format<R>, ledgers: seq<Ledger>, cursors: seq<Cursor>, counts: seq<nat>): seq<(SessionId, nat)>
    requires Polls(f, ledgers, cursors, counts)
    decreases |ledgers|
  {
    if |ledgers| == 0 then []
    else
      var n := |ledgers| - 1;
      MovesAhead(f, ledgers[n], cursors[n], counts[n], cursors[n + 1]);
      Delivered(f, ledgers[..n], cursors[..n + 1], counts[..n]) + Ahead(f, ledgers[n], cursors[n])[..counts[n]]
  }

  /** Lossless paging: what the pages delivered, followed by what is still ahead of the last cursor, is
      exactly what is ahead of the first: every record once, in order, none skipped. */
  lemma {:induction false} PagesAreLossless<R>(f: Format<R>, ledgers: seq<Ledger>, cursors: seq<Cursor>, counts: seq<nat>)
    requires |ledgers| > 0 && Polls(f, ledgers, cursors, counts)
    ensures var l := ledgers[|ledgers| - 1];
            && Sound(f, l) && ValidCursor(l, cursors[0]) && ValidCursor(l, cursors[|ledgers|])
            && Delivered(f, ledgers, cursors, counts) + Ahead(f, l, cursors[|ledgers|]) == Ahead(f, l, cursors[0])
    decreases |ledgers|
  {
    var n := |ledgers| - 1;
    var l := ledgers[n];
    assert Moves(f, l, cursors[n], counts[n], cursors[n + 1]);
    MovesAhead(f, l, cursors[n], counts[n], cursors[n + 1]);
    if n == 0 {
      assert Delivered(f, ledgers[..n], cursors[..n + 1], counts[..n]) == [];
      Rejoin([], Ahead(f, l, cursors[0]), counts[0]);
    } else {
      var m := ledgers[n - 1];
      var before := Delivered(f, ledgers[..n], cursors[..n + 1], counts[..n]);
      PagesAreLossless(f, ledgers[..n], cursors[..n + 1], counts[..n]);
      assert before + Ahead(f, m, cursors[n]) == Ahead(f, m, cursors[0]);
      PollsMove(f, ledgers, cursors, counts, n);
      Rejoin(before, Ahead(f, l, cursors[n]), counts[n]);
      PollsAhead(f, m, l, cursors[0], cursors[n], before);
    }
  }

  lemma Rejoin<T>(before: seq<T>, ahead: seq<T>, k: nat)
    requires k <= |ahead|
    ensures (before + ahead[..k]) + ahead[k..] == before + ahead
  {
  }

  ghost predicate Later<R>(f: Format<R>, l: Ledger, c: Cursor, d: Cursor) {
    exists k: nat :: Moves(f, l, c, k, d)
  }

  /** The first cursor moves to any later one. */
  lemma {:induction false} PollsMove<R>(f: Format<R>, ledgers: seq<Ledger>, cursors: seq<Cursor>, counts: seq<nat>, n: nat)
    requires 0 < n <= |ledgers| && Polls(f, ledgers, cursors, counts)
    ensures Later(f, ledgers[n - 1], cursors[0], cursors[n])
    decreases n
  {
    if n == 1 {
      assert Moves(f, ledgers[0], cursors[0], counts[0], cursors[1]);
    } else {
      PollsMove(f, ledgers, cursors, counts, n - 1);
      var k: nat :| Moves(f, ledgers[n - 2], cursors[0], k, cursors[n - 1]);
      assert Moves(f, ledgers[n - 1], cursors[n - 1], counts[n - 1], cursors[n]);
      MovesGrows(f, ledgers[n - 2], ledgers[n - 1], cursors[0], k, cursors[n - 1]);
      MovesOn(f, ledgers[n - 1], cursors[0], k, cursors[n - 1], counts[n - 1], cursors[n]);
    }
  }

  /** What was delivered before a growth is still what lies between the two cursors after it. */
  lemma PollsAhead<R>(f: Format<R>, m: Ledger, l: Ledger, c: Cursor, d: Cursor, before: seq<(SessionId, nat)>)
    requires Later(f, m, c, d) && Sound(f, l) && Grows(m, l)
    requires before + Ahead(f, m, d) == Ahead(f, m, c)
    ensures ValidCursor(l, c) && ValidCursor(l, d) && before + Ahead(f, l, d) == Ahead(f, l, c)
  {
    var k: nat :| Moves(f, m, c, k, d);
    MovesAhead(f, m, c, k, d);
    assert |before| == k;
    MovesGrows(f, m, l, c, k, d);
    MovesAhead(f, l, c, k, d);
    FollowingGrows(f, m, l, c.session, c.position.sequence);
    assert before == Ahead(f, m, c)[..k] == Ahead(f, l, c)[..k];
  }

  // ----- The printed page -----

  /** ASCII text that JSON prints as it is, without escapes: the literals below, and cursors, which are
      base64. */
  function Ascii(text: string): (bytes: seq<byte>)
    ensures |bytes| == |text|
  {
    seq(|text|, (i: nat) requires i < |text| => ((text[i] as int) % 256) as byte)
  }

  function Decimal(n: nat): (digits: seq<byte>)
    ensures (n < 10 <==> |digits| == 1) && (n < 100 <==> |digits| <= 2) && (n < 1000 <==> |digits| <= 3) && digits != []
  {
    if n < 10 then [(48 + n) as byte] else Decimal(n / 10) + [(48 + n % 10) as byte]
  }

  function Commas(records: seq<seq<byte>>): seq<byte> {
    if records == [] then []
    else if |records| == 1 then records[0]
    else Commas(records[..|records| - 1]) + Ascii(",") + records[|records| - 1]
  }

  /** `EvidencePage.compact_json`: the page's exact bytes. */
  function Print(page: Page): seq<byte> {
    Ascii("{\"ok\":true,\"records\":[") + Commas(page.records)
    + Ascii("],\"next_cursor\":\"") + Ascii(page.nextCursor) + Ascii("\",\"omitted_records\":") + Decimal(page.omitted) + Ascii("}")
  }

  function SumBytes(records: seq<seq<byte>>): nat {
    if records == [] then 0 else SumBytes(records[..|records| - 1]) + |records[|records| - 1]|
  }

  lemma {:induction false} CommasSize(records: seq<seq<byte>>)
    ensures |Commas(records)| == SumBytes(records) + if records == [] then 0 else |records| - 1
  {
    if |records| == 1 {
      assert records[..0] == [];
    } else if |records| > 1 {
      CommasSize(records[..|records| - 1]);
    }
  }

  /** The size arithmetic of the page loop is the size of what is printed: the envelope, with 60 bytes of its own,
      records, and commas between them. */
  lemma PrintedSize(page: Page)
    ensures |Print(Page([], page.nextCursor, page.omitted))| == 60 + |page.nextCursor| + |Decimal(page.omitted)|
    ensures |Print(page)| ==
            |Print(Page([], page.nextCursor, page.omitted))| + SumBytes(page.records)
            + if page.records == [] then 0 else |page.records| - 1
  {
    CommasSize(page.records);
  }

  lemma EmptyPageFits(cursor: string, omitted: nat)
    requires |cursor| <= MAX_CURSOR_LENGTH && omitted <= MAX_LIMIT
    ensures |Print(Page([], cursor, omitted))| <= MAX_EVIDENCE_RESPONSE_BYTES
  {
  }

  // ----- Collecting candidates -----

  datatype Candidate = Candidate(json: seq<byte>, after: Cursor)

  /** Candidate `i` is the record at that place ahead of `c`, with the cursor just past it. */
  ghost predicate IsCandidate<R>(codec: Codec<R>, l: Ledger, c: Cursor, i: nat, x: Candidate) {
    && Moves(codec.format, l, c, i + 1, x.after) && x.after.position.sequence > 0
    && var s, q := x.after.session, x.after.position.sequence - 1;
       x.json == codec.project(s, RecordAt(codec.format, l.journals[s], q))
  }

  ghost predicate AreCandidates<R>(codec: Codec<R>, l: Ledger, c: Cursor, xs: seq<Candidate>) {
    forall i :: 0 <= i < |xs| ==> IsCandidate(codec, l, c, i, xs[i])
  }

  function ToCandidates<R>(codec: Codec<R>, s: SessionId, items: seq<Item<R>>): (xs: seq<Candidate>)
    ensures |xs| == |items|
  {
    seq(|items|, (k: nat) requires k < |items| => Candidate(codec.project(s, items[k].record), Cursor(s, items[k].after)))
  }

  /** One session's slice, read against the ledger of its snapshot, continues the candidates for every
      later ledger. */
  lemma BatchContinues<R>(codec: Codec<R>, k: Ledger, l: Ledger, c: Cursor, xs: seq<Candidate>, at: Cursor, items: seq<Item<R>>)
    requires Sound(codec.format, k) && Sound(codec.format, l) && Grows(k, l) && ValidCursor(k, at)
    requires Moves(codec.format, l, c, |xs|, at) && AreCandidates(codec, l, c, xs)
    requires IsSlice(codec.format, k.journals[at.session], at.position.sequence, items)
    ensures AreCandidates(codec, l, c, xs + ToCandidates(codec, at.session, items))
    ensures |items| > 0 ==>
              var next := Cursor(at.session, items[|items| - 1].after);
              ValidCursor(k, next) && Moves(codec.format, l, c, |xs| + |items|, next)
              && next.position.sequence == at.position.sequence + |items|
  {
    var f, ys := codec.format, ToCandidates(codec, at.session, items);
    forall i | 0 <= i < |items|
      ensures ValidCursor(k, ys[i].after) && IsCandidate(codec, l, c, |xs| + i, ys[i])
    {
      ItemContinues(codec, k, l, c, |xs|, at, items, i);
    }
    forall i | 0 <= i < |xs + ys|
      ensures IsCandidate(codec, l, c, i, (xs + ys)[i])
    {
      if i >= |xs| {
        assert (xs + ys)[i] == ys[i - |xs|];
        assert IsCandidate(codec, l, c, |xs| + (i - |xs|), ys[i - |xs|]);
      }
    }
    if |items| > 0 {
      assert ys[|items| - 1].after == Cursor(at.session, items[|items| - 1].after);
      assert IsCandidate(codec, l, c, |xs| + (|items| - 1), ys[|items| - 1]);
    }
  }

  lemma ItemContinues<R>(codec: Codec<R>, k: Ledger, l: Ledger, c: Cursor, n: nat, at: Cursor, items: seq<Item<R>>, i: nat)
    requires Sound(codec.format, k) && Sound(codec.format, l) && Grows(k, l) && ValidCursor(k, at)
    requires Moves(codec.format, l, c, n, at)
    requires IsSlice(codec.format, k.journals[at.session], at.position.sequence, items) && i < |items|
    ensures var x := ToCandidates(codec, at.session, items)[i];
            ValidCursor(k, x.after) && IsCandidate(codec, l, c, n + i, x)
            && x.after.position.sequence == at.position.sequence + i + 1
  {
    var f, s, q := codec.format, at.session, at.position.sequence;
    var d := Cursor(s, items[i].after);
    assert items[i] == ItemAt(f, k.journals[s], q + i);
    assert ValidCursor(k, d);
    CursorStaysValid(k, l, d);
    ReachesWithin(f, l, s, q, i + 1);
    assert Moves(f, l, at, i + 1, d);
    MovesOn(f, l, c, n, at, i + 1, d);
    assert l.journals[s][q + i] == k.journals[s][q + i];
  }

  // ----- The store during one call -----

  /** What the store holds at each opening of a session during one call; the last entry lasts. */
  ghost predicate History<R>(f: Format<R>, worlds: seq<World>, ledgers: seq<Ledger>) {
    && |worlds| == |ledgers| > 0
    && (forall k :: 0 <= k < |worlds| ==> Sound(f, ledgers[k]) && Holds(worlds[k], ledgers[k]))
    && (forall i, k :: 0 <= i <= k < |ledgers| ==> Grows(ledgers[i], ledgers[k]))
  }

  function Last(n: nat, k: nat): nat
    requires n > 0
  {
    if k < n then k else n - 1
  }

  /** Reading has got to `at` after `|xs|` records. */
  ghost predicate Progress<R>(codec: Codec<R>, l: Ledger, c: Cursor, xs: seq<Candidate>, at: Cursor) {
    Moves(codec.format, l, c, |xs|, at) && AreCandidates(codec, l, c, xs)
  }

  function Reached<R>(at: Cursor, items: seq<Item<R>>): Cursor {
    if |items| > 0 then Cursor(at.session, items[|items| - 1].after) else at
  }

  lemma VisitContinues<R>(codec: Codec<R>, k: Ledger, l: Ledger, c: Cursor, xs: seq<Candidate>, at: Cursor, items: seq<Item<R>>)
    requires Sound(codec.format, k) && Sound(codec.format, l) && Grows(k, l) && ValidCursor(k, at)
    requires Progress(codec, l, c, xs, at)
    requires IsSlice(codec.format, k.journals[at.session], at.position.sequence, items)
    ensures ValidCursor(k, Reached(at, items)) && Progress(codec, l, c, xs + ToCandidates(codec, at.session, items), Reached(at, items))
    ensures Reached(at, items).position.sequence == at.position.sequence + |items|
  {
    BatchContinues(codec, k, l, c, xs, at, items);
    if |items| == 0 {
      assert xs + ToCandidates(codec, at.session, items) == xs;
    }
    hide AreCandidates, Moves, ToCandidates, ValidCursor;
  }

  lemma ReachedShape<R>(f: Format<R>, q: nat, at: Cursor, items: seq<Item<R>>)
    requires Numbered(f, q, items) && |at.position.offsets| == STREAMS
    ensures Reached(at, items).session == at.session && |Reached(at, items).position.offsets| == STREAMS
  {
  }

  /** What the ledger says about a stored session. */
  lemma StoredMeans<R>(f: Format<R>, w: World, k: Ledger, s: SessionId)
    requires s in w && Sound(f, k) && Holds(w, k)
    ensures s in k.journals && Commits(w[s].snapshot, k.journals[s]) && WellFormed(f, k.journals[s])
    ensures w[s].snapshot.nextSequence == |k.journals[s]|
    ensures w[s].successor.Some? <==> s in k.successors
    ensures w[s].successor.Some? ==> w[s].successor.value in w && w[s].successor.value == k.successors[s]
  {
  }

  /** Why the store, as first opened, refuses to read from `c` at all. */
  ghost function Refusal(w: World, c: Cursor): Option<PageError> {
    if c.session !in w then Some(Expired)
    else
      var s := w[c.session].snapshot;
      if |s.streams| != STREAMS || |s.lengths| != STREAMS || |c.position.offsets| != STREAMS then None
      else if c.position.sequence > s.nextSequence || BeyondLengths(c.position.offsets, s.lengths) then Some(Unreadable(BeyondTail))
      else if !AtBoundaries(s, c.position.offsets) then Some(Unreadable(NotAtBoundary))
      else None
  }

  /** Visit one session: read what fits, and say where to go on. */
  method VisitSession<R>(codec: Codec<R>, world: World, at: Cursor, room: nat, ghost k: Ledger, ghost l: Ledger, ghost c: Cursor, ghost xs: seq<Candidate>)
    returns (batch: seq<Candidate>, reached: Cursor, successor: Option<SessionId>, error: Option<PageError>)
    requires at.session in world && |at.position.offsets| == STREAMS
    requires Sound(codec.format, k) && Sound(codec.format, l) && Holds(world, k) && Grows(k, l)
    ensures error.None? ==>
              && |batch| <= room && reached.session == at.session && |reached.position.offsets| == STREAMS
              && (successor.Some? ==> successor == world[at.session].successor && successor.value in world)
    ensures ValidCursor(k, at) ==> error.None?
    ensures Refusal(world, at).Some? ==> error == Refusal(world, at)
    ensures ValidCursor(k, at) && Progress(codec, l, c, xs, at) ==>
              && ValidCursor(k, reached) && Progress(codec, l, c, xs + batch, reached)
              && reached.position.sequence == at.position.sequence + |batch|
              && (|batch| < room ==> reached.position.sequence == |k.journals[at.session]|)
              && (successor.Some? <==> reached.position.sequence == |k.journals[at.session]| && at.session in k.successors)
  {
    var stored := world[at.session];
    StoredMeans(codec.format, world, k, at.session);
    ghost var j := k.journals[at.session];
    assert ValidCursor(k, at) ==> ValidPosition(j, at.position) && at.position.sequence <= |j|;
    assert forall d: Cursor :: ValidCursor(k, d) && d.session == at.session ==> d.position.sequence <= |j|;
    hide *;
    RefusalMeans(world, at);
    batch, reached, successor, error := [], at, None, None;
    var r := EvidenceTail.Read(codec.format, stored.snapshot, at.position, room, j);
    if r.Failed? {
      error := Some(Unreadable(r.error));
      return;
    }
    if ValidCursor(k, at) && Progress(codec, l, c, xs, at) {
      VisitContinues(codec, k, l, c, xs, at, r.items);
    }
    ReachedShape(codec.format, at.position.sequence, at, r.items);
    batch, reached := ToCandidates(codec, at.session, r.items), Reached(at, r.items);
    if reached.position.sequence >= stored.snapshot.nextSequence {
      successor := stored.successor;
    }
  }

  /** The ledger behind the `k`-th opening. */
  ghost function Then(ledgers: seq<Ledger>, k: nat): Ledger
    requires |ledgers| > 0
  {
    ledgers[Last(|ledgers|, k)]
  }

  function WorldThen(worlds: seq<World>, k: nat): World
    requires |worlds| > 0
  {
    worlds[Last(|worlds|, k)]
  }

  lemma HistoryAt<R>(f: Format<R>, worlds: seq<World>, ledgers: seq<Ledger>, k: nat)
    requires History(f, worlds, ledgers)
    ensures |worlds| == |ledgers| > 0
    ensures var l, now, next := ledgers[|ledgers| - 1], Then(ledgers, k), Then(ledgers, k + 1);
            && Sound(f, now) && Sound(f, next) && Sound(f, l) && Holds(WorldThen(worlds, k), now)
            && Grows(now, l) && Grows(now, next)
    ensures WorldThen(worlds, k).Keys <= worlds[|worlds| - 1].Keys
  {
    var a, b := Last(|ledgers|, k), Last(|ledgers|, k + 1);
    assert Grows(ledgers[a], ledgers[|ledgers| - 1]) && Grows(ledgers[a], ledgers[b]);
    assert Holds(worlds[a], ledgers[a]) && Holds(worlds[|worlds| - 1], ledgers[|ledgers| - 1]);
  }

  /** Sessions visited so far are older than the one to visit next. */
  ghost predicate Older(l: Ledger, visited: set<SessionId>, s: SessionId) {
    s in l.born && forall v :: v in visited ==> v in l.born && l.born[v] < l.born[s]
  }

  ghost predicate NothingAhead<R>(f: Format<R>, l: Ledger, c: Cursor) {
    Sound(f, l) && ValidCursor(l, c) && Ahead(f, l, c) == []
  }

  lemma BeginningIsValid(l: Ledger, s: SessionId)
    requires s in l.journals
    ensures ValidCursor(l, Beginning(s))
  {
    assert l.journals[s][..0] == [];
    assert Ends(l.journals[s], 0) == [0, 0, 0, 0];
  }

  /** Moving on to the successor of an exhausted session. */
  lemma SuccessorContinues<R>(codec: Codec<R>, k: Ledger, next: Ledger, l: Ledger, c: Cursor, xs: seq<Candidate>, at: Cursor, visited: set<SessionId>)
    requires Sound(codec.format, k) && Sound(codec.format, l) && Grows(k, l) && Grows(k, next)
    requires ValidCursor(k, at) && Progress(codec, l, c, xs, at) && Older(l, visited, at.session)
    requires at.position.sequence == |k.journals[at.session]| && at.session in k.successors
    ensures var d := Beginning(k.successors[at.session]);
            ValidCursor(next, d) && Progress(codec, l, c, xs, d) && Older(l, visited + {at.session}, d.session)
  {
    var f, s := codec.format, k.successors[at.session];
    var d := Beginning(s);
    BeginningIsValid(k, s);
    CursorStaysValid(k, next, d);
    CursorStaysValid(k, l, d);
    assert Reaches(f, l, at.session, at.position.sequence, 0, s, 0);
    MovesOn(f, l, c, |xs|, at, 0, d);
  }

  lemma Exhausted<R>(f: Format<R>, k: Ledger, at: Cursor)
    requires Sound(f, k) && ValidCursor(k, at)
    requires at.position.sequence == |k.journals[at.session]| && at.session !in k.successors
    ensures NothingAhead(f, k, at)
  {
  }

  lemma Opens(k: Ledger, w: World, at: Cursor, l: Ledger, visited: set<SessionId>)
    requires Holds(w, k) && ValidCursor(k, at) && Older(l, visited, at.session)
    ensures at.session in w && at.session !in visited
  {
  }

  /** Where the loop stands before its opening number `opens`, or, once there is no more to visit,
      after it. */
  ghost predicate Stands<R>(codec: Codec<R>, ledgers: seq<Ledger>, start: Cursor, limit: nat, visited: set<SessionId>,
                            xs: seq<Candidate>, at: Cursor, more: bool, opens: nat)
    requires |ledgers| > 0
  {
    && Progress(codec, ledgers[|ledgers| - 1], start, xs, at)
    && (more ==> ValidCursor(Then(ledgers, opens), at) && Older(ledgers[|ledgers| - 1], visited, at.session))
    && (!more && |xs| < limit ==> NothingAhead(codec.format, Then(ledgers, opens), at))
  }

  lemma ValidWithin(k: Ledger, at: Cursor)
    requires ValidCursor(k, at)
    ensures at.session in k.journals && at.position.sequence <= |k.journals[at.session]|
  {
  }

  lemma RefusalMeans(w: World, c: Cursor)
    requires c.session in w && |c.position.offsets| == STREAMS
    ensures var s := w[c.session].snapshot;
            |s.streams| == |s.lengths| == STREAMS ==>
              Refusal(w, c) ==
              if c.position.sequence > s.nextSequence || BeyondLengths(c.position.offsets, s.lengths) then Some(Unreadable(BeyondTail))
              else if !AtBoundaries(s, c.position.offsets) then Some(Unreadable(NotAtBoundary)) else None
  {
    hide BeyondLengths, AtBoundaries;
  }

  // ----- The sessions that a call opens -----

  /** What one opening of session `at.session`, found in `world`, did. */
  ghost predicate Turn(world: World, limit: nat, xs: seq<Candidate>, at: Cursor, ys: seq<Candidate>, to: Cursor, more: bool, active: bool) {
    && at.session in world
    && var stored := world[at.session];
       && active == stored.active && xs <= ys && (ys == xs <==> stored.snapshot.nextSequence == at.position.sequence)
       && (more ==> stored.successor == Some(to.session) && to == Beginning(to.session))
       && (!more ==> to.session == at.session && (|ys| < limit ==> stored.successor == None))
  }

  /** One session after another, each the successor of the one before as the store was at that opening. */
  ghost predicate Chain(worlds: seq<World>, first: SessionId, path: seq<SessionId>)
    requires |worlds| > 0
  {
    && |path| > 0 && path[0] == first
    && (forall i :: 0 <= i < |path| ==> path[i] in WorldThen(worlds, i))
    && (forall i, k :: 0 <= i < |path| - 1 && k == i + 1 ==> WorldThen(worlds, i)[path[i]].successor == Some(path[k]))
  }

  /** Every session of the chain held, when it was opened, nothing from where it is read on. */
  ghost predicate Empty(worlds: seq<World>, c: Cursor, path: seq<SessionId>)
    requires |worlds| > 0 && Chain(worlds, c.session, path)
  {
    forall i :: 0 <= i < |path| ==>
      WorldThen(worlds, i)[path[i]].snapshot.nextSequence == if i == 0 then c.position.sequence else 0
  }

  /** The last session of a chain, as the store held it when it was opened. */
  ghost function LastStored(worlds: seq<World>, first: SessionId, path: seq<SessionId>): Stored
    requires |worlds| > 0 && Chain(worlds, first, path)
  {
    WorldThen(worlds, |path| - 1)[path[|path| - 1]]
  }

  /** From `c` on, the store held nothing to read: the sessions opened are `path`, to the end. */
  ghost predicate Idle(worlds: seq<World>, c: Cursor, path: seq<SessionId>)
    requires |worlds| > 0
  {
    Chain(worlds, c.session, path) && LastStored(worlds, c.session, path).successor.None? && Empty(worlds, c, path)
  }

  /** There is a durable session, the chain does not end in it, and where it ends is no longer active. */
  ghost predicate Ended(worlds: seq<World>, first: SessionId, path: seq<SessionId>, tail: Option<SessionId>)
    requires |worlds| > 0 && Chain(worlds, first, path)
  {
    tail.Some? && path[|path| - 1] != tail.value && !LastStored(worlds, first, path).active
  }

  /** A chain that ends leaves no choice. */
  lemma {:induction false} ChainsAgree(worlds: seq<World>, first: SessionId, path: seq<SessionId>, other: seq<SessionId>, i: nat)
    requires |worlds| > 0 && Chain(worlds, first, path) && Chain(worlds, first, other) && i < |other|
    requires LastStored(worlds, first, path).successor.None?
    ensures i < |path| && path[i] == other[i]
  {
    hide WorldThen;
    if i > 0 {
      ChainsAgree(worlds, first, path, other, i - 1);
      assert WorldThen(worlds, i - 1)[other[i - 1]].successor == Some(other[i]);
      if i < |path| { assert WorldThen(worlds, i - 1)[path[i - 1]].successor == Some(path[i]); }
    }
  }

  lemma IdleIsUnique(worlds: seq<World>, c: Cursor, path: seq<SessionId>, other: seq<SessionId>)
    requires |worlds| > 0 && Idle(worlds, c, path) && Idle(worlds, c, other)
    ensures path == other
  {
    hide Empty, LastStored;
    ChainsAgree(worlds, c.session, path, other, |other| - 1);
    ChainsAgree(worlds, c.session, other, path, |path| - 1);
    forall i | 0 <= i < |path|
      ensures path[i] == other[i]
    {
      ChainsAgree(worlds, c.session, path, other, i);
    }
  }

  /** Opening a session that holds something shows that the store was not idle. */
  lemma NotIdle(worlds: seq<World>, c: Cursor, path: seq<SessionId>, other: seq<SessionId>)
    requires |worlds| > 0 && Chain(worlds, c.session, path) && !Empty(worlds, c, path)
    ensures !Idle(worlds, c, other)
  {
    hide WorldThen, LastStored;
    if Idle(worlds, c, other) {
      var i :| 0 <= i < |path| && WorldThen(worlds, i)[path[i]].snapshot.nextSequence != if i == 0 then c.position.sequence else 0;
      ChainsAgree(worlds, c.session, other, path, i);
    }
  }

  /** The sessions opened so far, and what they yielded. */
  ghost predicate Walked(worlds: seq<World>, start: Cursor, limit: nat, path: seq<SessionId>, xs: seq<Candidate>, at: Cursor, more: bool, active: bool)
    requires |worlds| > 0
  {
    if path == [] then xs == [] && at == start && more
    else
      && Chain(worlds, start.session, path) && (xs == [] <==> Empty(worlds, start, path))
      && var last := LastStored(worlds, start.session, path);
         && active == last.active
         && (more ==> last.successor == Some(at.session) && at == Beginning(at.session))
         && (!more ==> at.session == path[|path| - 1] && (|xs| < limit ==> last.successor == None))
  }

  lemma WalkOn(worlds: seq<World>, start: Cursor, limit: nat, path: seq<SessionId>, xs: seq<Candidate>, at: Cursor, before: bool,
               ys: seq<Candidate>, to: Cursor, more: bool, active: bool)
    requires |worlds| > 0 && Walked(worlds, start, limit, path, xs, at, true, before)
    requires Turn(WorldThen(worlds, |path|), limit, xs, at, ys, to, more, active)
    ensures Walked(worlds, start, limit, path + [at.session], ys, to, more, active)
  {
    hide WorldThen, Empty;
    var n, longer := |path|, path + [at.session];
    assert longer[n] == at.session && forall i :: 0 <= i < n ==> longer[i] == path[i];
    assert Chain(worlds, start.session, longer);
    EmptySnoc(worlds, start, path, at.session);
  }

  lemma EmptySnoc(worlds: seq<World>, c: Cursor, path: seq<SessionId>, session: SessionId)
    requires |worlds| > 0 && Chain(worlds, c.session, path + [session]) && (path != [] ==> Chain(worlds, c.session, path))
    ensures Empty(worlds, c, path + [session]) <==>
              && (path != [] ==> Empty(worlds, c, path))
              && WorldThen(worlds, |path|)[session].snapshot.nextSequence == if path == [] then c.position.sequence else 0
  {
    hide WorldThen, Chain;
    var longer := path + [session];
    assert longer[|path|] == session && forall i :: 0 <= i < |path| ==> longer[i] == path[i];
  }

  /** Nothing was found exactly when the store was idle, and then the whole chain was opened. */
  lemma WalkEnds(worlds: seq<World>, start: Cursor, limit: nat, path: seq<SessionId>, xs: seq<Candidate>, at: Cursor, more: bool, active: bool)
    requires |worlds| > 0 && limit > 0 && Walked(worlds, start, limit, path, xs, at, more, active) && (!more || |xs| >= limit)
    ensures if xs == [] then FoundNothing(worlds, start, path, at, active) else forall p :: !Idle(worlds, start, p)
  {
    hide Chain, Empty, LastStored;
    if xs == [] {
      assert Idle(worlds, start, path);
    } else {
      forall p
        ensures !Idle(worlds, start, p)
      {
        NotIdle(worlds, start, path, p);
      }
    }
  }

  ghost predicate FoundNothing(worlds: seq<World>, start: Cursor, path: seq<SessionId>, at: Cursor, active: bool)
    requires |worlds| > 0
  {
    Idle(worlds, start, path) && at.session == path[|path| - 1] && active == LastStored(worlds, start.session, path).active
  }

  /** One turn of the loop: open the session, read, and choose between stopping and the successor. */
  method Visit<R>(codec: Codec<R>, worlds: seq<World>, start: Cursor, limit: nat, visited: set<SessionId>, xs: seq<Candidate>, at: Cursor,
                  opens: nat, ghost ledgers: seq<Ledger>, ghost valid: bool)
    returns (ys: seq<Candidate>, to: Cursor, more: bool, active: bool, error: Option<PageError>)
    requires History(codec.format, worlds, ledgers) && |worlds| == |ledgers| > 0
    requires |at.position.offsets| == STREAMS && |xs| < limit
    requires valid ==> Stands(codec, ledgers, start, limit, visited, xs, at, true, opens)
    ensures error.None? ==>
              && |ys| <= limit && |to.position.offsets| == STREAMS
              && at.session in worlds[|worlds| - 1].Keys && at.session !in visited
    ensures valid ==>
              && error.None?
              && Stands(codec, ledgers, start, limit, visited + {at.session}, ys, to, more, if more then opens + 1 else opens)
              && Turn(WorldThen(worlds, opens), limit, xs, at, ys, to, more, active)
    ensures at.session !in visited && Refusal(WorldThen(worlds, opens), at).Some? ==> error == Refusal(WorldThen(worlds, opens), at)
  {
    ghost var f, l, k := codec.format, ledgers[|ledgers| - 1], Then(ledgers, opens);
    var world := WorldThen(worlds, opens);
    ys, to, more, active, error := xs, at, false, false, None;
    HistoryAt(f, worlds, ledgers, opens);
    if valid { Opens(k, world, at, l, visited); ValidWithin(k, at); }
    hide History, Sound, Holds, Grows, Progress, ValidCursor, Older, NothingAhead, WorldThen, Then, Turn, Refusal;
    MissingIsRefused(world, at);
    if at.session in visited {
      error := Some(Cycle);
      return;
    }
    if at.session !in world {
      error := Some(Expired);
      return;
    }
    active := world[at.session].active;
    var batch, reached, successor;
    batch, reached, successor, error := VisitSession(codec, world, at, limit - |xs|, k, l, start, xs);
    if error.Some? { return; }
    StoredMeans(f, world, k, at.session);
    ys, more := xs + batch, successor.Some?;
    if valid { ValidWithin(k, reached); }
    if successor.None? {
      to := reached;
      if valid && |ys| < limit { Exhausted(f, k, reached); }
    } else {
      to := Beginning(successor.value);
      if valid { SuccessorContinues(codec, k, Then(ledgers, opens + 1), l, start, ys, reached, visited); }
    }
    if valid { Turned(world, limit, xs, at, batch, reached, successor); }
  }

  lemma MissingIsRefused(w: World, c: Cursor)
    ensures c.session !in w ==> Refusal(w, c) == Some(Expired)
  {
  }

  lemma Turned(world: World, limit: nat, xs: seq<Candidate>, at: Cursor, batch: seq<Candidate>, reached: Cursor, successor: Option<SessionId>)
    requires at.session in world && reached.session == at.session && |xs| < limit && |xs| + |batch| <= limit
    requires var end := world[at.session].snapshot.nextSequence;
             && reached.position.sequence == at.position.sequence + |batch| <= end
             && (|xs| + |batch| < limit ==> reached.position.sequence == end)
             && successor == if reached.position.sequence == end then world[at.session].successor else None
    ensures Turn(world, limit, xs, at, xs + batch, if successor.Some? then Beginning(successor.value) else reached, successor.Some?, world[at.session].active)
  {
    if batch == [] { assert xs + batch == xs; } else { assert |xs + batch| > |xs|; }
  }

  /** The loop over a session and its rollover successors, each opened as the store then is. */
  method Collect<R>(codec: Codec<R>, worlds: seq<World>, start: Cursor, limit: nat, ghost ledgers: seq<Ledger>)
    returns (xs: seq<Candidate>, at: Cursor, active: bool, error: Option<PageError>, ghost seen: nat, ghost path: seq<SessionId>)
    requires History(codec.format, worlds, ledgers) && |start.position.offsets| == STREAMS && 0 < limit
    ensures |worlds| == |ledgers| > 0
    ensures error.None? ==> |xs| <= limit && |at.position.offsets| == STREAMS
    ensures ValidCursor(ledgers[0], start) ==>
              && error.None? && Progress(codec, ledgers[|ledgers| - 1], start, xs, at)
              && (|xs| < limit ==> NothingAhead(codec.format, Then(ledgers, seen), at))
              && (if xs == [] then FoundNothing(worlds, start, path, at, active) else forall p :: !Idle(worlds, start, p))
    ensures Refusal(WorldThen(worlds, 0), start).Some? ==> error == Refusal(WorldThen(worlds, 0), start)
  {
    hide *;
    HistoryAt(codec.format, worlds, ledgers, 0);
    ghost var valid := ValidCursor(ledgers[0], start);
    xs, at, active, error, seen, path := [], start, false, None, 0, [];
    var visited: set<SessionId> := {};
    var opens, more := 0, true;
    if valid { StartsThere(codec, worlds, ledgers, start, limit, active); }
    while more && |xs| < limit
      invariant |at.position.offsets| == STREAMS && error.None? && |xs| <= limit
      invariant visited <= worlds[|worlds| - 1].Keys && (more ==> seen == opens)
      invariant valid ==> Stands(codec, ledgers, start, limit, visited, xs, at, more, seen)
      invariant valid ==> |path| == opens && Walked(worlds, start, limit, path, xs, at, more, active)
      invariant Refusal(WorldThen(worlds, 0), start).Some? ==> more && xs == [] && at == start && visited == {} && opens == 0
      decreases more, worlds[|worlds| - 1].Keys - visited
    {
      var session := at.session;
      ghost var found, from, before := xs, at, active;
      xs, at, more, active, error := Visit(codec, worlds, start, limit, visited, xs, at, opens, ledgers, valid);
      if error.Some? { return; }
      if valid { WalkOn(worlds, start, limit, path, found, from, before, xs, at, more, active); }
      path := path + [session];
      visited := visited + {session};
      opens := opens + 1;
      seen := if more then opens else opens - 1;
    }
    if valid {
      Stood(codec, ledgers, start, limit, visited, xs, at, more, seen);
      WalkEnds(worlds, start, limit, path, xs, at, more, active);
    }
  }

  lemma Stood<R>(codec: Codec<R>, ledgers: seq<Ledger>, start: Cursor, limit: nat, visited: set<SessionId>,
                 xs: seq<Candidate>, at: Cursor, more: bool, opens: nat)
    requires |ledgers| > 0 && Stands(codec, ledgers, start, limit, visited, xs, at, more, opens) && (!more || |xs| >= limit)
    ensures Progress(codec, ledgers[|ledgers| - 1], start, xs, at)
    ensures |xs| < limit ==> NothingAhead(codec.format, Then(ledgers, opens), at)
  {
  }

  lemma StartsThere<R>(codec: Codec<R>, worlds: seq<World>, ledgers: seq<Ledger>, start: Cursor, limit: nat, active: bool)
    requires History(codec.format, worlds, ledgers) && |ledgers| > 0 && ValidCursor(ledgers[0], start)
    ensures Stands(codec, ledgers, start, limit, {}, [], start, true, 0)
    ensures Walked(worlds, start, limit, [], [], start, true, active)
  {
    CursorStaysValid(ledgers[0], ledgers[|ledgers| - 1], start);
  }

  // ----- The byte cap -----

  function Jsons(xs: seq<Candidate>): (records: seq<seq<byte>>)
    ensures |records| == |xs|
  {
    seq(|xs|, (i: nat) requires i < |xs| => xs[i].json)
  }

  /** The page that returns the first `n` candidates. */
  function PageOf<R>(codec: Codec<R>, cursor: string, xs: seq<Candidate>, n: nat): Page
    requires n <= |xs|
  {
    Page(Jsons(xs[..n]), if n == 0 then cursor else codec.encode(xs[n - 1].after), |xs| - n)
  }

  lemma NextPageSize<R>(codec: Codec<R>, cursor: string, xs: seq<Candidate>, n: nat)
    requires n < |xs|
    ensures |Print(PageOf(codec, cursor, xs, n + 1))| ==
            |Print(Page([], codec.encode(xs[n].after), |xs| - n - 1))| + SumBytes(Jsons(xs[..n])) + |xs[n].json| + n
    ensures SumBytes(Jsons(xs[..n + 1])) == SumBytes(Jsons(xs[..n])) + |xs[n].json|
  {
    var all := Jsons(xs[..n + 1]);
    assert all[..n] == Jsons(xs[..n]) && all[n] == xs[n].json;
    hide Print;
    PrintedSize(PageOf(codec, cursor, xs, n + 1));
  }

  lemma JsonsSnoc(xs: seq<Candidate>, n: nat)
    requires n < |xs|
    ensures Jsons(xs[..n + 1]) == Jsons(xs[..n]) + [xs[n].json]
  {
  }

  /** `page` keeps the candidates up to the first one that pushes the printed page over the byte cap. */
  ghost predicate Longest<R>(codec: Codec<R>, cursor: string, xs: seq<Candidate>, page: Page) {
    var n := |page.records|;
    && n <= |xs| && page == PageOf(codec, cursor, xs, n)
    && (forall m :: 0 < m <= n ==> |Print(PageOf(codec, cursor, xs, m))| <= MAX_EVIDENCE_RESPONSE_BYTES)
    && (n < |xs| ==> |Print(PageOf(codec, cursor, xs, n + 1))| > MAX_EVIDENCE_RESPONSE_BYTES)
  }

  /** The loop that keeps whole records while the printed page still fits: it stops exactly before the
      first record that would push the page over the cap. */
  method FitRecords<R>(codec: Codec<R>, cursor: string, xs: seq<Candidate>) returns (page: Page)
    ensures Longest(codec, cursor, xs, page)
    ensures page.records != [] ==> |Print(page)| <= MAX_EVIDENCE_RESPONSE_BYTES
  {
    hide Print, SumBytes, Longest, PageOf, Jsons;
    var records, nextCursor, recordBytes: nat := [], cursor, 0;
    var index := 0;
    NothingKept(codec, cursor, xs);
    while index < |xs|
      invariant index <= |xs| && records == Jsons(xs[..index]) && recordBytes == SumBytes(records) && |records| == index
      invariant Page(records, nextCursor, |xs| - index) == PageOf(codec, cursor, xs, index)
      invariant forall m :: 0 < m <= index ==> |Print(PageOf(codec, cursor, xs, m))| <= MAX_EVIDENCE_RESPONSE_BYTES
    {
      var proposedCursor := codec.encode(xs[index].after);
      var proposedBytes := recordBytes + |xs[index].json|;
      var omitted := |xs| - index - 1;
      var envelopeBytes := |Print(Page([], proposedCursor, omitted))|;
      NextPageSize(codec, cursor, xs, index);
      if envelopeBytes + proposedBytes + |records| > MAX_EVIDENCE_RESPONSE_BYTES {
        break;
      }
      JsonsSnoc(xs, index);
      PageMeans(codec, cursor, xs, index + 1);
      recordBytes, records, nextCursor := proposedBytes, records + [xs[index].json], proposedCursor;
      index := index + 1;
    }
    page := Page(records, nextCursor, |xs| - |records|);
    PageMeans(codec, cursor, xs, index);
    IsLongest(codec, cursor, xs, index);
  }

  lemma NothingKept<R>(codec: Codec<R>, cursor: string, xs: seq<Candidate>)
    ensures Jsons(xs[..0]) == [] && SumBytes([]) == 0 && PageOf(codec, cursor, xs, 0) == Page([], cursor, |xs|)
  {
    assert Jsons(xs[..0]) == [];
  }

  lemma PageMeans<R>(codec: Codec<R>, cursor: string, xs: seq<Candidate>, n: nat)
    requires n <= |xs|
    ensures |Jsons(xs[..n])| == n
    ensures PageOf(codec, cursor, xs, n) == Page(Jsons(xs[..n]), if n == 0 then cursor else codec.encode(xs[n - 1].after), |xs| - n)
  {
  }

  lemma IsLongest<R>(codec: Codec<R>, cursor: string, xs: seq<Candidate>, n: nat)
    requires n <= |xs|
    requires forall m :: 0 < m <= n ==> |Print(PageOf(codec, cursor, xs, m))| <= MAX_EVIDENCE_RESPONSE_BYTES
    requires n < |xs| ==> |Print(PageOf(codec, cursor, xs, n + 1))| > MAX_EVIDENCE_RESPONSE_BYTES
    ensures Longest(codec, cursor, xs, PageOf(codec, cursor, xs, n))
  {
    hide Print;
  }

  // ----- `read_evidence_page` -----

  /** Cursor text survives the round trip for every position the store can be read from. */
  ghost predicate Faithful<R>(codec: Codec<R>, l: Ledger) {
    forall c: Cursor :: ValidCursor(l, c) ==> codec.decode(codec.encode(c)) == Some(c) && |codec.encode(c)| <= MAX_CURSOR_LENGTH
  }

  /** A page read from `c`: the very next records, and a cursor that stands right behind them. */
  ghost predicate IsPage<R>(codec: Codec<R>, l: Ledger, c: Cursor, page: Page) {
    && codec.decode(page.nextCursor).Some?
    && Moves(codec.format, l, c, |page.records|, codec.decode(page.nextCursor).value)
    && |page.records| <= |Ahead(codec.format, l, c)|
    && forall i :: 0 <= i < |page.records| ==>
         var (s, q) := Ahead(codec.format, l, c)[i];
         s in l.journals && q < |l.journals[s]| && page.records[i] == codec.project(s, RecordAt(codec.format, l.journals[s], q))
  }

  lemma CandidatesAhead<R>(codec: Codec<R>, l: Ledger, c: Cursor, xs: seq<Candidate>, i: nat)
    requires AreCandidates(codec, l, c, xs) && i < |xs|
    ensures Sound(codec.format, l) && ValidCursor(l, c) && i < |Ahead(codec.format, l, c)|
    ensures var (s, q) := Ahead(codec.format, l, c)[i];
            s in l.journals && q < |l.journals[s]| && xs[i].json == codec.project(s, RecordAt(codec.format, l.journals[s], q))
  {
    assert IsCandidate(codec, l, c, i, xs[i]);
    MovesAhead(codec.format, l, c, i + 1, xs[i].after);
  }

  lemma PageIsPage<R>(codec: Codec<R>, l: Ledger, c: Cursor, cursor: string, xs: seq<Candidate>, n: nat)
    requires Faithful(codec, l) && codec.decode(cursor) == Some(c) && AreCandidates(codec, l, c, xs) && n <= |xs|
    requires Moves(codec.format, l, c, 0, c)
    ensures IsPage(codec, l, c, PageOf(codec, cursor, xs, n))
  {
    var page := PageOf(codec, cursor, xs, n);
    if n > 0 {
      assert IsCandidate(codec, l, c, n - 1, xs[n - 1]);
      CandidatesAhead(codec, l, c, xs, n - 1);
    }
    forall i | 0 <= i < n
      ensures var (s, q) := Ahead(codec.format, l, c)[i];
              && s in l.journals && q < |l.journals[s]|
              && page.records[i] == codec.project(s, RecordAt(codec.format, l.journals[s], q))
    {
      CandidatesAhead(codec, l, c, xs, i);
    }
    hide Reaches, Following, Sound, Faithful, IsCandidate, AreCandidates, RecordAt, ValidPosition;
  }

  /** The end of a session's committed evidence, as `EvidenceSnapshot.tail` gives it. */
  lemma TailIsEnd<R>(f: Format<R>, w: World, k: Ledger, s: SessionId)
    requires Sound(f, k) && Holds(w, k) && s in w
    ensures var d := Cursor(s, Position(w[s].snapshot.nextSequence, w[s].snapshot.lengths));
            && ValidCursor(k, d) && d.position.sequence == |k.journals[s]|
            && (s !in k.successors ==> NothingAhead(f, k, d))
  {
    var j := k.journals[s];
    assert j[..|j|] == j;
    assert Commits(w[s].snapshot, j);
    forall i: nat | i < STREAMS
      ensures w[s].snapshot.lengths[i] == |StreamBytes(j, i)|
    {
      assert w[s].snapshot.streams[i][..w[s].snapshot.lengths[i]] == StreamBytes(j, i);
    }
    assert w[s].snapshot.lengths == Ends(j, |j|);
  }

  lemma SessionStays<R>(f: Format<R>, k: Ledger, next: Ledger, l: Ledger, s: SessionId, visited: set<SessionId>)
    requires Sound(f, k) && Grows(k, next) && Grows(k, l) && s in k.successors && Older(l, visited, s)
    ensures k.successors[s] in next.journals && Older(l, visited + {s}, k.successors[s])
  {
  }

  /** From a session's beginning, its end and then its successor's beginning come later. */
  lemma EndComesLater<R>(f: Format<R>, k: Ledger, l: Ledger, first: Cursor, at: Cursor)
    requires Sound(f, k) && Sound(f, l) && Grows(k, l) && ValidCursor(k, at) && at.position.sequence == |k.journals[at.session]|
    requires Later(f, l, first, Beginning(at.session))
    ensures Later(f, l, first, at)
    ensures at.session in k.successors ==> Later(f, l, first, Beginning(k.successors[at.session]))
  {
    var s, q := at.session, at.position.sequence;
    var n: nat :| Moves(f, l, first, n, Beginning(s));
    CursorStaysValid(k, l, at);
    ReachesWithin(f, l, s, 0, q);
    MovesOn(f, l, first, n, Beginning(s), q, at);
    if s in k.successors {
      BeginningIsValid(l, l.successors[s]);
      assert Reaches(f, l, s, q, 0, l.successors[s], 0);
      MovesOn(f, l, first, n + q, at, 0, Beginning(l.successors[s]));
    }
  }

  /** The cursor stands at the end of the chain that starts with session `first`: beyond it nothing was
      committed at the time of some opening. */
  ghost predicate AtTail<R>(f: Format<R>, ledgers: seq<Ledger>, first: SessionId, at: Cursor)
    requires |ledgers| > 0
  {
    && Later(f, ledgers[|ledgers| - 1], Beginning(first), at)
    && exists seen: nat :: NothingAhead(f, Then(ledgers, seen), at)
  }

  /** The chain from `first`, followed as far as `session`, about to be opened as number `opens`. */
  ghost predicate Chained<R>(f: Format<R>, ledgers: seq<Ledger>, first: SessionId, session: SessionId, visited: set<SessionId>, opens: nat)
    requires |ledgers| > 0
  {
    var l := ledgers[|ledgers| - 1];
    && session in Then(ledgers, opens).journals && Older(l, visited, session)
    && Later(f, l, Beginning(first), Beginning(session))
  }

  /** What opening the next session of the chain finds. */
  lemma ChainGoesOn<R>(f: Format<R>, worlds: seq<World>, ledgers: seq<Ledger>, first: SessionId, session: SessionId,
                       visited: set<SessionId>, opens: nat)
    requires History(f, worlds, ledgers) && |worlds| == |ledgers| > 0 && Chained(f, ledgers, first, session, visited, opens)
    ensures var world := WorldThen(worlds, opens);
            && session in world && session !in visited
            && var stored := world[session];
               if stored.successor.Some? then
                 Chained(f, ledgers, first, stored.successor.value, visited + {session}, opens + 1)
               else
                 AtTail(f, ledgers, first, TailOf(session, stored))
  {
    var k, l, world := Then(ledgers, opens), ledgers[|ledgers| - 1], WorldThen(worlds, opens);
    HistoryAt(f, worlds, ledgers, opens);
    OpensTail(k, world, session, l, visited);
    hide History, NothingAhead, ValidCursor, Later, Beginning, Then, WorldThen;
    TailIsEnd(f, world, k, session);
    StoredMeans(f, world, k, session);
    EndComesLater(f, k, l, Beginning(first), Cursor(session, Position(world[session].snapshot.nextSequence, world[session].snapshot.lengths)));
    if session in k.successors {
      SessionStays(f, k, Then(ledgers, opens + 1), l, session, visited);
    }
  }

  function TailOf(s: SessionId, stored: Stored): Cursor {
    Cursor(s, Position(stored.snapshot.nextSequence, stored.snapshot.lengths))
  }

  /** The cursor is the end, as it was then, of the last session of the chain. */
  ghost predicate EndOfChain(worlds: seq<World>, first: SessionId, at: Cursor)
    requires |worlds| > 0
  {
    exists path :: Chain(worlds, first, path)
      && LastStored(worlds, first, path).successor.None? && at == TailOf(path[|path| - 1], LastStored(worlds, first, path))
  }

  ghost predicate Attaching(worlds: seq<World>, first: SessionId, path: seq<SessionId>, session: SessionId, more: bool)
    requires |worlds| > 0
  {
    if path == [] then more && session == first
    else
      && Chain(worlds, first, path)
      && LastStored(worlds, first, path).successor == if more then Some(session) else None
  }

  lemma AttachesOn(worlds: seq<World>, first: SessionId, path: seq<SessionId>, session: SessionId)
    requires |worlds| > 0 && Attaching(worlds, first, path, session, true) && session in WorldThen(worlds, |path|)
    ensures var stored := WorldThen(worlds, |path|)[session];
            match stored.successor
            case Some(next) => Attaching(worlds, first, path + [session], next, true)
            case None => EndOfChain(worlds, first, TailOf(session, stored))
  {
    hide WorldThen;
    var n, longer := |path|, path + [session];
    assert longer[n] == session && forall i :: 0 <= i < n ==> longer[i] == path[i];
    assert Chain(worlds, first, longer);
    assert LastStored(worlds, first, longer) == WorldThen(worlds, n)[session];
  }

  lemma AttachesFirst(worlds: seq<World>, first: SessionId)
    requires |worlds| > 0
    ensures Attaching(worlds, first, [], first, true)
  {
  }

  /** Where attaching stands: about to open `session`, number `opens`, or done at `at`. */
  ghost predicate AttachStands<R>(f: Format<R>, worlds: seq<World>, ledgers: seq<Ledger>, first: SessionId, session: SessionId,
                                  visited: set<SessionId>, opens: nat, path: seq<SessionId>, at: Cursor, more: bool)
    requires |ledgers| > 0 && |worlds| > 0
  {
    if first in worlds[0] then
      if more then Chained(f, ledgers, first, session, visited, opens) && |path| == opens && Attaching(worlds, first, path, session, true)
      else AtTail(f, ledgers, first, at) && EndOfChain(worlds, first, at)
    else more && opens == 0 && session == first && visited == {} && path == []
  }

  lemma AttachGoesOn<R>(f: Format<R>, worlds: seq<World>, ledgers: seq<Ledger>, first: SessionId, session: SessionId,
                        visited: set<SessionId>, opens: nat, path: seq<SessionId>)
    requires History(f, worlds, ledgers) && |worlds| == |ledgers| > 0
    requires AttachStands(f, worlds, ledgers, first, session, visited, opens, path, Beginning(session), true)
    ensures session !in visited && (session in WorldThen(worlds, opens) <==> first in worlds[0])
    ensures first in worlds[0] ==>
              var stored := WorldThen(worlds, opens)[session];
              AttachStands(f, worlds, ledgers, first, if stored.successor.Some? then stored.successor.value else session,
                           visited + {session}, opens + 1, path + [session], TailOf(session, stored), stored.successor.Some?)
  {
    assert WorldThen(worlds, 0) == worlds[0];
    hide History, Chained, Attaching, AtTail, EndOfChain, WorldThen, Then, TailOf, Beginning;
    if first in worlds[0] {
      ChainGoesOn(f, worlds, ledgers, first, session, visited, opens);
      AttachesOn(worlds, first, path, session);
    }
  }

  /** One turn: open the session and take its end. */
  method AttachTurn<R>(f: Format<R>, worlds: seq<World>, first: SessionId, session: SessionId, visited: set<SessionId>, opens: nat,
                       ghost path: seq<SessionId>, ghost ledgers: seq<Ledger>)
    returns (at: Cursor, next: SessionId, more: bool, error: Option<PageError>)
    requires History(f, worlds, ledgers) && |worlds| == |ledgers| > 0
    requires AttachStands(f, worlds, ledgers, first, session, visited, opens, path, Beginning(session), true)
    ensures error.None? ==> session in worlds[|worlds| - 1].Keys && session !in visited
    ensures if first in worlds[0] then
              && error.None?
              && AttachStands(f, worlds, ledgers, first, next, visited + {session}, opens + 1, path + [session], at, more)
            else error == Some(Expired)
  {
    hide *;
    var world := WorldThen(worlds, opens);
    HistoryAt(f, worlds, ledgers, opens);
    AttachGoesOn(f, worlds, ledgers, first, session, visited, opens, path);
    at, next, more, error := Beginning(session), session, false, None;
    if session in visited {
      error := Some(Cycle);
      return;
    }
    if session !in world {
      error := Some(Expired);
      return;
    }
    var stored := world[session];
    at := TailOf(session, stored);
    if stored.successor.Some? {
      next, more := stored.successor.value, true;
    }
  }

  /** Attaching without a cursor: the end of the newest session of the chain. */
  method AttachTail<R>(codec: Codec<R>, worlds: seq<World>, first: SessionId, ghost ledgers: seq<Ledger>)
    returns (at: Cursor, error: Option<PageError>)
    requires History(codec.format, worlds, ledgers)
    ensures |worlds| == |ledgers| > 0
    ensures if first in worlds[0] then error.None? && AtTail(codec.format, ledgers, first, at) && EndOfChain(worlds, first, at)
            else error == Some(Expired)
  {
    hide *;
    HistoryAt(codec.format, worlds, ledgers, 0);
    at, error := Beginning(first), None;
    var session, visited, opens, more := first, {}, 0, true;
    ghost var path: seq<SessionId> := [];
    AttachStarts(codec.format, worlds, ledgers, first);
    while more
      invariant visited <= worlds[|worlds| - 1].Keys && error.None?
      invariant AttachStands(codec.format, worlds, ledgers, first, session, visited, opens, path, if more then Beginning(session) else at, more)
      decreases more, worlds[|worlds| - 1].Keys - visited
    {
      var current := session;
      at, session, more, error := AttachTurn(codec.format, worlds, first, current, visited, opens, path, ledgers);
      if error.Some? { return; }
      path, visited, opens := path + [current], visited + {current}, opens + 1;
      AttachIgnores(codec.format, worlds, ledgers, first, session, visited, opens, path, at, more);
    }
    AttachEnds(codec.format, worlds, ledgers, first, session, visited, opens, path, at);
  }

  lemma AttachStarts<R>(f: Format<R>, worlds: seq<World>, ledgers: seq<Ledger>, first: SessionId)
    requires History(f, worlds, ledgers) && |worlds| == |ledgers| > 0
    ensures AttachStands(f, worlds, ledgers, first, first, {}, 0, [], Beginning(first), true)
  {
    hide History, Chained, Attaching;
    AttachesFirst(worlds, first);
    if first in worlds[0] { FirstOpens(f, worlds, ledgers, first); }
  }

  lemma AttachIgnores<R>(f: Format<R>, worlds: seq<World>, ledgers: seq<Ledger>, first: SessionId, session: SessionId,
                         visited: set<SessionId>, opens: nat, path: seq<SessionId>, at: Cursor, more: bool)
    requires |ledgers| > 0 && |worlds| > 0 && AttachStands(f, worlds, ledgers, first, session, visited, opens, path, at, more)
    ensures AttachStands(f, worlds, ledgers, first, session, visited, opens, path, if more then Beginning(session) else at, more)
  {
    hide Chained, Attaching, AtTail, EndOfChain, Beginning;
  }

  lemma AttachEnds<R>(f: Format<R>, worlds: seq<World>, ledgers: seq<Ledger>, first: SessionId, session: SessionId,
                      visited: set<SessionId>, opens: nat, path: seq<SessionId>, at: Cursor)
    requires |ledgers| > 0 && |worlds| > 0 && AttachStands(f, worlds, ledgers, first, session, visited, opens, path, at, false)
    ensures first in worlds[0] && AtTail(f, ledgers, first, at) && EndOfChain(worlds, first, at)
  {
    hide AtTail, EndOfChain;
  }

  lemma FirstOpens<R>(f: Format<R>, worlds: seq<World>, ledgers: seq<Ledger>, first: SessionId)
    requires History(f, worlds, ledgers) && first in worlds[0]
    ensures |ledgers| > 0 && Chained(f, ledgers, first, first, {}, 0)
  {
    HistoryAt(f, worlds, ledgers, 0);
    var l := ledgers[|ledgers| - 1];
    BeginningIsValid(l, first);
    assert Moves(f, l, Beginning(first), 0, Beginning(first));
  }

  lemma OpensTail(k: Ledger, w: World, s: SessionId, l: Ledger, visited: set<SessionId>)
    requires Holds(w, k) && s in k.journals && Older(l, visited, s)
    ensures s in w && s !in visited
  {
  }

  /** Reading `n` records brought the call to a place, outside session `other`, beyond which nothing
      was committed at the time of some opening. */
  ghost predicate Drained<R>(codec: Codec<R>, ledgers: seq<Ledger>, c: Cursor, n: nat, other: Option<SessionId>)
    requires |ledgers| > 0
  {
    exists at: Cursor, seen: nat ::
      && Moves(codec.format, ledgers[|ledgers| - 1], c, n, at) && NothingAhead(codec.format, Then(ledgers, seen), at)
      && other != Some(at.session)
  }

  /** Of the next records, those that the page returns or omits, it returns the longest run that fits. */
  ghost predicate Fits<R>(codec: Codec<R>, l: Ledger, c: Cursor, cursor: string, page: Page) {
    && |Print(page)| <= MAX_EVIDENCE_RESPONSE_BYTES
    && exists xs ::
         AreCandidates(codec, l, c, xs) && |xs| == |page.records| + page.omitted && Longest(codec, cursor, xs, page)
  }

  /** What a call that started from the valid cursor `c`, written as `cursor`, may return. */
  ghost predicate Answers<R>(codec: Codec<R>, worlds: seq<World>, ledgers: seq<Ledger>, c: Cursor, cursor: string, limit: nat,
                             tail: Option<SessionId>, r: PageResult)
    requires |ledgers| > 0 && |worlds| > 0
  {
    var l := ledgers[|ledgers| - 1];
    match r
    case Served(page) =>
      var n := |page.records| + page.omitted;
      && IsPage(codec, l, c, page) && n <= limit
      && (n > 0 ==> Fits(codec, l, c, cursor, page))
      && (n < limit ==> Drained(codec, ledgers, c, n, None))
      && (if n == 0 then StaysOpen(codec, worlds, c, tail, page) else forall path :: !Idle(worlds, c, path))
    case Refused(e) => e == Expired && Drained(codec, ledgers, c, 0, tail) && Expires(worlds, c, tail)
  }

  /** Nothing was found, and the session where the chain ends goes on: the page's cursor waits there. */
  ghost predicate StaysOpen<R>(codec: Codec<R>, worlds: seq<World>, c: Cursor, tail: Option<SessionId>, page: Page)
    requires |worlds| > 0
  {
    exists path ::
      && Idle(worlds, c, path) && !Ended(worlds, c.session, path, tail)
      && codec.decode(page.nextCursor).Some? && codec.decode(page.nextCursor).value.session == path[|path| - 1]
  }

  /** Nothing was found, and no more will come behind the cursor. */
  ghost predicate Expires(worlds: seq<World>, c: Cursor, tail: Option<SessionId>)
    requires |worlds| > 0
  {
    exists path :: Idle(worlds, c, path) && Ended(worlds, c.session, path, tail)
  }

  /** A valid cursor is refused if and only if the store, as the call opened it, held nothing from the cursor on
      and the last session opened is neither the newest one nor active. */
  lemma ExpiresExactly<R>(codec: Codec<R>, worlds: seq<World>, ledgers: seq<Ledger>, c: Cursor, cursor: string, limit: nat,
                          tail: Option<SessionId>, r: PageResult)
    requires |ledgers| > 0 && |worlds| > 0 && Answers(codec, worlds, ledgers, c, cursor, limit, tail, r)
    ensures r.Refused? <==> Expires(worlds, c, tail)
    ensures r.Served? && |r.page.records| + r.page.omitted == 0 <==>
              exists path :: Idle(worlds, c, path) && !Ended(worlds, c.session, path, tail)
  {
    hide IsPage, Fits, Drained, Chain, Empty, LastStored, Ended;
    forall p, q | Idle(worlds, c, p) && Idle(worlds, c, q)
      ensures p == q
    {
      IdleIsUnique(worlds, c, p, q);
    }
    if r.Served? && |r.page.records| + r.page.omitted == 0 {
      var path :| Idle(worlds, c, path) && !Ended(worlds, c.session, path, tail);
    } else if r.Refused? {
      var path :| Idle(worlds, c, path) && Ended(worlds, c.session, path, tail);
    }
  }

  /** One page from a decoded cursor. */
  method ReadFrom<R>(codec: Codec<R>, worlds: seq<World>, cursor: string, c: Cursor, tail: Option<SessionId>, limit: nat, ghost ledgers: seq<Ledger>)
    returns (r: PageResult)
    requires History(codec.format, worlds, ledgers) && Faithful(codec, ledgers[|ledgers| - 1])
    requires 1 <= limit <= MAX_LIMIT && |cursor| <= MAX_CURSOR_LENGTH && codec.decode(cursor) == Some(c) && |c.position.offsets| == STREAMS
    ensures |worlds| == |ledgers| > 0
    ensures ValidCursor(ledgers[0], c) ==> Answers(codec, worlds, ledgers, c, cursor, limit, tail, r)
    ensures Refusal(worlds[0], c).Some? ==> r == Refused(Refusal(worlds[0], c).value)
    ensures r.Served? && |r.page.records| + r.page.omitted > 0 ==> |Print(r.page)| <= MAX_EVIDENCE_RESPONSE_BYTES
  {
    assert WorldThen(worlds, 0) == worlds[0];
    hide History, Then, Print, NothingAhead, Faithful, Answers, PageOf, Progress, WorldThen, Idle, FoundNothing, Refusal;
    var candidates, at, active, error, seen, path := Collect(codec, worlds, c, limit, ledgers);
    if error.Some? {
      return Refused(error.value);
    }
    ghost var valid := ValidCursor(ledgers[0], c);
    if |candidates| == 0 {
      if valid { NothingNew(codec, worlds, ledgers, c, cursor, limit, tail, candidates, at, active, seen, path); }
      if tail.Some? && at.session != tail.value && !active {
        return Refused(Expired);
      }
      return Served(Page([], codec.encode(at), 0));
    }
    var page := FitRecords(codec, cursor, candidates);
    PageSizes(codec, cursor, candidates, |page.records|);
    if valid { FittedPage(codec, worlds, ledgers, c, cursor, limit, tail, candidates, page, at, seen); }
    r := Served(page);
  }

  lemma PageSizes<R>(codec: Codec<R>, cursor: string, xs: seq<Candidate>, n: nat)
    requires n <= |xs| <= MAX_LIMIT && |cursor| <= MAX_CURSOR_LENGTH
    ensures |PageOf(codec, cursor, xs, n).records| == n
    ensures n == 0 ==> |Print(PageOf(codec, cursor, xs, n))| <= MAX_EVIDENCE_RESPONSE_BYTES
  {
    hide Print;
    EmptyPageFits(cursor, |xs|);
    assert n == 0 ==> Jsons(xs[..n]) == [];
  }

  /** One page of evidence, from a cursor or, without one, attached at the tail. */
  method ReadEvidencePage<R>(codec: Codec<R>, worlds: seq<World>, cursor: Option<string>, tail: Option<SessionId>, limit: nat, ghost ledgers: seq<Ledger>)
    returns (r: PageResult)
    requires History(codec.format, worlds, ledgers) && Faithful(codec, ledgers[|ledgers| - 1])
    requires 1 <= limit <= MAX_LIMIT && (cursor.Some? ==> |cursor.value| <= MAX_CURSOR_LENGTH)
    ensures |worlds| == |ledgers| > 0
    ensures match cursor
            case None =>
              (match tail
               case None => r == Refused(NoDurableSession)
               case Some(s) => if s in worlds[0] then Attached(codec, worlds, ledgers, s, r) else r == Refused(Expired))
            case Some(text) =>
              match codec.decode(text)
              case None => r == Refused(InvalidCursor)
              case Some(c) =>
                && (|c.position.offsets| != STREAMS ==> r == Refused(InvalidCursor))
                && (|c.position.offsets| == STREAMS && Refusal(worlds[0], c).Some? ==> r == Refused(Refusal(worlds[0], c).value))
                && (ValidCursor(ledgers[0], c) ==> Answers(codec, worlds, ledgers, c, text, limit, tail, r))
    ensures r.Served? && |r.page.records| + r.page.omitted > 0 ==> |Print(r.page)| <= MAX_EVIDENCE_RESPONSE_BYTES
  {
    hide History, Then, NothingAhead, Faithful, Answers, Print, AtTail, EndOfChain;
    HistoryAt(codec.format, worlds, ledgers, 0);
    if cursor.None? {
      if tail.None? {
        return Refused(NoDurableSession);
      }
      var at, error := AttachTail(codec, worlds, tail.value, ledgers);
      if error.Some? {
        return Refused(error.value);
      }
      TailCursor(codec, worlds, ledgers, tail.value, at);
      return Served(Page([], codec.encode(at), 0));
    }
    var decoded := codec.decode(cursor.value);
    if decoded.None? || |decoded.value.position.offsets| != STREAMS {
      return Refused(InvalidCursor);
    }
    r := ReadFrom(codec, worlds, cursor.value, decoded.value, tail, limit, ledgers);
  }

  /** A page without records whose cursor is at the tail of the chain from session `s`. */
  ghost predicate Attached<R>(codec: Codec<R>, worlds: seq<World>, ledgers: seq<Ledger>, s: SessionId, r: PageResult)
    requires |ledgers| > 0 && |worlds| > 0
  {
    && r.Served? && r.page.records == [] && r.page.omitted == 0
    && codec.decode(r.page.nextCursor).Some?
    && AtTail(codec.format, ledgers, s, codec.decode(r.page.nextCursor).value)
    && EndOfChain(worlds, s, codec.decode(r.page.nextCursor).value)
  }

  lemma TailCursor<R>(codec: Codec<R>, worlds: seq<World>, ledgers: seq<Ledger>, s: SessionId, at: Cursor)
    requires History(codec.format, worlds, ledgers) && Faithful(codec, ledgers[|ledgers| - 1])
    requires AtTail(codec.format, ledgers, s, at)
    ensures codec.decode(codec.encode(at)) == Some(at)
  {
    hide History, NothingAhead, Reaches, Sound, ValidPosition, Beginning;
    var l := ledgers[|ledgers| - 1];
    var k: nat :| Moves(codec.format, l, Beginning(s), k, at);
    assert ValidCursor(l, at);
  }

  lemma NothingNew<R>(codec: Codec<R>, worlds: seq<World>, ledgers: seq<Ledger>, c: Cursor, cursor: string, limit: nat, tail: Option<SessionId>,
                      xs: seq<Candidate>, at: Cursor, active: bool, seen: nat, path: seq<SessionId>)
    requires |worlds| > 0 && |ledgers| > 0 && Faithful(codec, ledgers[|ledgers| - 1]) && limit > 0 && |xs| == 0
    requires Progress(codec, ledgers[|ledgers| - 1], c, xs, at) && NothingAhead(codec.format, Then(ledgers, seen), at)
    requires FoundNothing(worlds, c, path, at, active)
    ensures Answers(codec, worlds, ledgers, c, cursor, limit, tail,
                    if tail.Some? && at.session != tail.value && !active then Refused(Expired) else Served(Page([], codec.encode(at), 0)))
  {
    hide NothingAhead, Reaches, Following, Idle, LastStored;
    assert Idle(worlds, c, path);
    assert Ended(worlds, c.session, path, tail) <==> tail.Some? && at.session != tail.value && !active by { IdleMeans(worlds, c, path); }
  }

  lemma IdleMeans(worlds: seq<World>, c: Cursor, path: seq<SessionId>)
    requires |worlds| > 0 && Idle(worlds, c, path)
    ensures Chain(worlds, c.session, path)
  {
  }

  lemma LongestMeans<R>(codec: Codec<R>, cursor: string, xs: seq<Candidate>, page: Page)
    requires Longest(codec, cursor, xs, page)
    ensures |page.records| + page.omitted == |xs| && page == PageOf(codec, cursor, xs, |page.records|)
  {
    hide Print;
  }

  lemma ProgressMeans<R>(codec: Codec<R>, l: Ledger, c: Cursor, xs: seq<Candidate>, at: Cursor)
    requires Progress(codec, l, c, xs, at)
    ensures Moves(codec.format, l, c, |xs|, at) && Moves(codec.format, l, c, 0, c) && AreCandidates(codec, l, c, xs)
  {
    hide AreCandidates;
  }

  lemma DrainedAt<R>(codec: Codec<R>, ledgers: seq<Ledger>, c: Cursor, n: nat, at: Cursor, seen: nat)
    requires |ledgers| > 0 && Moves(codec.format, ledgers[|ledgers| - 1], c, n, at)
    requires NothingAhead(codec.format, Then(ledgers, seen), at)
    ensures Drained(codec, ledgers, c, n, None)
  {
    hide Moves, NothingAhead;
  }

  lemma FitsAndAnswers<R>(codec: Codec<R>, worlds: seq<World>, ledgers: seq<Ledger>, c: Cursor, cursor: string, limit: nat, tail: Option<SessionId>,
                          xs: seq<Candidate>, page: Page)
    requires |worlds| > 0 && |ledgers| > 0 && IsPage(codec, ledgers[|ledgers| - 1], c, page)
    requires AreCandidates(codec, ledgers[|ledgers| - 1], c, xs) && |xs| == |page.records| + page.omitted <= limit
    requires Longest(codec, cursor, xs, page) && |Print(page)| <= MAX_EVIDENCE_RESPONSE_BYTES
    requires |xs| < limit ==> Drained(codec, ledgers, c, |xs|, None)
    requires |xs| > 0 && forall path :: !Idle(worlds, c, path)
    ensures Answers(codec, worlds, ledgers, c, cursor, limit, tail, Served(page))
  {
    hide Print, IsPage, AreCandidates, Longest, Drained, Idle;
  }

  lemma FittedPage<R>(codec: Codec<R>, worlds: seq<World>, ledgers: seq<Ledger>, c: Cursor, cursor: string, limit: nat, tail: Option<SessionId>,
                      xs: seq<Candidate>, page: Page, at: Cursor, seen: nat)
    requires |worlds| > 0 && |ledgers| > 0 && Faithful(codec, ledgers[|ledgers| - 1]) && codec.decode(cursor) == Some(c)
    requires forall path :: !Idle(worlds, c, path)
    requires 0 < |xs| <= limit && Longest(codec, cursor, xs, page) && |Print(page)| <= MAX_EVIDENCE_RESPONSE_BYTES
    requires Progress(codec, ledgers[|ledgers| - 1], c, xs, at)
    requires |xs| < limit ==> NothingAhead(codec.format, Then(ledgers, seen), at)
    ensures Answers(codec, worlds, ledgers, c, cursor, limit, tail, Served(page))
  {
    hide *;
    var l := ledgers[|ledgers| - 1];
    LongestMeans(codec, cursor, xs, page);
    ProgressMeans(codec, l, c, xs, at);
    PageIsPage(codec, l, c, cursor, xs, |page.records|);
    if |xs| < limit { DrainedAt(codec, ledgers, c, |xs|, at, seen); }
    FitsAndAnswers(codec, worlds, ledgers, c, cursor, limit, tail, xs, page);
  }
}
