/**
  The recorder's account of UART bytes lost upstream.

  The device reports loss twice over: by explicit overflow events and by cumulative counters. The
  recorder keeps a handful of running fields; here they are proved equal to a reference computed
  from the whole history of the session: the opening count plus, per connection, the larger of the
  counter growth and the explicit total.
*/
module LossAccounting {
  import opened Wrappers

  datatype LossStatus = NoneReported | LossReported | NotObservable

  datatype UartIntegrity = UartIntegrity(lossStatus: LossStatus, debugHelperScope: bool, droppedBytes: Option<nat>)

  /** `UartIntegrity.__post_init__` accepts the value. */
  predicate ValidIntegrity(i: UartIntegrity) {
    match i.lossStatus
    case NotObservable => !i.debugHelperScope && i.droppedBytes.None?
    case NoneReported => i.debugHelperScope && i.droppedBytes == Some(0)
    case LossReported => i.debugHelperScope
  }

  function Dropped(i: UartIntegrity): nat {
    if i.droppedBytes.Some? then i.droppedBytes.value else 0
  }

  function Max(a: int, b: int): int {
    if a < b then b else a
  }

  // ----- The reference -----

  /** What one device connection said about loss. */
  datatype Reading = Explicit(bytes: nat) | Counters(total: nat, overflows: nat)

  /** What happened to the account. The `Across` forms are readings the store put into a new session;
      `Carried` is a record put into one without the account being reset. */
  datatype Happening =
    | Read(reading: Reading)
    | ReadAcross(reading: Reading)
    | Replaced(snapshot: UartIntegrity, newSession: bool)
    | RolledOver
    | Carried

  /** The evidence about loss since the account was last reset, connection by connection. */
  datatype Epoch = Epoch(opening: UartIntegrity, snapshot: UartIntegrity, connections: seq<seq<Reading>>)

  const NOTHING_LOST := UartIntegrity(NoneReported, true, Some(0))

  ghost function EpochOf(start: UartIntegrity, history: seq<Happening>): (e: Epoch)
    ensures e.connections != []
  {
    if history == [] then Epoch(start, start, [[]])
    else
      var e := EpochOf(start, history[..|history| - 1]);
      match history[|history| - 1]
      case Read(reading) =>
        var n := |e.connections| - 1;
        e.(connections := e.connections[..n] + [e.connections[n] + [reading]])
      case ReadAcross(reading) => Epoch(NOTHING_LOST, e.snapshot, [[reading]])
      case Replaced(snapshot, newSession) =>
        if newSession then Epoch(snapshot, snapshot, [[]]) else Epoch(e.opening, snapshot, e.connections + [[]])
      case RolledOver => Epoch(e.snapshot, e.snapshot, [[]])
      case Carried => e
  }

  ghost function ExplicitTotal(c: seq<Reading>): nat {
    if c == [] then 0
    else ExplicitTotal(c[..|c| - 1]) + match c[|c| - 1] case Explicit(bytes) => bytes case Counters(_, _) => 0
  }

  /** The counters of a connection at its first and at its latest status. */
  ghost function First(c: seq<Reading>): (r: Option<Reading>)
    ensures r.Some? ==> r.value.Counters?
  {
    if c == [] then None
    else if First(c[..|c| - 1]).Some? then First(c[..|c| - 1])
    else if c[|c| - 1].Counters? then Some(c[|c| - 1]) else None
  }

  ghost function Latest(c: seq<Reading>): (r: Option<Reading>)
    ensures r.Some? ==> r.value.Counters?
    ensures r.Some? <==> First(c).Some?
  {
    if c == [] then None
    else if c[|c| - 1].Counters? then Some(c[|c| - 1]) else Latest(c[..|c| - 1])
  }

  ghost function Growth(c: seq<Reading>): nat {
    if First(c).None? then 0 else Max(0, Latest(c).value.total - First(c).value.total)
  }

  ghost function Loss(c: seq<Reading>): nat {
    Max(Growth(c), ExplicitTotal(c))
  }

  ghost function TotalLoss(connections: seq<seq<Reading>>): nat {
    if connections == [] then 0
    else TotalLoss(connections[..|connections| - 1]) + Loss(connections[|connections| - 1])
  }

  /** The bytes the session must own up to. */
  ghost function Expected(e: Epoch): nat {
    Dropped(e.opening) + TotalLoss(e.connections)
  }

  /** Reading `i` alone shows that the connection lost something. */
  ghost predicate LoudAt(c: seq<Reading>, i: nat)
    requires i < |c|
  {
    match c[i]
    case Explicit(_) => true
    case Counters(total, overflows) =>
      First(c).Some? && (total > First(c).value.total || overflows > First(c).value.overflows)
  }

  ghost predicate Loud(c: seq<Reading>) {
    exists i :: 0 <= i < |c| && LoudAt(c, i)
  }

  ghost predicate Reported(e: Epoch) {
    e.opening.lossStatus == LossReported || exists k :: 0 <= k < |e.connections| && Loud(e.connections[k])
  }

  ghost predicate Quiet(e: Epoch) {
    forall k :: 0 <= k < |e.connections| ==> e.connections[k] == []
  }

  /** What the session's integrity must say. */
  ghost function ExpectedIntegrity(e: Epoch): UartIntegrity {
    if Quiet(e) then e.opening
    else UartIntegrity(if Reported(e) then LossReported else NoneReported, true, Some(Expected(e)))
  }

  ghost predicate ValidHistory(start: UartIntegrity, history: seq<Happening>) {
    && ValidIntegrity(start)
    && forall k :: 0 <= k < |history| && history[k].Replaced? ==> ValidIntegrity(history[k].snapshot)
  }

  // ----- How the reference moves -----

  lemma EpochSnoc(start: UartIntegrity, history: seq<Happening>, h: Happening)
    ensures (history + [h])[..|history|] == history && (history + [h])[|history|] == h
  {
  }

  lemma ReadingSnoc(c: seq<Reading>, r: Reading)
    ensures var d := c + [r];
            && ExplicitTotal(d) == ExplicitTotal(c) + (if r.Explicit? then r.bytes else 0)
            && First(d) == (if First(c).Some? then First(c) else if r.Counters? then Some(r) else None)
            && Latest(d) == (if r.Counters? then Some(r) else Latest(c))
  {
    assert (c + [r])[..|c|] == c;
  }

  lemma TotalLossSnoc(connections: seq<seq<Reading>>, c: seq<Reading>)
    ensures TotalLoss(connections + [c]) == TotalLoss(connections) + Loss(c)
  {
    assert (connections + [c])[..|connections|] == connections;
  }

  lemma LoudSnoc(c: seq<Reading>, r: Reading)
    ensures Loud(c + [r]) <==> Loud(c) || LoudAt(c + [r], |c|)
  {
    var d := c + [r];
    ReadingSnoc(c, r);
    if Loud(c) {
      var i :| 0 <= i < |c| && LoudAt(c, i);
      CountersHaveFirst(c, i);
      assert LoudAt(d, i);
    }
    if Loud(d) && !LoudAt(d, |c|) {
      var i :| 0 <= i < |d| && LoudAt(d, i);
      CountersHaveFirst(c, i);
      assert LoudAt(c, i);
    }
  }

  lemma {:induction false} CountersHaveFirst(c: seq<Reading>, i: nat)
    requires i < |c|
    ensures c[i].Counters? ==> First(c).Some?
  {
    if i < |c| - 1 {
      CountersHaveFirst(c[..|c| - 1], i);
    }
  }

  /** Whatever a connection lost, some reading of it showed. */
  lemma {:induction false} LossIsLoud(c: seq<Reading>)
    requires Loss(c) > 0
    ensures Loud(c)
  {
    var n := |c| - 1;
    var before, r := c[..n], c[n];
    assert c == before + [r];
    ReadingSnoc(before, r);
    LoudSnoc(before, r);
    if !LoudAt(c, n) {
      LossIsLoud(before);
    }
  }

  lemma {:induction false} TotalLossIsLoud(connections: seq<seq<Reading>>)
    requires TotalLoss(connections) > 0
    ensures exists k :: 0 <= k < |connections| && Loud(connections[k])
  {
    var n := |connections| - 1;
    if Loss(connections[n]) > 0 {
      LossIsLoud(connections[n]);
    } else {
      TotalLossIsLoud(connections[..n]);
      var k :| 0 <= k < n && Loud(connections[..n][k]);
      assert Loud(connections[k]);
    }
  }

  lemma {:induction false} OpeningValid(start: UartIntegrity, history: seq<Happening>)
    requires ValidHistory(start, history)
    ensures var e := EpochOf(start, history); ValidIntegrity(e.opening) && ValidIntegrity(e.snapshot)
  {
    if history != [] {
      OpeningValid(start, history[..|history| - 1]);
    }
  }

  /** Over every run, through any rollovers and replacements, the integrity statement is a valid one. */
  lemma AlwaysValid(start: UartIntegrity, history: seq<Happening>)
    requires ValidHistory(start, history)
    ensures ValidIntegrity(ExpectedIntegrity(EpochOf(start, history)))
  {
    OpeningValid(start, history);
    var e := EpochOf(start, history);
    if TotalLoss(e.connections) > 0 {
      TotalLossIsLoud(e.connections);
    }
  }

  /** Until the account is reset, loss, once reported, stays reported. */
  lemma Latched(start: UartIntegrity, history: seq<Happening>, h: Happening)
    requires h.Read? || h.Carried? || (h.Replaced? && !h.newSession)
    requires Reported(EpochOf(start, history))
    ensures Reported(EpochOf(start, history + [h]))
  {
    EpochSnoc(start, history, h);
    var e, g := EpochOf(start, history), EpochOf(start, history + [h]);
    if e.opening.lossStatus != LossReported {
      var k :| 0 <= k < |e.connections| && Loud(e.connections[k]);
      if h.Read? && k == |e.connections| - 1 {
        LoudSnoc(e.connections[k], h.reading);
      }
      assert Loud(g.connections[k]);
    }
  }

  /** The exact condition under which one more reading of the same session does not lower the count:
      the counters did not fall back, or explicit overflows already cover the difference. */
  lemma ReadingRaises(start: UartIntegrity, history: seq<Happening>, r: Reading)
    ensures var e := EpochOf(start, history);
            var c := e.connections[|e.connections| - 1];
            Expected(EpochOf(start, history + [Read(r)])) >= Expected(e)
            <==> (r.Explicit? || First(c).None? || ExplicitTotal(c) >= Growth(c)
                  || r.total >= First(c).value.total + Growth(c))
  {
    var e := EpochOf(start, history);
    var n := |e.connections| - 1;
    EpochSnoc(start, history, Read(r));
    assert e.connections == e.connections[..n] + [e.connections[n]];
    ReadingSnoc(e.connections[n], r);
    TotalLossSnoc(e.connections[..n], e.connections[n]);
    TotalLossSnoc(e.connections[..n], e.connections[n] + [r]);
  }

  /** A device that restarts its counters within one connection does lower the count. */
  lemma RestartedCountersLower()
    ensures var seen := [Read(Counters(0, 0)), Read(Counters(5, 1))];
            Expected(EpochOf(NOTHING_LOST, seen)) == 5 && Expected(EpochOf(NOTHING_LOST, seen + [Read(Counters(0, 0))])) < 5
  {
    hide *;
    var one := [Read(Counters(0, 0))];
    var seen := one + [Read(Counters(5, 1))];
    assert seen == [Read(Counters(0, 0)), Read(Counters(5, 1))];
    assert [] + one == one;
    NothingYet();
    ReadingMoves(NOTHING_LOST, [], Counters(0, 0));
    ReadingMoves(NOTHING_LOST, one, Counters(5, 1));
    var e := EpochOf(NOTHING_LOST, seen);
    assert EpochOf(NOTHING_LOST, one).connections[..0] == [];
    LossOf(e.connections[0]);
    ReadingRaises(NOTHING_LOST, seen, Counters(0, 0));
  }

  lemma NothingYet()
    ensures var e := EpochOf(NOTHING_LOST, []);
            e.connections == [[]] && Dropped(e.opening) == 0 && TotalLoss([]) == 0
    ensures First([]).None? && Latest([]).None? && ExplicitTotal([]) == 0
  {
  }

  lemma LossOf(c: seq<Reading>)
    ensures First(c).Some? ==>
              && Growth(c) == Max(0, Latest(c).value.total - First(c).value.total) && Loss(c) == Max(Growth(c), ExplicitTotal(c))
              && Max(0, 5) == 5 && Max(5, 0) == 5
  {
    hide First, Latest, ExplicitTotal;
  }

  /** The account is never reset, and no connection's counters ever fall. */
  ghost predicate Steady(start: UartIntegrity, history: seq<Happening>) {
    history == [] ||
    var before, h := history[..|history| - 1], history[|history| - 1];
    && Steady(start, before)
    && (h.Read? || h.Carried? || (h.Replaced? && !h.newSession))
    && (h.Read? && h.reading.Counters? ==>
          var e := EpochOf(start, before);
          var latest := Latest(e.connections[|e.connections| - 1]);
          latest.Some? ==> h.reading.total >= latest.value.total)
  }

  /** Over a steady run the count starts at the first snapshot's and never falls. */
  lemma {:induction false} NeverFalls(start: UartIntegrity, history: seq<Happening>, i: nat)
    requires Steady(start, history) && i <= |history|
    ensures Expected(EpochOf(start, history[..i])) <= Expected(EpochOf(start, history))
    ensures EpochOf(start, history).opening == start
    ensures Dropped(start) <= Expected(EpochOf(start, history[..i]))
  {
    if i == |history| {
      assert history[..i] == history;
      if history != [] {
        NeverFalls(start, history[..|history| - 1], 0);
      }
    } else {
      var before, h := history[..|history| - 1], history[|history| - 1];
      NeverFalls(start, before, i);
      assert before[..i] == history[..i] && history == before + [h];
      if h.Read? {
        ReadingRaises(start, before, h.reading);
      } else if h.Replaced? {
        TotalLossSnoc(EpochOf(start, before).connections, []);
      }
    }
  }

  /** One more reading in the current session. */
  lemma ReadingMoves(start: UartIntegrity, history: seq<Happening>, r: Reading)
    ensures var e, g := EpochOf(start, history), EpochOf(start, history + [Read(r)]);
            var n := |e.connections| - 1;
            var c, d := e.connections[n], e.connections[n] + [r];
            && g.opening == e.opening && g.snapshot == e.snapshot && !Quiet(g)
            && |g.connections| == n + 1 && g.connections[n] == d && g.connections[..n] == e.connections[..n]
            && Expected(e) == Dropped(e.opening) + TotalLoss(e.connections[..n]) + Loss(c)
            && Expected(g) == Dropped(e.opening) + TotalLoss(e.connections[..n]) + Loss(d)
            && ExplicitTotal(d) == ExplicitTotal(c) + (if r.Explicit? then r.bytes else 0)
            && First(d) == (if First(c).Some? then First(c) else if r.Counters? then Some(r) else None)
            && Latest(d) == (if r.Counters? then Some(r) else Latest(c))
            && (Reported(g) <==> Reported(e) || LoudAt(d, |c|))
            && (Quiet(e) ==> (Reported(e) <==> e.opening.lossStatus == LossReported))
            && (ExplicitTotal(c) > 0 ==> Reported(e))
  {
    EpochSnoc(start, history, Read(r));
    var e, g := EpochOf(start, history), EpochOf(start, history + [Read(r)]);
    var n := |e.connections| - 1;
    var c, d := e.connections[n], e.connections[n] + [r];
    ReadingSnoc(c, r);
    LoudSnoc(c, r);
    assert e.connections == e.connections[..n] + [c];
    TotalLossSnoc(e.connections[..n], c);
    TotalLossSnoc(e.connections[..n], d);
    if ExplicitTotal(c) > 0 {
      LossIsLoud(c);
    }
    LastConnectionLoud(e, g, n);
  }

  lemma LastConnectionLoud(e: Epoch, g: Epoch, n: nat)
    requires |e.connections| == |g.connections| == n + 1 && e.connections[..n] == g.connections[..n]
    requires e.opening == g.opening && (Loud(e.connections[n]) ==> Loud(g.connections[n]))
    ensures Reported(g) <==> Reported(e) || Loud(g.connections[n])
  {
    assert forall k :: 0 <= k < n ==> e.connections[k] == e.connections[..n][k] && g.connections[k] == g.connections[..n][k];
    if Reported(g) && g.opening.lossStatus != LossReported && !Loud(g.connections[n]) {
      var k :| 0 <= k < |g.connections| && Loud(g.connections[k]);
      assert Loud(e.connections[k]);
    }
    if Reported(e) && e.opening.lossStatus != LossReported {
      var k :| 0 <= k < |e.connections| && Loud(e.connections[k]);
      assert Loud(g.connections[k]);
    }
  }

  /** A first reading in a session of its own. */
  lemma AcrossMoves(start: UartIntegrity, history: seq<Happening>, r: Reading)
    ensures var g := EpochOf(start, history + [ReadAcross(r)]);
            && g == Epoch(NOTHING_LOST, EpochOf(start, history).snapshot, [[r]]) && !Quiet(g)
            && g.connections[..0] == [] && Expected(g) == ExplicitTotal([r]) == (if r.Explicit? then r.bytes else 0)
            && First([r]) == (if r.Counters? then Some(r) else None)
            && (Reported(g) <==> r.Explicit?)
  {
    EpochSnoc(start, history, ReadAcross(r));
    ReadingSnoc([], r);
    LoudSnoc([], r);
    assert [] + [r] == [r];
    TotalLossSnoc([], [r]);
    assert [] + [[r]] == [[r]];
    var g := EpochOf(start, history + [ReadAcross(r)]);
    if r.Explicit? {
      assert Loud(g.connections[0]);
    }
  }

  lemma ReplacementMoves(start: UartIntegrity, history: seq<Happening>, snapshot: UartIntegrity, newSession: bool)
    ensures var e, g := EpochOf(start, history), EpochOf(start, history + [Replaced(snapshot, newSession)]);
            g == if newSession then Epoch(snapshot, snapshot, [[]]) else Epoch(e.opening, snapshot, e.connections + [[]])
  {
    EpochSnoc(start, history, Replaced(snapshot, newSession));
  }

  /** A connection that has said nothing yet changes nothing. */
  lemma SilentConnection(e: Epoch, g: Epoch)
    requires g.opening == e.opening && g.connections == e.connections + [[]]
    ensures Expected(g) == Expected(e) && ExpectedIntegrity(g) == ExpectedIntegrity(e)
  {
    TotalLossSnoc(e.connections, []);
    var n := |e.connections|;
    assert forall k :: 0 <= k < n ==> g.connections[k] == e.connections[k];
    assert !Loud(g.connections[n]);
    assert Reported(g) <==> Reported(e) by {
      if Reported(e) && e.opening.lossStatus != LossReported {
        var k :| 0 <= k < n && Loud(e.connections[k]);
        assert Loud(g.connections[k]);
      }
    }
    hide Reported, Expected;
  }

  // ----- The recorder -----

  /** The recorder's fields, as values. */
  datatype Account = Account(
    statusBaseline: Option<(nat, nat)>,
    sessionDropped: nat,
    connectionStart: nat,
    explicitOverflow: nat,
    integrity: UartIntegrity,
    snapshotIntegrity: UartIntegrity)

  ghost predicate Tracks(a: Account, e: Epoch)
    requires e.connections != []
  {
    var n := |e.connections| - 1;
    var c := e.connections[n];
    && a.connectionStart == Dropped(e.opening) + TotalLoss(e.connections[..n])
    && a.explicitOverflow == ExplicitTotal(c)
    && a.sessionDropped == Expected(e)
    && a.statusBaseline == (if First(c).None? then None else Some((First(c).value.total, First(c).value.overflows)))
    && a.integrity == ExpectedIntegrity(e)
    && a.snapshotIntegrity == e.snapshot
  }

  ghost predicate TracksHistory(a: Account, start: UartIntegrity, history: seq<Happening>) {
    ValidHistory(start, history) && Tracks(a, EpochOf(start, history))
  }

  lemma TracksNothing(a: Account, start: UartIntegrity)
    requires ValidIntegrity(start) && a == Account(None, Dropped(start), Dropped(start), 0, start, start)
    ensures TracksHistory(a, start, [])
  {
    var e := EpochOf(start, []);
    TotalLossSnoc([], []);
    assert e.connections == [] + [[]] && e.connections[..0] == [];
  }

  lemma OverflowTracked(a: Account, start: UartIntegrity, history: seq<Happening>, bytes: nat, b: Account)
    requires TracksHistory(a, start, history)
    requires var projected := Max(a.sessionDropped, a.connectionStart + a.explicitOverflow + bytes);
             b == a.(sessionDropped := projected, explicitOverflow := a.explicitOverflow + bytes,
                     integrity := UartIntegrity(LossReported, true, Some(projected)))
    ensures TracksHistory(b, start, history + [Read(Explicit(bytes))])
  {
    ReadingMoves(start, history, Explicit(bytes));
    hide EpochOf, Quiet, Reported, Expected, TotalLoss, ExplicitTotal, First, Latest;
  }

  lemma OverflowAcrossTracked(a: Account, start: UartIntegrity, history: seq<Happening>, bytes: nat, b: Account)
    requires TracksHistory(a, start, history)
    requires b == Account(None, bytes, 0, bytes, UartIntegrity(LossReported, true, Some(bytes)), a.snapshotIntegrity)
    ensures TracksHistory(b, start, history + [ReadAcross(Explicit(bytes))])
  {
    AcrossMoves(start, history, Explicit(bytes));
    hide EpochOf, Quiet, Reported, Expected, ExplicitTotal, First, Latest;
  }

  lemma StatusTracked(a: Account, start: UartIntegrity, history: seq<Happening>, total: nat, overflows: nat, b: Account)
    requires TracksHistory(a, start, history)
    requires var (bt, bo) := if a.statusBaseline.Some? then a.statusBaseline.value else (total, overflows);
             var lost := Max(Max(0, total - bt), a.explicitOverflow);
             var reported := a.integrity.lossStatus == LossReported || lost > 0 || overflows > bo;
             b == a.(statusBaseline := Some((bt, bo)), sessionDropped := a.connectionStart + lost,
                     integrity := UartIntegrity(if reported then LossReported else NoneReported, true, Some(a.connectionStart + lost)))
    ensures TracksHistory(b, start, history + [Read(Counters(total, overflows))])
  {
    ReadingMoves(start, history, Counters(total, overflows));
    hide EpochOf, Quiet, Reported, Expected, TotalLoss, ExplicitTotal, First, Latest;
  }

  lemma StatusAcrossTracked(a: Account, start: UartIntegrity, history: seq<Happening>, total: nat, overflows: nat, b: Account)
    requires TracksHistory(a, start, history)
    requires b == Account(Some((total, overflows)), 0, 0, 0, NOTHING_LOST, a.snapshotIntegrity)
    ensures TracksHistory(b, start, history + [ReadAcross(Counters(total, overflows))])
  {
    AcrossMoves(start, history, Counters(total, overflows));
    hide EpochOf, Quiet, Reported, Expected, ExplicitTotal, First, Latest;
  }

  lemma ReplacementTracked(a: Account, start: UartIntegrity, history: seq<Happening>, snapshot: UartIntegrity, newSession: bool, b: Account)
    requires TracksHistory(a, start, history) && ValidIntegrity(snapshot)
    requires var dropped := if newSession then Dropped(snapshot) else a.sessionDropped;
             b == Account(None, dropped, dropped, 0, if newSession then snapshot else a.integrity, snapshot)
    ensures TracksHistory(b, start, history + [Replaced(snapshot, newSession)])
  {
    var e, g := EpochOf(start, history), EpochOf(start, history + [Replaced(snapshot, newSession)]);
    ReplacementMoves(start, history, snapshot, newSession);
    if newSession {
      TracksNothing(b, snapshot);
    } else {
      SilentConnection(e, g);
      assert g.connections[..|e.connections|] == e.connections;
    }
    hide EpochOf, Quiet, Reported, TotalLoss;
  }

  lemma RollOverTracked(a: Account, start: UartIntegrity, history: seq<Happening>, b: Account)
    requires TracksHistory(a, start, history)
    requires var s := a.snapshotIntegrity; b == Account(None, Dropped(s), Dropped(s), 0, s, s)
    ensures TracksHistory(b, start, history + [RolledOver])
  {
    EpochSnoc(start, history, RolledOver);
    OpeningValid(start, history);
    TracksNothing(b, EpochOf(start, history).snapshot);
    hide Quiet, Reported, TotalLoss;
  }

  lemma TrackedIsValid(a: Account, start: UartIntegrity, history: seq<Happening>)
    requires TracksHistory(a, start, history)
    ensures ValidIntegrity(a.integrity)
  {
    AlwaysValid(start, history);
  }

  class LossAccount {
    var statusBaseline: Option<(nat, nat)>
    var sessionDropped: nat
    var connectionStart: nat
    var explicitOverflow: nat
    var integrity: UartIntegrity
    var snapshotIntegrity: UartIntegrity

    ghost const start: UartIntegrity
    ghost var history: seq<Happening>

    ghost function Fields(): Account
      reads this
    {
      Account(statusBaseline, sessionDropped, connectionStart, explicitOverflow, integrity, snapshotIntegrity)
    }

    /** The fields are what the reference computes from everything that happened. */
    ghost predicate Valid()
      reads this
    {
      TracksHistory(Fields(), start, history)
    }

    constructor (snapshot: UartIntegrity)
      requires ValidIntegrity(snapshot)
      ensures Valid() && start == snapshot && history == []
    {
      statusBaseline, explicitOverflow := None, 0;
      sessionDropped, connectionStart := Dropped(snapshot), Dropped(snapshot);
      integrity, snapshotIntegrity, start, history := snapshot, snapshot, snapshot, [];
      new;
      TracksNothing(Fields(), snapshot);
      hide TracksHistory;
    }

    /** An explicit overflow event, stored in the current session or, rolled over, in a new one. */
    method RecordOverflow(droppedBytes: nat, rolledOver: bool)
      requires Valid()
      modifies this
      ensures Valid()
      ensures history == old(history) + [if rolledOver then ReadAcross(Explicit(droppedBytes)) else Read(Explicit(droppedBytes))]
      ensures ValidIntegrity(integrity) && integrity.lossStatus == LossReported
    {
      hide TracksHistory;
      ghost var before := Fields();
      var projected := Max(sessionDropped, connectionStart + explicitOverflow + droppedBytes);
      if rolledOver {
        statusBaseline := None;
        connectionStart, explicitOverflow, projected := 0, droppedBytes, droppedBytes;
      } else {
        explicitOverflow := explicitOverflow + droppedBytes;
      }
      sessionDropped := projected;
      integrity := UartIntegrity(LossReported, true, Some(projected));
      if rolledOver {
        OverflowAcrossTracked(before, start, history, droppedBytes, Fields());
        history := history + [ReadAcross(Explicit(droppedBytes))];
      } else {
        OverflowTracked(before, start, history, droppedBytes, Fields());
        history := history + [Read(Explicit(droppedBytes))];
      }
    }

    /** A status event. */
    method RecordStatus(droppedTotal: nat, overflowEvents: nat, rolledOver: bool)
      requires Valid()
      modifies this
      ensures Valid()
      ensures history == old(history) +
                         [if rolledOver then ReadAcross(Counters(droppedTotal, overflowEvents)) else Read(Counters(droppedTotal, overflowEvents))]
      ensures ValidIntegrity(integrity)
      ensures !rolledOver && old(integrity).lossStatus == LossReported ==> integrity.lossStatus == LossReported
    {
      hide TracksHistory;
      ghost var before := Fields();
      if statusBaseline.None? {
        statusBaseline := Some((droppedTotal, overflowEvents));
      }
      var (baselineDropped, baselineOverflows) := statusBaseline.value;
      var statusDelta := Max(0, droppedTotal - baselineDropped);
      var connectionDropped := Max(statusDelta, explicitOverflow);
      var projected := connectionStart + connectionDropped;
      var priorLoss := integrity.lossStatus == LossReported;
      var reportedLoss := priorLoss || connectionDropped > 0 || overflowEvents > baselineOverflows;
      if rolledOver {
        statusBaseline := Some((droppedTotal, overflowEvents));
        connectionStart, explicitOverflow, projected, reportedLoss := 0, 0, 0, false;
      }
      sessionDropped := projected;
      integrity := UartIntegrity(if reportedLoss then LossReported else NoneReported, true, Some(projected));
      if rolledOver {
        StatusAcrossTracked(before, start, history, droppedTotal, overflowEvents, Fields());
        history := history + [ReadAcross(Counters(droppedTotal, overflowEvents))];
      } else {
        StatusTracked(before, start, history, droppedTotal, overflowEvents, Fields());
        history := history + [Read(Counters(droppedTotal, overflowEvents))];
      }
      TrackedIsValid(Fields(), start, history);
    }

    /** A replacement source, in the same session or, on manual reacquisition or rollover, a new one. */
    method ReplaceSource(snapshot: UartIntegrity, rolledOver: bool, newOwnershipSession: bool)
      requires Valid() && ValidIntegrity(snapshot) && (newOwnershipSession ==> rolledOver)
      modifies this
      ensures Valid()
      ensures history == old(history) + [Replaced(snapshot, rolledOver)]
      ensures ValidIntegrity(integrity)
      ensures !rolledOver ==> sessionDropped == old(sessionDropped) && integrity == old(integrity)
    {
      hide TracksHistory;
      ghost var before := Fields();
      statusBaseline := None;
      if rolledOver {
        ResetIntegrity(snapshot);
      }
      connectionStart := sessionDropped;
      explicitOverflow := 0;
      integrity := if newOwnershipSession then snapshot else integrity;
      snapshotIntegrity := snapshot;
      ReplacementTracked(before, start, history, snapshot, rolledOver, Fields());
      history := history + [Replaced(snapshot, rolledOver)];
      TrackedIsValid(Fields(), start, history);
    }

    /** A record after which the account is reset when the store put it into a new session: received
        bytes, line boundaries, actions, operations, and unexpected disconnects. */
    method RollOver()
      requires Valid()
      modifies this
      ensures Valid() && history == old(history) + [RolledOver]
      ensures ValidIntegrity(integrity) && integrity == snapshotIntegrity
    {
      hide TracksHistory;
      ghost var before := Fields();
      ResetIntegrity(snapshotIntegrity);
      RollOverTracked(before, start, history, Fields());
      history := history + [RolledOver];
      TrackedIsValid(Fields(), start, history);
    }

    /** A connection-ownership record, or the end of an operation at a fault or a reconnect timeout: if the
        store puts it into a new session, the account goes on unchanged, so that session's statement
        includes what the one before it owned up to. */
    method CarryOver()
      requires Valid()
      modifies this`history
      ensures Valid() && history == old(history) + [Carried]
      ensures ValidIntegrity(integrity)
    {
      EpochSnoc(start, history, Carried);
      TrackedIsValid(Fields(), start, history);
      history := history + [Carried];
    }

    /** `_reset_integrity_after_rollover`. */
    method ResetIntegrity(snapshot: UartIntegrity)
      modifies `sessionDropped, `connectionStart, `explicitOverflow, `statusBaseline, `integrity
      ensures sessionDropped == connectionStart == Dropped(snapshot) && explicitOverflow == 0
      ensures statusBaseline == None && integrity == snapshot
    {
      sessionDropped := Dropped(snapshot);
      connectionStart, explicitOverflow, statusBaseline, integrity := sessionDropped, 0, None, snapshot;
    }
  }
}
