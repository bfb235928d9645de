/**
  What the evidence journal looks like around a manual release, in runs without a fault.

  The receive thread journals what the source hands out; the releasing thread closes the source and
  waits until the receive thread has drained it. Journal appends happen under the admission lock and
  are single steps, as are regions under `_condition`. That only one ownership attempt is in flight at
  a time is `Ownership.OneAttempt`; here `owner` is that attempt.
*/
module ReleaseDrain {
  import opened Wrappers

  type SourceId = nat
  type Event = nat

  datatype Record =
    | Received(source: SourceId, event: Event)
    | ReleaseRequested
    | Released(source: SourceId)
    | ReacquireStarted
    | ReacquireSucceeded
    | ReacquireFailed
    | UnexpectedDisconnect
    | ReconnectSucceeded
    | ReconnectFailed

  datatype Phase = Connected | Reconnecting | InReleased | Reacquiring | Disconnected | Closed

  datatype Ingest =
    | Choosing
    | Reading(source: SourceId)
    | Holding(source: SourceId, event: Event)
    | Disconnecting(source: SourceId)
    | Parked(source: SourceId)
    | Stopped

  datatype Owner =
    | Nobody
    | Requesting(source: SourceId)
    | Closing(source: SourceId)
    | CloseReturned(source: SourceId)
    | AwaitingDrain(source: SourceId)
    | Journaled(source: SourceId)
    | BeganReacquire
    | Opening
    | Replacing

  /** What one source ever received from the device, how much of it was handed out, and whether it is shut. */
  datatype Source = Source(arrived: seq<Event>, handed: nat, shut: bool)

  datatype State = State(
    journal: seq<Record>,
    phase: Phase,
    source: Option<SourceId>,
    sources: map<SourceId, Source>,
    next: SourceId,
    ingest: Ingest,
    owner: Owner,
    releasing: bool,
    closeComplete: bool,
    drained: bool,
    closing: bool)

  const FRESH := Source([], 0, false)
  const START := State([], Connected, Some(0), map[], 1, Choosing, Nobody, false, false, false, false)

  function S(s: State, x: SourceId): Source {
    if x in s.sources then s.sources[x] else FRESH
  }

  datatype Step =
    | Arrive(source: SourceId, event: Event)
    | Engage
    | HandOut
    | ReadNothing
    | JournalEvent
    | SeeDisconnect
    | RecordDisconnect
    | Unpark
    | FinishDrain
    | StopIngest
    | BeginRelease
    | JournalRequest
    | CloseSource
    | CloseCompletes
    | JournalReleased
    | FinishRelease
    | BeginReacquire
    | JournalStarted
    | Republish
    | GiveUpReacquire
    | Detach
    | Reconnect
    | GiveUpReconnect
    | BeginClose
    | EndClose

  predicate Enabled(s: State, step: Step) {
    match step
    case Arrive(x, _) => x < s.next && !S(s, x).shut
    case Engage => s.ingest.Choosing? && s.source.Some?
    case HandOut => s.ingest.Reading? && S(s, s.ingest.source).handed < |S(s, s.ingest.source).arrived|
    case ReadNothing => s.ingest.Reading?
    case JournalEvent => s.ingest.Holding?
    case SeeDisconnect => s.ingest.Reading? && !s.releasing
    case RecordDisconnect => s.ingest.Disconnecting?
    case Unpark => s.ingest.Parked? && (s.source != Some(s.ingest.source) || s.closing)
    case FinishDrain =>
      && s.ingest.Reading? && s.releasing && s.closeComplete
      && S(s, s.ingest.source).handed >= |S(s, s.ingest.source).arrived|
    case StopIngest => s.closing && (s.ingest.Reading? || s.ingest.Choosing?)
    case BeginRelease => s.owner.Nobody? && s.phase == Connected && s.source.Some? && !s.closing
    case JournalRequest => s.owner.Requesting?
    case CloseSource => s.owner.Closing?
    case CloseCompletes => s.owner.CloseReturned?
    case JournalReleased => s.owner.AwaitingDrain? && s.drained
    case FinishRelease => s.owner.Journaled?
    case BeginReacquire => s.owner.Nobody? && (s.phase == InReleased || s.phase == Disconnected) && !s.closing
    case JournalStarted => s.owner.BeganReacquire?
    case Republish => s.owner.Opening? && s.phase == Reacquiring && s.source.None? && !s.closing
    case GiveUpReacquire => s.owner.Opening?
    case Detach => s.owner.Nobody? && s.phase == Reconnecting && s.source.Some? && !s.closing
    case Reconnect => s.owner.Replacing? && s.phase == Reconnecting && s.source.None? && !s.closing
    case GiveUpReconnect => s.owner.Replacing?
    case BeginClose => !s.closing
    case EndClose => s.closing && s.ingest.Stopped?
  }

  function Log(s: State, r: Record): State {
    s.(journal := s.journal + [r])
  }

  function WithSource(s: State, x: SourceId, source: Source): State {
    s.(sources := s.sources[x := source])
  }

  function Publish(s: State, r: Record): State {
    Log(s, r).(source := Some(s.next), next := s.next + 1, phase := Connected, owner := Nobody)
  }

  function Do(s: State, step: Step): State
    requires Enabled(s, step)
  {
    match step
    case Arrive(x, e) => WithSource(s, x, S(s, x).(arrived := S(s, x).arrived + [e]))
    case Engage => s.(ingest := Reading(s.source.value))
    case HandOut =>
      var x := s.ingest.source;
      var src := S(s, x);
      WithSource(s, x, src.(handed := src.handed + 1)).(ingest := Holding(x, src.arrived[src.handed]))
    case ReadNothing => s.(ingest := Choosing)
    case JournalEvent => Log(s, Received(s.ingest.source, s.ingest.event)).(ingest := Choosing)
    case SeeDisconnect => s.(ingest := Disconnecting(s.ingest.source))
    case RecordDisconnect =>
      if s.closing || s.source != Some(s.ingest.source) then s.(ingest := Choosing)
      else Log(s, UnexpectedDisconnect).(phase := Reconnecting, ingest := Parked(s.ingest.source))
    case Unpark => s.(ingest := Choosing)
    case FinishDrain =>
      s.(drained := true, source := if s.source == Some(s.ingest.source) then None else s.source, ingest := Choosing)
    case StopIngest => s.(ingest := Stopped)
    case BeginRelease => s.(releasing := true, closeComplete := false, drained := false, owner := Requesting(s.source.value))
    case JournalRequest => Log(s, ReleaseRequested).(owner := Closing(s.owner.source))
    case CloseSource => WithSource(s, s.owner.source, S(s, s.owner.source).(shut := true)).(owner := CloseReturned(s.owner.source))
    case CloseCompletes => s.(closeComplete := true, owner := AwaitingDrain(s.owner.source))
    case JournalReleased => Log(s, Released(s.owner.source)).(owner := Journaled(s.owner.source))
    case FinishRelease => s.(phase := InReleased, releasing := false, owner := Nobody)
    case BeginReacquire => s.(phase := Reacquiring, owner := BeganReacquire)
    case JournalStarted => Log(s, ReacquireStarted).(owner := Opening)
    case Republish => Publish(s, ReacquireSucceeded)
    case GiveUpReacquire => Log(s, ReacquireFailed).(phase := InReleased, owner := Nobody)
    case Detach => WithSource(s, s.source.value, S(s, s.source.value).(shut := true)).(source := None, owner := Replacing)
    case Reconnect => Publish(s, ReconnectSucceeded)
    case GiveUpReconnect => Log(s, ReconnectFailed).(phase := Disconnected, owner := Nobody)
    case BeginClose => s.(closing := true)
    case EndClose => s.(source := None, phase := Closed)
  }

  function Final(run: seq<Step>): Option<State> {
    if run == [] then Some(START)
    else match Final(run[..|run| - 1])
         case Some(before) =>
           var step := run[|run| - 1];
           if Enabled(before, step) then Some(Do(before, step)) else None
         case None => None
  }

  // ----- Reading the journal -----

  /** The events of source `x` in the journal, in order. */
  ghost function EventsOf(journal: seq<Record>, x: SourceId): seq<Event> {
    if journal == [] then []
    else
      var r := journal[|journal| - 1];
      EventsOf(journal[..|journal| - 1], x) + if r.Received? && r.source == x then [r.event] else []
  }

  /** Whether the journal's latest ownership record allows receive records to follow. */
  ghost predicate Receiving(journal: seq<Record>) {
    journal == [] ||
    var r := journal[|journal| - 1];
    r.ReacquireSucceeded? || (!r.Released? && Receiving(journal[..|journal| - 1]))
  }

  lemma LogSnoc(journal: seq<Record>, r: Record, x: SourceId)
    ensures EventsOf(journal + [r], x) == EventsOf(journal, x) + if r.Received? && r.source == x then [r.event] else []
    ensures !(r.Received? && r.source == x) ==> EventsOf(journal + [r], x) == EventsOf(journal, x)
    ensures Receiving(journal + [r]) == (r.ReacquireSucceeded? || (!r.Released? && Receiving(journal)))
  {
    assert (journal + [r])[..|journal|] == journal;
    assert EventsOf(journal, x) + [] == EventsOf(journal, x);
  }

  // ----- What every state satisfies -----

  ghost function Hand(ingest: Ingest, x: SourceId): seq<Event> {
    if ingest.Holding? && ingest.source == x then [ingest.event] else []
  }

  /** Everything handed out is in the journal, but for the one event in the receive thread's hand. */
  ghost predicate Conserved(journal: seq<Record>, ingest: Ingest, x: SourceId, src: Source) {
    && src.handed <= |src.arrived|
    && EventsOf(journal, x) + Hand(ingest, x) == src.arrived[..src.handed]
  }

  /** A released source's events all come before its release. */
  ghost predicate ReleasedDrained(s: State) {
    forall k :: 0 <= k < |s.journal| && s.journal[k].Released? ==>
      && S(s, s.journal[k].source).shut
      && EventsOf(s.journal[..k], s.journal[k].source) == S(s, s.journal[k].source).arrived
  }

  ghost predicate ReceivesAllowed(journal: seq<Record>) {
    forall k :: 0 <= k < |journal| && journal[k].Received? ==> Receiving(journal[..k])
  }

  predicate Engaged(ingest: Ingest) {
    ingest.Reading? || ingest.Holding? || ingest.Disconnecting?
  }

  predicate InRelease(owner: Owner) {
    owner.Requesting? || owner.Closing? || owner.CloseReturned? || owner.AwaitingDrain? || owner.Journaled?
  }

  ghost predicate Control(s: State) {
    && (Engaged(s.ingest) ==> s.source == Some(s.ingest.source))
    && (s.phase == Reconnecting && s.source.Some? && !s.closing ==> s.ingest == Parked(s.source.value))
    && (s.releasing <==> InRelease(s.owner))
    && (InRelease(s.owner) && s.source.Some? ==> s.source == Some(s.owner.source))
    && (s.releasing && s.closeComplete ==> s.owner.AwaitingDrain? || s.owner.Journaled?)
    && (s.owner.CloseReturned? || s.owner.AwaitingDrain? || s.owner.Journaled? ==> S(s, s.owner.source).shut)
    && (InRelease(s.owner) && s.drained ==>
          s.source.None? && S(s, s.owner.source).shut && S(s, s.owner.source).handed == |S(s, s.owner.source).arrived|)
    && (s.owner.Journaled? ==> s.drained)
    && (s.phase == InReleased || s.phase == Reacquiring || s.phase == Disconnected ==> s.source.None?)
    && (s.owner.Replacing? || s.owner.Opening? || s.owner.BeganReacquire? ==> s.source.None?)
    && (s.source.Some? || s.owner.Replacing? ==> Receiving(s.journal))
  }

  ghost predicate Inv(s: State) {
    && Control(s)
    && (forall x :: Conserved(s.journal, s.ingest, x, S(s, x)))
    && ReleasedDrained(s) && ReceivesAllowed(s.journal)
  }

  lemma ControlKept(s: State, step: Step)
    requires Control(s) && Enabled(s, step)
    requires s.ingest.Reading? ==> S(s, s.ingest.source).handed <= |S(s, s.ingest.source).arrived|
    ensures Control(Do(s, step))
  {
    Logged(s);
    hide Receiving, EventsOf;
  }

  /** What each kind of record does to the journal's reading. */
  lemma Logged(s: State)
    ensures forall r :: Receiving(s.journal + [r]) == (r.ReacquireSucceeded? || (!r.Released? && Receiving(s.journal)))
  {
    forall r
      ensures Receiving(s.journal + [r]) == (r.ReacquireSucceeded? || (!r.Released? && Receiving(s.journal)))
    {
      LogSnoc(s.journal, r, 0);
    }
  }

  /** The record a step appends, if any. */
  ghost function Appended(s: State, step: Step): seq<Record>
    requires Enabled(s, step)
  {
    match step
    case JournalEvent => [Received(s.ingest.source, s.ingest.event)]
    case RecordDisconnect => if s.closing || s.source != Some(s.ingest.source) then [] else [UnexpectedDisconnect]
    case JournalRequest => [ReleaseRequested]
    case JournalReleased => [Released(s.owner.source)]
    case JournalStarted => [ReacquireStarted]
    case Republish => [ReacquireSucceeded]
    case GiveUpReacquire => [ReacquireFailed]
    case Reconnect => [ReconnectSucceeded]
    case GiveUpReconnect => [ReconnectFailed]
    case _ => []
  }

  lemma JournalEffect(s: State, step: Step)
    requires Enabled(s, step)
    ensures Do(s, step).journal == s.journal + Appended(s, step)
  {
    assert s.journal + [] == s.journal;
    hide S, WithSource;
  }

  /** A step's effect on one source. */
  lemma SourceEffect(s: State, step: Step, x: SourceId)
    requires Enabled(s, step)
    ensures var g := Do(s, step);
            && (S(s, x).shut ==> S(g, x).shut && S(g, x).arrived == S(s, x).arrived)
            && (match step
                case Arrive(y, e) => S(g, x) == if x == y then S(s, x).(arrived := S(s, x).arrived + [e]) else S(s, x)
                case HandOut => S(g, x) == if x == s.ingest.source then S(s, x).(handed := S(s, x).handed + 1) else S(s, x)
                case _ => S(g, x).arrived == S(s, x).arrived && S(g, x).handed == S(s, x).handed)
  {
    var g := Do(s, step);
    match step {
      case Arrive(y, e) => SourceUpdated(s, y, S(s, y).(arrived := S(s, y).arrived + [e]), x);
      case HandOut =>
        var src := S(s, s.ingest.source);
        SourceUpdated(s, s.ingest.source, src.(handed := src.handed + 1), x);
      case CloseSource => SourceUpdated(s, s.owner.source, S(s, s.owner.source).(shut := true), x);
      case Detach => SourceUpdated(s, s.source.value, S(s, s.source.value).(shut := true), x);
      case _ => assert g.sources == s.sources;
    }
    hide WithSource;
  }

  lemma SourceUpdated(s: State, y: SourceId, src: Source, x: SourceId)
    ensures S(WithSource(s, y, src), x) == if x == y then src else S(s, x)
  {
  }

  lemma HandEffect(s: State, step: Step, x: SourceId)
    requires Enabled(s, step)
    ensures !step.JournalEvent? && !step.HandOut? ==> Hand(Do(s, step).ingest, x) == Hand(s.ingest, x)
    ensures step.JournalEvent? ==> Hand(Do(s, step).ingest, x) == []
    ensures step.HandOut? ==>
              && Hand(s.ingest, x) == []
              && Hand(Do(s, step).ingest, x) == if x == s.ingest.source then [S(s, x).arrived[S(s, x).handed]] else []
  {
    hide S;
  }

  lemma TakeOneMore(arrived: seq<Event>, n: nat, journaled: seq<Event>)
    requires n < |arrived| && journaled + [] == arrived[..n]
    ensures journaled + [arrived[n]] == arrived[..n + 1]
  {
    assert journaled == journaled + [];
  }

  lemma ConservedKept(s: State, step: Step, x: SourceId)
    requires Enabled(s, step) && Conserved(s.journal, s.ingest, x, S(s, x))
    ensures Conserved(Do(s, step).journal, Do(s, step).ingest, x, S(Do(s, step), x))
  {
    JournalEffect(s, step);
    SourceEffect(s, step, x);
    HandEffect(s, step, x);
    var src, added := S(s, x), Appended(s, step);
    AppendedEvents(s, step, x);
    assert step.HandOut? && x == s.ingest.source ==> src.handed < |src.arrived|;
    assert step.JournalEvent? ==> s.ingest.Holding?;
    hide *;
    if step.Arrive? {
      assert Do(s, step).journal == s.journal + added;
      ConservedArrive(s.journal, s.ingest, x, src, step.event);
    } else if step.HandOut? && x == s.ingest.source {
      ConservedMeans(s.journal, s.ingest, x, src);
      TakeOneMore(src.arrived, src.handed, EventsOf(s.journal, x));
    } else if step.JournalEvent? {
      NoneAdded(EventsOf(s.journal + added, x));
    }
    ConservedMeans(s.journal, s.ingest, x, src);
    ConservedMeans(Do(s, step).journal, Do(s, step).ingest, x, S(Do(s, step), x));
  }

  lemma ConservedMeans(journal: seq<Record>, ingest: Ingest, x: SourceId, src: Source)
    ensures Conserved(journal, ingest, x, src) <==>
            src.handed <= |src.arrived| && EventsOf(journal, x) + Hand(ingest, x) == src.arrived[..src.handed]
  {
  }

  lemma ConservedArrive(journal: seq<Record>, ingest: Ingest, x: SourceId, src: Source, e: Event)
    requires Conserved(journal, ingest, x, src)
    ensures (src.arrived + [e])[..src.handed] == src.arrived[..src.handed]
  {
  }

  lemma NoneAdded(events: seq<Event>)
    ensures events + [] == events
  {
  }

  lemma AppendedEvents(s: State, step: Step, x: SourceId)
    requires Enabled(s, step)
    ensures EventsOf(s.journal + Appended(s, step), x) ==
            if step.JournalEvent? then EventsOf(s.journal, x) + Hand(s.ingest, x) else EventsOf(s.journal, x)
  {
    var added := Appended(s, step);
    assert EventsOf(s.journal, x) + [] == EventsOf(s.journal, x);
    if added == [] {
      assert s.journal + added == s.journal;
    } else {
      assert added == [added[0]];
      LogSnoc(s.journal, added[0], x);
    }
    hide EventsOf, S;
  }

  lemma ReleasedKept(s: State, step: Step)
    requires Inv(s) && Enabled(s, step)
    ensures ReleasedDrained(Do(s, step))
  {
    var g := Do(s, step);
    var added := Appended(s, step);
    JournalEffect(s, step);
    if step.JournalReleased? {
      DrainedIsJournaled(s);
    }
    hide Do, Enabled, EventsOf, Control, S, Conserved;
    forall k | 0 <= k < |g.journal| && g.journal[k].Released?
      ensures S(g, g.journal[k].source).shut
      ensures EventsOf(g.journal[..k], g.journal[k].source) == S(g, g.journal[k].source).arrived
    {
      SourceEffect(s, step, g.journal[k].source);
      if k < |s.journal| {
        assert g.journal[..k] == s.journal[..k] && g.journal[k] == s.journal[k];
      } else {
        assert g.journal[k] == added[k - |s.journal|] && g.journal[..k] == s.journal;
      }
    }
  }

  /** When a release is about to be journaled, all its source ever received is in the journal. */
  lemma DrainedIsJournaled(s: State)
    requires Inv(s) && s.owner.AwaitingDrain? && s.drained
    ensures S(s, s.owner.source).shut && EventsOf(s.journal, s.owner.source) == S(s, s.owner.source).arrived
  {
    var x := s.owner.source;
    assert Conserved(s.journal, s.ingest, x, S(s, x));
    assert EventsOf(s.journal, x) + [] == EventsOf(s.journal, x);
    assert S(s, x).arrived[..|S(s, x).arrived|] == S(s, x).arrived;
  }

  lemma AllowedKept(s: State, step: Step)
    requires Control(s) && ReceivesAllowed(s.journal) && Enabled(s, step)
    ensures ReceivesAllowed(Do(s, step).journal)
  {
    JournalEffect(s, step);
    var g, added := Do(s, step), Appended(s, step);
    assert step.JournalEvent? ==> Receiving(s.journal);
    hide Do, Enabled, EventsOf, Control, S, Receiving;
    forall k | 0 <= k < |g.journal| && g.journal[k].Received?
      ensures Receiving(g.journal[..k])
    {
      if k < |s.journal| {
        assert g.journal[..k] == s.journal[..k] && g.journal[k] == s.journal[k];
      } else {
        assert g.journal[k] == added[k - |s.journal|] && g.journal[..k] == s.journal;
      }
    }
  }

  lemma {:induction false} RunKeepsInv(run: seq<Step>)
    requires Final(run).Some?
    ensures Inv(Final(run).value)
  {
    if run == [] {
      assert forall x :: S(START, x) == FRESH;
    } else {
      var before, step := Final(run[..|run| - 1]).value, run[|run| - 1];
      RunKeepsInv(run[..|run| - 1]);
      assert before.ingest.Reading? ==> Conserved(before.journal, before.ingest, before.ingest.source, S(before, before.ingest.source));
      ReleasedKept(before, step);
      hide Do, Enabled, EventsOf, Control, S, ReleasedDrained;
      ControlKept(before, step);
      AllowedKept(before, step);
      forall x
        ensures Conserved(Do(before, step).journal, Do(before, step).ingest, x, S(Do(before, step), x))
      {
        ConservedKept(before, step, x);
      }
    }
  }

  // ----- The promises -----

  /** Every event a source received before it was closed for release is journaled before "released". */
  lemma DrainedBeforeReleased(run: seq<Step>, k: nat)
    requires Final(run).Some?
    requires k < |Final(run).value.journal| && Final(run).value.journal[k].Released?
    ensures var s := Final(run).value;
            EventsOf(s.journal[..k], s.journal[k].source) == S(s, s.journal[k].source).arrived
  {
    RunKeepsInv(run);
  }

  /** Between "released" and the next "reacquire_succeeded" nothing received is journaled. */
  lemma QuietAfterReleased(run: seq<Step>, i: nat, j: nat)
    requires Final(run).Some?
    requires var journal := Final(run).value.journal; i < j < |journal| && journal[i].Released? && journal[j].Received?
    ensures exists k :: i < k < j && Final(run).value.journal[k].ReacquireSucceeded?
  {
    RunKeepsInv(run);
    StaysQuiet(Final(run).value.journal, i, j);
  }

  lemma {:induction false} StaysQuiet(journal: seq<Record>, i: nat, j: nat)
    requires i < j <= |journal| && journal[i].Released? && Receiving(journal[..j])
    ensures exists k :: i < k < j && journal[k].ReacquireSucceeded?
  {
    var r := journal[..j][j - 1];
    assert journal[..j][..j - 1] == journal[..j - 1];
    if r.ReacquireSucceeded? {
      assert journal[j - 1].ReacquireSucceeded?;
    } else {
      StaysQuiet(journal, i, j - 1);
    }
  }

  /** At every moment the receive thread owes the journal at most the one event it holds. */
  lemma NothingDropped(run: seq<Step>, x: SourceId)
    requires Final(run).Some?
    ensures var s := Final(run).value;
            Conserved(s.journal, s.ingest, x, S(s, x))
  {
    RunKeepsInv(run);
  }

  // ----- A run with a release and a reacquisition -----

  ghost predicate Reachable(s: State) {
    exists run :: Final(run) == Some(s)
  }

  lemma StartIsReachable()
    ensures Reachable(START)
  {
    assert Final([]) == Some(START);
  }

  lemma TakeStep(s: State, step: Step, next: State)
    requires Reachable(s) && Enabled(s, step) && next == Do(s, step)
    ensures Reachable(next)
  {
    var run :| Final(run) == Some(s);
    assert (run + [step])[..|run|] == run;
    assert Final(run + [step]) == Some(next);
  }

  /** An event arrives while its source is being released. */
  function Releasing(e: Event): State {
    State([ReleaseRequested], Connected, Some(0), map[0 := Source([e], 0, true)], 1, Choosing, AwaitingDrain(0), true, true, false, false)
  }

  function Drained(e: Event): State {
    State([ReleaseRequested, Received(0, e)], Connected, None, map[0 := Source([e], 1, true)], 1, Choosing, AwaitingDrain(0), true, true, true, false)
  }

  function BackAgain(e: Event): State {
    State([ReleaseRequested, Received(0, e), Released(0), ReacquireStarted, ReacquireSucceeded],
          Connected, Some(1), map[0 := Source([e], 1, true)], 2, Choosing, Nobody, false, true, true, false)
  }

  lemma ReleaseStarts(e: Event)
    ensures Reachable(Releasing(e))
  {
    hide Reachable;
    StartIsReachable();
    var s1 := START.(releasing := true, owner := Requesting(0));
    TakeStep(START, BeginRelease, s1);
    var s2 := s1.(journal := [ReleaseRequested], owner := Closing(0));
    TakeStep(s1, JournalRequest, s2);
    assert S(s2, 0).arrived + [e] == [e];
    var s3 := s2.(sources := s2.sources[0 := Source([e], 0, false)]);
    TakeStep(s2, Arrive(0, e), s3);
    var s4 := s3.(sources := map[0 := Source([e], 0, true)], owner := CloseReturned(0));
    TakeStep(s3, CloseSource, s4);
    TakeStep(s4, CloseCompletes, Releasing(e));
  }

  lemma ReleaseDrains(e: Event)
    ensures Reachable(Drained(e))
  {
    hide Reachable;
    ReleaseStarts(e);
    var s0 := Releasing(e);
    var s1 := s0.(ingest := Reading(0));
    TakeStep(s0, Engage, s1);
    var s2 := s1.(ingest := Holding(0, e), sources := map[0 := Source([e], 1, true)]);
    TakeStep(s1, HandOut, s2);
    var s3 := s2.(ingest := Choosing, journal := [ReleaseRequested, Received(0, e)]);
    TakeStep(s2, JournalEvent, s3);
    var s4 := s3.(ingest := Reading(0));
    TakeStep(s3, Engage, s4);
    TakeStep(s4, FinishDrain, Drained(e));
  }

  /** The promises are not empty: what arrived during the release is journaled before it, and then the
      connection comes back. */
  lemma ReleaseHappens(e: Event)
    ensures Reachable(BackAgain(e))
  {
    hide Reachable;
    ReleaseDrains(e);
    var s0 := Drained(e);
    var s1 := s0.(journal := s0.journal + [Released(0)], owner := Journaled(0));
    TakeStep(s0, JournalReleased, s1);
    var s2 := s1.(phase := InReleased, releasing := false, owner := Nobody);
    TakeStep(s1, FinishRelease, s2);
    var s3 := s2.(phase := Reacquiring, owner := BeganReacquire);
    TakeStep(s2, BeginReacquire, s3);
    var s4 := s3.(journal := s3.journal + [ReacquireStarted], owner := Opening);
    TakeStep(s3, JournalStarted, s4);
    TakeStep(s4, Republish, BackAgain(e));
  }
}
