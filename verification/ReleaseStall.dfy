/**
  Whether a manual release ends.

  The releasing thread waits, without a deadline, until the receive thread has drained the closed source.
  The receive thread looks for a release when it sees the source disconnect, but a release can begin
  between that look and the recording of the disconnect. Then the receive thread parks until the source
  changes, the releasing thread waits for the drain, and neither moves. That is the only way in which a
  release cannot end, short of a fault or of closing the recorder.
*/
module ReleaseStall {
  import opened Wrappers
  import opened ReleaseDrain

  /** From `s`, the steps lead to `t`, and none of them begins to close the recorder. */
  ghost predicate Continues(s: State, run: seq<Step>, t: State)
    decreases |run|
  {
    if run == [] then t == s
    else run[0] != BeginClose && Enabled(s, run[0]) && Continues(Do(s, run[0]), run[1..], t)
  }

  /** The release in progress can still be completed. */
  ghost predicate CanFinish(s: State) {
    exists run, t :: Continues(s, run, t) && Finished(t)
  }

  predicate Finished(t: State) {
    t.phase == InReleased && t.owner.Nobody?
  }

  /** The receive thread is past its look for a release, and concerned with the very source to be drained. */
  predicate Stalled(s: State) {
    s.source.Some? && (s.ingest == Disconnecting(s.source.value) || s.ingest == Parked(s.source.value))
  }

  ghost predicate Sane(s: State) {
    && Control(s)
    && (s.ingest.Stopped? ==> s.closing)
    && (InRelease(s.owner) && !s.drained && !s.closing ==> s.source.Some?)
    && (s.owner.AwaitingDrain? || s.owner.Journaled? ==> s.closeComplete)
    && forall x :: S(s, x).handed <= |S(s, x).arrived|
  }

  lemma SaneKept(s: State, step: Step)
    requires Sane(s) && Enabled(s, step)
    ensures Sane(Do(s, step))
  {
    ControlKept(s, step);
    forall x
      ensures S(Do(s, step), x).handed <= |S(Do(s, step), x).arrived|
    {
      SourceEffect(s, step, x);
    }
    hide Control, S;
    FlagsKept(s, step);
  }

  lemma FlagsKept(s: State, step: Step)
    requires Sane(s) && Enabled(s, step)
    ensures var g := Do(s, step);
            && (g.ingest.Stopped? ==> g.closing)
            && (InRelease(g.owner) && !g.drained && !g.closing ==> g.source.Some?)
            && (g.owner.AwaitingDrain? || g.owner.Journaled? ==> g.closeComplete)
  {
    hide S, Receiving;
  }

  lemma {:induction false} SaneEver(run: seq<Step>)
    requires Final(run).Some?
    ensures Sane(Final(run).value)
  {
    if run != [] {
      SaneEver(run[..|run| - 1]);
      SaneKept(Final(run[..|run| - 1]).value, run[|run| - 1]);
    }
  }

  // ----- A stalled release stays stalled -----

  lemma StallStays(s: State, step: Step)
    requires Sane(s) && InRelease(s.owner) && !s.closing && Stalled(s) && Enabled(s, step) && step != BeginClose
    ensures var g := Do(s, step); InRelease(g.owner) && !g.closing && Stalled(g)
  {
    hide S, Receiving;
  }

  lemma {:induction false} NeverFinishes(s: State, run: seq<Step>, t: State)
    requires Sane(s) && InRelease(s.owner) && !s.closing && Stalled(s) && Continues(s, run, t)
    ensures !Finished(t)
    decreases |run|
  {
    hide Do, Enabled, Sane;
    if run != [] {
      StallStays(s, run[0]);
      SaneKept(s, run[0]);
      NeverFinishes(Do(s, run[0]), run[1..], t);
    }
  }

  // ----- Any other release can be completed -----

  function OwnerRank(s: State): nat {
    match s.owner
    case Requesting(_) => 5
    case Closing(_) => 4
    case CloseReturned(_) => 3
    case AwaitingDrain(_) => if s.drained then 1 else 2
    case _ => 0
  }

  function IngestRank(ingest: Ingest): nat {
    match ingest case Parked(_) => 3 case Holding(_, _) => 2 case Choosing => 1 case _ => 0
  }

  function Left(s: State): nat
    requires InRelease(s.owner)
  {
    var src := S(s, s.owner.source);
    if src.handed <= |src.arrived| then |src.arrived| - src.handed else 0
  }

  /** What to do next so that the release gets on. */
  function Next(s: State): Step
    requires InRelease(s.owner)
  {
    match s.owner
    case Requesting(_) => JournalRequest
    case Closing(_) => CloseSource
    case CloseReturned(_) => CloseCompletes
    case Journaled(_) => FinishRelease
    case _ =>
      if s.drained then JournalReleased
      else match s.ingest
           case Choosing => Engage
           case Holding(_, _) => JournalEvent
           case Reading(_) => if Left(s) > 0 then HandOut else FinishDrain
           case _ => Unpark
  }

  lemma NextProceeds(s: State)
    requires Sane(s) && InRelease(s.owner) && !s.closing && !Stalled(s)
    ensures Enabled(s, Next(s)) && Next(s) != BeginClose
    ensures var g := Do(s, Next(s));
            && !g.closing && !Stalled(g)
            && if s.owner.Journaled? then Finished(g) else InRelease(g.owner) && g.owner.source == s.owner.source
  {
    hide Receiving;
  }

  lemma NextDescends(s: State)
    requires Sane(s) && InRelease(s.owner) && !s.closing && !Stalled(s) && !s.owner.Journaled?
    requires Enabled(s, Next(s)) && InRelease(Do(s, Next(s)).owner) && Do(s, Next(s)).owner.source == s.owner.source
    ensures var g := Do(s, Next(s));
            || OwnerRank(g) < OwnerRank(s)
            || (OwnerRank(g) == OwnerRank(s) && Left(g) < Left(s))
            || (OwnerRank(g) == OwnerRank(s) && Left(g) == Left(s) && IngestRank(g.ingest) < IngestRank(s.ingest))
  {
    hide Receiving;
    SourceEffect(s, Next(s), s.owner.source);
  }

  lemma {:induction false} Finishes(s: State) returns (run: seq<Step>, t: State)
    requires Sane(s) && InRelease(s.owner) && !s.closing && !Stalled(s)
    ensures Continues(s, run, t) && Finished(t)
    decreases OwnerRank(s), Left(s), IngestRank(s.ingest)
  {
    NextProceeds(s);
    var step := Next(s);
    var g := Do(s, step);
    if s.owner.Journaled? {
      run, t := [step], g;
      assert Continues(g, run[1..], t);
    } else {
      NextDescends(s);
      SaneKept(s, step);
      hide Do, Enabled, Sane, Next;
      var rest;
      rest, t := Finishes(g);
      run := [step] + rest;
      assert run[1..] == rest;
    }
  }

  /** A release in progress can be completed if and only if the receive thread has not looked past it. */
  lemma FinishesExactly(run: seq<Step>)
    requires Final(run).Some? && InRelease(Final(run).value.owner) && !Final(run).value.closing
    ensures CanFinish(Final(run).value) <==> !Stalled(Final(run).value)
  {
    SaneEver(run);
    var s := Final(run).value;
    hide Do, Enabled, Sane, Final;
    if !Stalled(s) {
      var more, t := Finishes(s);
    } else if CanFinish(s) {
      var more, t :| Continues(s, more, t) && Finished(t);
      NeverFinishes(s, more, t);
    }
  }

  /** From `s`, with the release in progress all the while, the steps lead to `t`. */
  ghost predicate Lasts(s: State, run: seq<Step>, t: State)
    decreases |run|
  {
    && InRelease(s.owner)
    && if run == [] then t == s
       else run[0] != BeginClose && Enabled(s, run[0]) && Lasts(Do(s, run[0]), run[1..], t)
  }

  lemma NoStallLater(s: State, step: Step)
    requires Sane(s) && InRelease(s.owner) && !s.closing && !Stalled(s) && Enabled(s, step) && step != BeginClose
    ensures !Do(s, step).closing && (InRelease(Do(s, step).owner) ==> !Stalled(Do(s, step)))
  {
    hide S, Receiving;
  }

  /** A release that was not stalled when it began never becomes so: wherever it gets, it can be completed. */
  lemma {:induction false} StaysFinishable(s: State, run: seq<Step>, t: State)
    requires Sane(s) && !s.closing && !Stalled(s) && Lasts(s, run, t)
    ensures !Stalled(t) && CanFinish(t)
    decreases |run|
  {
    hide Do, Enabled, Sane, Stalled;
    if run == [] {
      var more, u := Finishes(s);
    } else {
      NoStallLater(s, run[0]);
      SaneKept(s, run[0]);
      StaysFinishable(Do(s, run[0]), run[1..], t);
    }
  }

  /** Seen from its beginning: a release that begins can be completed if and only if the receive thread is not, at
      that moment, between seeing its source disconnect and leaving it. */
  lemma BegunFinishesExactly(run: seq<Step>)
    requires Final(run).Some? && Enabled(Final(run).value, BeginRelease)
    ensures var s := Final(run).value;
            CanFinish(Do(s, BeginRelease)) <==>
            s.ingest != Disconnecting(s.source.value) && s.ingest != Parked(s.source.value)
  {
    var begun := run + [BeginRelease];
    assert begun[..|run|] == run;
    FinishesExactly(begun);
  }

  // ----- The stall happens -----

  /** The device unplugs itself, and before that is recorded somebody asks for a release. */
  const STALLED := State(
    [ReleaseRequested, UnexpectedDisconnect], Reconnecting, Some(0), map[0 := Source([], 0, true)], 1, Parked(0),
    AwaitingDrain(0), true, true, false, false)

  lemma StallIsReachable()
    ensures Reachable(STALLED)
  {
    hide Reachable;
    StartIsReachable();
    var s1 := START.(ingest := Reading(0));
    TakeStep(START, Engage, s1);
    var s2 := s1.(ingest := Disconnecting(0));
    TakeStep(s1, SeeDisconnect, s2);
    var s3 := s2.(releasing := true, owner := Requesting(0));
    TakeStep(s2, BeginRelease, s3);
    var s4 := s3.(journal := [ReleaseRequested], owner := Closing(0));
    TakeStep(s3, JournalRequest, s4);
    var s5 := s4.(sources := map[0 := Source([], 0, true)], owner := CloseReturned(0));
    TakeStep(s4, CloseSource, s5);
    var s6 := s5.(closeComplete := true, owner := AwaitingDrain(0));
    TakeStep(s5, CloseCompletes, s6);
    TakeStep(s6, RecordDisconnect, STALLED);
  }

  lemma NothingElseToDo(step: Step)
    requires Enabled(STALLED, step)
    ensures step == BeginClose
  {
  }

  /** A release can wait for ever: with its source closed, its thread and the receive thread wait for each other. */
  lemma StallHappens()
    ensures Reachable(STALLED) && !CanFinish(STALLED)
    ensures forall step :: Enabled(STALLED, step) ==> step == BeginClose
  {
    StallIsReachable();
    var run :| Final(run) == Some(STALLED);
    hide Enabled, Final, CanFinish;
    FinishesExactly(run);
    forall step | Enabled(STALLED, step)
      ensures step == BeginClose
    {
      NothingElseToDo(step);
    }
  }
}
