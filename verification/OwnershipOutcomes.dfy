/**
  How ownership attempts end, and what the recorder's state says in between.

  `Ownership` proves what never happens; here is what each ending achieves, in every interleaving, and that
  the recorder's states follow one another only as they may.
*/
module OwnershipOutcomes {
  import opened Wrappers
  import opened Ownership

  predicate Publishes(step: Step) {
    step == ByWorker(Publish) || (step.ByManual? && step.m == ManualPublish)
  }

  /** The actor whose attempt the step belongs to. */
  function ActorOf(step: Step): Option<Actor> {
    match step case ByWorker(_) => Some(Worker) case ByManual(t, _) => Some(Manual(t)) case _ => None
  }

  // ----- Ending with a source -----

  lemma HoldsWhatItPublishes(s: State, step: Step)
    requires AttemptInv(s) && Enabled(s, step) && Publishes(step)
    ensures Held(s).Some? && s.co.attempt == ActorOf(step) && !s.rec.closing
    ensures Do(s, step).rec == PublishSource(s.rec, Held(s).value) && Do(s, step).dev.loose == s.dev.loose
  {
  }

  /** Publishing makes the candidate in hand the recorder's source, connected, and the only source that can
      still be open; it is published for the first time. */
  lemma PublishedMeans(run: seq<Step>, step: Step)
    requires Final(run).Some? && Enabled(Final(run).value, step) && Publishes(step)
    ensures var s, g := Final(run).value, Do(Final(run).value, step);
            && Held(s).Some? && s.co.attempt == ActorOf(step)
            && g.rec.source == Held(s) && g.rec.state == Connected && !g.rec.replacementAllowed
            && g.dev.loose <= {Held(s).value} && s.dev.published[Held(s).value] == 0
  {
    RunKeepsInv(run);
    var s := Final(run).value;
    HoldsWhatItPublishes(s, step);
    hide Do, Enabled, Final, AttemptInv, ClosedInv, LooseInv, RecorderInv, CoordinatorInv;
    assert StageNow(s) == Carrying(Held(s).value);
    var c := Held(s).value;
    assert s.dev.published[c] + s.dev.rejected[c] + Bit(StageNow(s) == Carrying(c)) == s.dev.returned[c] <= 1;
  }

  /** There is no other way to a source. */
  lemma OnlyPublishingGivesSource(s: State, step: Step)
    requires Enabled(s, step) && Do(s, step).rec.source != s.rec.source && Do(s, step).rec.source.Some?
    ensures Publishes(step)
  {
    hide WorkerDoes, ManualDoes, ManualNext, RecorderDoes, WorkerEnabled, ManualEnabled, RecorderEnabled;
    match step {
      case ByWorker(w) => WorkerSource(s, w);
      case ByManual(t, m) => ManualSource(s, t, M(s, t), m);
      case ByRecorder(r) => RecorderSource(s, r);
      case ByCoordinator(_) =>
    }
  }

  lemma WorkerSource(s: State, step: WorkerStep)
    requires WorkerEnabled(s, step)
    ensures step.Publish? || WorkerDoes(s, step).rec.source.None? || WorkerDoes(s, step).rec.source == s.rec.source
  {
    hide ReturnCandidate, Leak, RejectCandidate, RetainCloseError, PublishSource, Abandoned;
  }

  lemma ManualSource(s: State, t: Tid, pc: ManualPc, step: ManualStep)
    requires ManualEnabled(s, pc, step)
    ensures step.ManualPublish? || ManualDoes(s, t, pc, step).rec.source.None? || ManualDoes(s, t, pc, step).rec.source == s.rec.source
  {
    hide ReturnCandidate, Leak, RejectCandidate, RetainCloseError, PublishSource, Abandoned;
  }

  lemma RecorderSource(s: State, step: RecorderStep)
    requires RecorderEnabled(s, step)
    ensures RecorderDoes(s, step).rec.source.None? || RecorderDoes(s, step).rec.source == s.rec.source
  {
    hide Abandoned;
  }

  // ----- Ending without one -----

  /** A journaled release: released, no source, and everything that was opened is confirmed closed. */
  lemma ReleasedMeans(run: seq<Step>, t: Tid)
    requires Final(run).Some? && Enabled(Final(run).value, ByManual(t, JournalReleased))
    ensures var s, g := Final(run).value, Do(Final(run).value, ByManual(t, JournalReleased));
            && g.rec.state == Released && !g.rec.releasing && g.rec.source.None? && g.dev.loose == {}
            && s.co.attempt == Some(Manual(t)) && !Resting(s.rec)
  {
    RunKeepsInv(run);
    var s := Final(run).value;
    assert M(s, t) != MIdle;
    assert StageNow(s) == Gone;
  }

  /** A reconnect that ran out of time: disconnected, no source, and everything that was opened is closed. */
  lemma DisconnectedMeans(run: seq<Step>)
    requires Final(run).Some? && Enabled(Final(run).value, ByWorker(MarkDisconnected))
    ensures var s, g := Final(run).value, Do(Final(run).value, ByWorker(MarkDisconnected));
            && g.rec.state == Disconnected && g.rec.source.None? && g.dev.loose == {} && s.co.attempt == Some(Worker)
  {
    RunKeepsInv(run);
    var s := Final(run).value;
    assert StageNow(s) == Bare;
  }

  /** A failed reacquire: back to rest with everything closed, or faulted; if it cannot say that its candidate
      is closed, faulted, and nothing is opened any more. */
  lemma ReacquireFailedMeans(run: seq<Step>, t: Tid, next: RecorderState)
    requires Final(run).Some? && Enabled(Final(run).value, ByManual(t, ReacquireFailed(next)))
    ensures var s, g := Final(run).value, Do(Final(run).value, ByManual(t, ReacquireFailed(next)));
            && g.rec.state == next && (next == Faulted || Resting(g.rec))
            && (Resting(g.rec) ==> g.rec.source.None? && g.dev.loose == {})
            && (M(s, t).unknown ==> next == Faulted)
  {
    RunKeepsInv(run);
    var s := Final(run).value;
    assert M(s, t) != MIdle;
    if !M(s, t).unknown { assert StageNow(s) == Bare; }
  }

  /** While released or disconnected nobody is opening the device or holds a candidate: automatic reconnection
      is suppressed. */
  lemma RestIsQuiet(run: seq<Step>, a: Actor)
    requires Final(run).Some? && Resting(Final(run).value.rec)
    ensures var s := Final(run).value; !Opening(s, a) && Held(s).None? && s.rec.source.None?
  {
    RunKeepsInv(run);
    var s := Final(run).value;
    assert Opening(s, a) ==> StageNow(s) == Bare;
  }
}
