/**
  Who owns the physical device: the idle reconnect worker, any number of threads asking for manual
  release or reacquisition, the recorder with its receive thread, and both close operations.

  Lines run under `_condition` are one step, and so is everything between a failed close and the record
  of that failure, which the attempt flag still protects. A fault can be recorded by any thread at any
  time, every call out can fail, and every deadline can have expired.
*/
module Ownership {
  import opened Wrappers

  type Tid = nat
  type SourceId = nat

  datatype RecorderState = Connected | Reconnecting | Released | Reacquiring | Disconnected | Faulted | Closed

  /** The recorder's receive thread: choosing a source, reading one, or parked after its disconnect. */
  datatype Ingest = Choosing | Reading(source: SourceId) | Parked(source: SourceId)

  datatype Recorder = Recorder(
    state: RecorderState,
    source: Option<SourceId>,
    fault: bool,
    replacementAllowed: bool,
    releasing: bool,
    closeComplete: bool,
    drained: bool,
    closing: bool,
    closed: bool)

  datatype Actor = Worker | Manual(t: Tid)

  /** `closer` is the attempt that was still in flight when `close`, called from inside it, returned. */
  datatype Coordinator = Coordinator(
    attempt: Option<Actor>,
    suspended: bool,
    stop: bool,
    closeError: bool,
    closing: bool,
    closed: bool,
    closer: Option<Actor>)

  /** The device side, and what has happened to each opened source so far. `loose` sources were opened
      and not yet confirmed closed; `dying` ones are being closed by a fault or by shutdown. */
  datatype Device = Device(
    next: SourceId,
    loose: set<SourceId>,
    dying: set<SourceId>,
    candidateCloseFailed: bool,
    sourceCloseFailed: bool,
    returned: multiset<SourceId>,
    published: multiset<SourceId>,
    rejected: multiset<SourceId>)

  datatype WorkerPc =
    | WIdle
    | WClaimed
    | WChecked
    | WClosing(source: SourceId)
    | WRetry
    | WOpening
    | WHolding(candidate: SourceId)
    | WPublishing(candidate: SourceId)
    | WAdmitting(candidate: SourceId)
    | WJournaled(candidate: SourceId)
    | WReady(candidate: SourceId)
    | WRejecting(candidate: SourceId)
    | WTimedOut
    | WExpiring
    | WLeaving
    | WRaising
    | WDying
    | WDead

  datatype ManualPc =
    | MIdle
    | MReleaseClaimed
    | MReleaseClosing(source: SourceId)
    | MDraining
    | MJournaling
    | MReleaseFailing
    | MReacquireClaimed
    | MBegan
    | MOpening
    | MHolding(candidate: SourceId)
    | MAdmitting(candidate: SourceId)
    | MJournaled(candidate: SourceId)
    | MReady(candidate: SourceId)
    | MRejecting(candidate: SourceId)
    | MFailing(unknown: bool)
    | MPublished
    | MLeaving

  datatype State = State(
    rec: Recorder,
    co: Coordinator,
    dev: Device,
    ingest: Ingest,
    worker: WorkerPc,
    manual: map<Tid, ManualPc>)

  const START := State(
    Recorder(Connected, Some(0), false, false, false, false, false, false, false),
    Coordinator(None, false, false, false, false, false, None),
    Device(1, {0}, {}, false, false, multiset{0}, multiset{0}, multiset{}),
    Choosing, WIdle, map[])

  function M(s: State, t: Tid): ManualPc {
    if t in s.manual then s.manual[t] else MIdle
  }

  datatype OpenOutcome = Opened | FailedClean | FailedUnconfirmed

  /** `CloseCandidate`: whether the candidate's close returned, whether `_close_rejected` raised, and
      whether the failure that led here ends the worker, ends the attempt, or counts as a timeout. */
  datatype WorkerStep =
    | Claim
    | CheckStop
    | Detach
    | CloseCurrent(ok: bool)
    | TryOpen
    | OpenReturns(outcome: OpenOutcome)
    | GiveUp
    | Accept
    | Proceed
    | Reject
    | Publish
    | CloseCandidate(closed: bool, raised: bool, after: WorkerPc)
    | Expire
    | MarkDisconnected
    | Leave
    | Die

  datatype ManualStep =
    | ClaimRelease
    | ClaimReacquire
    | BeginRelease
    | RefuseRelease
    | CloseReleased(ok: bool)
    | AwaitDrained
    | JournalReleased
    | FailRelease
    | BeginReacquire
    | ManualOpen
    | ManualOpened(outcome: OpenOutcome)
    | ManualProceed
    | ManualReject
    | ManualPublish
    | ManualClose(closed: bool, raised: bool)
    | Resume
    | ReacquireFailed(next: RecorderState)
    | ManualLeave

  datatype RecorderStep =
    | Engage
    | Loop
    | Disconnect
    | FinishDrain
    | Fault
    | FinishDying(source: SourceId, ok: bool)
    | BeginClose
    | EndClose

  datatype CoordinatorStep = CancelPending | BeginShutdown | EndShutdown | EndShutdownInside

  datatype Step = ByWorker(w: WorkerStep) | ByManual(t: Tid, m: ManualStep) | ByRecorder(r: RecorderStep) | ByCoordinator(c: CoordinatorStep)

  // ----- Shared pieces -----

  /** `_record_fatal`: the first fault wins and gives up the current source, closing it as best it can. */
  function RecordFatal(rec: Recorder): Recorder {
    if rec.fault || rec.closed then rec
    else rec.(fault := true, state := Faulted, source := None, drained := true)
  }

  function Abandoned(rec: Recorder): set<SourceId> {
    if rec.fault || rec.closed || rec.source.None? then {} else {rec.source.value}
  }

  /** `_retain_close_error`. */
  function RetainCloseError(co: Coordinator): Coordinator {
    co.(closeError := true, stop := true)
  }

  function ReturnCandidate(dev: Device): Device {
    dev.(next := dev.next + 1, loose := dev.loose + {dev.next}, returned := dev.returned + multiset{dev.next})
  }

  /** An open that failed without being able to say that nothing is left open. */
  function Leak(dev: Device): Device {
    dev.(next := dev.next + 1, loose := dev.loose + {dev.next}, candidateCloseFailed := true)
  }

  function RejectCandidate(dev: Device, c: SourceId, closed: bool): Device {
    dev.(loose := if closed then dev.loose - {c} else dev.loose,
         candidateCloseFailed := dev.candidateCloseFailed || !closed,
         rejected := dev.rejected + multiset{c})
  }

  function PublishSource(rec: Recorder, c: SourceId): Recorder {
    rec.(source := Some(c), state := Connected, replacementAllowed := false)
  }

  // ----- The idle worker -----

  function WorkerHolds(pc: WorkerPc): Option<SourceId> {
    match pc
    case WHolding(c) => Some(c)
    case WPublishing(c) => Some(c)
    case WAdmitting(c) => Some(c)
    case WJournaled(c) => Some(c)
    case WReady(c) => Some(c)
    case WRejecting(c) => Some(c)
    case _ => None
  }

  predicate WorkerEnabled(s: State, step: WorkerStep) {
    var pc, rec, co := s.worker, s.rec, s.co;
    match step
    case Claim => pc.WIdle? && !co.closing && !co.suspended && co.attempt.None?
    case CheckStop => pc.WClaimed?
    case Detach => pc.WChecked?
    case CloseCurrent(_) => pc.WClosing?
    case TryOpen => pc.WRetry? && !co.stop
    case OpenReturns(_) => pc.WOpening?
    case GiveUp => pc.WRetry?
    case Accept => pc.WHolding? && !co.stop
    case Proceed =>
      || (pc.WPublishing? && !co.closing && !co.suspended && !co.stop)
      || (pc.WAdmitting? && rec.state == Reconnecting && rec.replacementAllowed && rec.source.None? && !rec.closing)
      || (pc.WJournaled? && !co.closing && !co.stop && !rec.closing && !rec.fault)
    case Reject => WorkerHolds(pc).Some? && !pc.WRejecting?
    case Publish => pc.WReady? && !rec.closing
    case CloseCandidate(closed, raised, after) =>
      pc.WRejecting? && (!closed ==> raised) && (after == WLeaving || after == WRaising || (after == WTimedOut && !raised))
    case Expire => pc.WTimedOut?
    case MarkDisconnected => pc.WExpiring?
    case Leave => pc.WLeaving? || pc.WRaising?
    case Die => pc.WDying? || (pc.WIdle? && co.stop)
  }

  predicate CanDetach(rec: Recorder) {
    rec.state == Reconnecting && rec.replacementAllowed && rec.source.Some? && !rec.closing
  }

  function WorkerDoes(s: State, step: WorkerStep): State
    requires WorkerEnabled(s, step)
  {
    var pc, rec, co, dev := s.worker, s.rec, s.co, s.dev;
    match step
    case Claim => s.(co := co.(attempt := Some(Worker)), worker := WClaimed)
    case CheckStop => s.(worker := if co.stop then WLeaving else WChecked)
    case Detach =>
      if CanDetach(rec) then s.(rec := rec.(source := None, replacementAllowed := false), worker := WClosing(rec.source.value))
      else s.(worker := WRaising)
    case CloseCurrent(ok) =>
      if ok then
        s.(dev := dev.(loose := dev.loose - {pc.source}), worker := WRetry,
           rec := if !rec.closing && rec.state == Reconnecting then rec.(replacementAllowed := true) else rec)
      else
        s.(dev := dev.(sourceCloseFailed := true, dying := dev.dying + Abandoned(rec)), rec := RecordFatal(rec), worker := WRaising)
    case TryOpen => s.(worker := WOpening)
    case OpenReturns(outcome) =>
      (match outcome
       case Opened => s.(dev := ReturnCandidate(dev), worker := WHolding(dev.next))
       case FailedClean => s.(worker := WRetry)
       case FailedUnconfirmed => s.(dev := Leak(dev), co := RetainCloseError(co), worker := WLeaving))
    case GiveUp => s.(worker := WTimedOut)
    case Accept => s.(worker := WPublishing(pc.candidate))
    case Proceed =>
      s.(worker := match pc case WPublishing(c) => WAdmitting(c) case WAdmitting(c) => WJournaled(c) case WJournaled(c) => WReady(c) case _ => pc)
    case Reject => s.(worker := WRejecting(WorkerHolds(pc).value))
    case Publish =>
      s.(rec := PublishSource(rec, pc.candidate), dev := dev.(published := dev.published + multiset{pc.candidate}), worker := WLeaving)
    case CloseCandidate(closed, raised, after) =>
      s.(dev := RejectCandidate(dev, pc.candidate, closed), co := if raised then RetainCloseError(co) else co, worker := after)
    case Expire =>
      s.(worker := if co.stop || rec.closing || rec.state != Reconnecting || rec.source.Some? then WLeaving else WExpiring)
    case MarkDisconnected => s.(rec := rec.(state := Disconnected, replacementAllowed := false), worker := WLeaving)
    case Leave => s.(co := co.(attempt := None), worker := if pc.WLeaving? then WIdle else WDying)
    case Die => s.(co := if pc.WDying? then RetainCloseError(co) else co, worker := WDead)
  }

  // ----- Manual release and reacquisition -----

  function ManualHolds(pc: ManualPc): Option<SourceId> {
    match pc
    case MHolding(c) => Some(c)
    case MAdmitting(c) => Some(c)
    case MJournaled(c) => Some(c)
    case MReady(c) => Some(c)
    case MRejecting(c) => Some(c)
    case _ => None
  }

  predicate CanClaim(co: Coordinator) {
    !co.closing && !co.closed && !co.stop && !co.closeError && co.attempt.None?
  }

  predicate ManualEnabled(s: State, pc: ManualPc, step: ManualStep) {
    var rec, co := s.rec, s.co;
    match step
    case ClaimRelease => pc.MIdle? && CanClaim(co)
    case ClaimReacquire => pc.MIdle? && CanClaim(co)
    case BeginRelease => pc.MReleaseClaimed? && rec.state == Connected && !rec.closing && rec.source.Some?
    case RefuseRelease => pc.MReleaseClaimed?
    case CloseReleased(_) => pc.MReleaseClosing?
    case AwaitDrained => pc.MDraining? && rec.drained
    case JournalReleased => pc.MJournaling?
    case FailRelease => pc.MJournaling? || pc.MReleaseFailing? || (pc.MReleaseClosing? && (rec.fault || rec.closed))
    case BeginReacquire => pc.MReacquireClaimed?
    case ManualOpen => pc.MBegan?
    case ManualOpened(_) => pc.MOpening?
    case ManualProceed =>
      || (pc.MHolding? && !co.closing && !co.closed && !co.stop)
      || (pc.MAdmitting? && rec.state == Reacquiring && rec.source.None? && !rec.closing)
      || (pc.MJournaled? && !co.closing && !co.stop && !rec.closing && !rec.fault)
    case ManualReject => ManualHolds(pc).Some? && !pc.MRejecting?
    case ManualPublish => pc.MReady? && !rec.closing
    case ManualClose(closed, raised) => pc.MRejecting? && (!closed ==> raised)
    case Resume => pc.MPublished?
    case ReacquireFailed(next) =>
      pc.MFailing? && (next == Faulted || (!pc.unknown && (next == Released || next == Disconnected)))
    case ManualLeave => pc.MLeaving? || pc.MFailing? || pc.MBegan?
  }

  function ManualDoes(s: State, t: Tid, pc: ManualPc, step: ManualStep): State
    requires ManualEnabled(s, pc, step)
  {
    var rec, co, dev := s.rec, s.co, s.dev;
    match step
    case ClaimRelease => s.(co := co.(attempt := Some(Manual(t)), suspended := true))
    case ClaimReacquire => s.(co := co.(attempt := Some(Manual(t)), suspended := true))
    case BeginRelease => s.(rec := rec.(releasing := true, closeComplete := false, drained := false))
    case RefuseRelease => s.(co := co.(suspended := false))
    case CloseReleased(ok) =>
      if ok then s.(dev := dev.(loose := dev.loose - {pc.source}), rec := rec.(closeComplete := true))
      else s.(dev := dev.(sourceCloseFailed := true, dying := dev.dying + Abandoned(rec)),
              rec := RecordFatal(rec).(closeComplete := true))
    case AwaitDrained => s
    case JournalReleased => s.(rec := rec.(state := Released, releasing := false))
    case FailRelease => s.(co := RetainCloseError(co))
    case BeginReacquire => if CanBegin(rec) then s.(rec := rec.(state := Reacquiring)) else s
    case ManualOpen => s
    case ManualOpened(outcome) =>
      (match outcome
       case Opened => s.(dev := ReturnCandidate(dev))
       case FailedClean => s
       case FailedUnconfirmed => s.(dev := Leak(dev), co := RetainCloseError(co)))
    case ManualProceed => s
    case ManualReject => s
    case ManualPublish =>
      s.(rec := PublishSource(rec, pc.candidate), dev := dev.(published := dev.published + multiset{pc.candidate}))
    case ManualClose(closed, raised) =>
      s.(dev := RejectCandidate(dev, pc.candidate, closed), co := if raised then RetainCloseError(co) else co)
    case Resume => s.(co := co.(suspended := false))
    case ReacquireFailed(next) => s.(rec := rec.(state := next))
    case ManualLeave => s.(co := co.(attempt := None))
  }

  predicate CanBegin(rec: Recorder) {
    !rec.closing && !rec.fault && (rec.state == Released || rec.state == Disconnected)
  }

  function ManualNext(s: State, pc: ManualPc, step: ManualStep): ManualPc
    requires ManualEnabled(s, pc, step)
  {
    match step
    case ClaimRelease => MReleaseClaimed
    case ClaimReacquire => MReacquireClaimed
    case BeginRelease => MReleaseClosing(s.rec.source.value)
    case RefuseRelease => MLeaving
    case CloseReleased(ok) => if ok then MDraining else MReleaseFailing
    case AwaitDrained => if s.rec.fault then MReleaseFailing else MJournaling
    case JournalReleased => MLeaving
    case FailRelease => MLeaving
    case BeginReacquire => if CanBegin(s.rec) then MBegan else MLeaving
    case ManualOpen => if s.co.stop then MFailing(false) else MOpening
    case ManualOpened(outcome) =>
      (match outcome case Opened => MHolding(s.dev.next) case FailedClean => MFailing(false) case FailedUnconfirmed => MFailing(true))
    case ManualProceed => (match pc case MHolding(c) => MAdmitting(c) case MAdmitting(c) => MJournaled(c) case MJournaled(c) => MReady(c) case _ => pc)
    case ManualReject => MRejecting(ManualHolds(pc).value)
    case ManualPublish => MPublished
    case ManualClose(_, raised) => MFailing(raised)
    case Resume => MLeaving
    case ReacquireFailed(_) => MLeaving
    case ManualLeave => MIdle
  }

  // ----- The recorder's own thread, faults and shutdown -----

  predicate RecorderEnabled(s: State, step: RecorderStep) {
    var rec, ingest := s.rec, s.ingest;
    match step
    case Engage => ingest.Choosing? && !rec.fault && rec.source.Some?
    case Loop => ingest.Reading? || (ingest.Parked? && (rec.source != Some(ingest.source) || rec.closing || rec.fault))
    case Disconnect => ingest.Reading? && rec.source == Some(ingest.source) && !rec.closing
    case FinishDrain => ingest.Reading? && rec.releasing && (rec.closeComplete || rec.fault)
    case Fault => true
    case FinishDying(source, _) => source in s.dev.dying
    case BeginClose => !rec.closing
    case EndClose => rec.closing
  }

  function RecorderDoes(s: State, step: RecorderStep): State
    requires RecorderEnabled(s, step)
  {
    var rec, dev := s.rec, s.dev;
    match step
    case Engage => s.(ingest := Reading(rec.source.value))
    case Loop => s.(ingest := Choosing)
    case Disconnect => s.(rec := rec.(state := Reconnecting, replacementAllowed := true), ingest := Parked(s.ingest.source))
    case FinishDrain =>
      s.(rec := rec.(drained := true, source := if rec.source == Some(s.ingest.source) then None else rec.source), ingest := Choosing)
    case Fault => s.(rec := RecordFatal(rec), dev := dev.(dying := dev.dying + Abandoned(rec)))
    case FinishDying(source, ok) =>
      s.(dev := dev.(dying := dev.dying - {source},
                     loose := if ok then dev.loose - {source} else dev.loose,
                     sourceCloseFailed := dev.sourceCloseFailed || !ok))
    case BeginClose =>
      s.(rec := rec.(closing := true), dev := dev.(dying := dev.dying + if rec.source.Some? then {rec.source.value} else {}))
    case EndClose => s.(rec := rec.(source := None, state := Closed, closed := true))
  }

  /** Whether the attempt in flight is running code it was given, from which `close` could be called:
      closing a source, opening one, the connected or rejected callback, or the connection initializer. */
  predicate InCallback(s: State) {
    match s.co.attempt
    case None => false
    case Some(Worker) =>
      var pc := s.worker;
      pc.WClosing? || pc.WOpening? || pc.WPublishing? || pc.WJournaled? || pc.WRejecting?
    case Some(Manual(t)) =>
      var pc := M(s, t);
      s.worker.WDead? && (pc.MReleaseClosing? || pc.MOpening? || pc.MHolding? || pc.MJournaled? || pc.MRejecting?)
  }

  predicate CoordinatorEnabled(s: State, step: CoordinatorStep) {
    match step
    case CancelPending => true
    case BeginShutdown => !s.co.closing
    case EndShutdown => s.co.closing && !s.co.closed && s.worker.WDead? && s.co.attempt.None?
    case EndShutdownInside => s.co.closing && !s.co.closed && InCallback(s)
  }

  function CoordinatorDoes(s: State, step: CoordinatorStep): State
    requires CoordinatorEnabled(s, step)
  {
    match step
    case CancelPending => s.(co := s.co.(stop := true))
    case BeginShutdown => s.(co := s.co.(closing := true, stop := true))
    case EndShutdown => s.(co := s.co.(closed := true))
    case EndShutdownInside => s.(co := s.co.(closed := true, closer := s.co.attempt))
  }

  predicate Enabled(s: State, step: Step) {
    match step
    case ByWorker(w) => WorkerEnabled(s, w)
    case ByManual(t, m) => ManualEnabled(s, M(s, t), m)
    case ByRecorder(r) => RecorderEnabled(s, r)
    case ByCoordinator(c) => CoordinatorEnabled(s, c)
  }

  function Do(s: State, step: Step): State
    requires Enabled(s, step)
  {
    match step
    case ByWorker(w) => WorkerDoes(s, w)
    case ByManual(t, m) =>
      var pc := M(s, t);
      var g := ManualDoes(s, t, pc, m);
      g.(manual := s.manual[t := ManualNext(s, pc, m)])
    case ByRecorder(r) => RecorderDoes(s, r)
    case ByCoordinator(c) => CoordinatorDoes(s, c)
  }

  function Final(run: seq<Step>): Option<State> {
    if run == [] then Some(START)
    else match Final(run[..|run| - 1])
         case Some(before) =>
           var step := run[|run| - 1];
           if Enabled(before, step) then Some(Do(before, step)) else None
         case None => None
  }

  // ----- Stages of an attempt -----

  /** What an attempt has taken apart so far, whichever actor runs it. */
  datatype Stage =
    | Calm
    | Checked
    | Retiring(source: SourceId)
    | Bare
    | Carrying(candidate: SourceId)
    | Releasing(source: SourceId)
    | Draining
    | Gone

  function WorkerStage(pc: WorkerPc): Stage {
    match pc
    case WChecked => Checked
    case WClosing(s) => Retiring(s)
    case WRetry => Bare
    case WOpening => Bare
    case WTimedOut => Bare
    case WExpiring => Bare
    case _ => if WorkerHolds(pc).Some? then Carrying(WorkerHolds(pc).value) else Calm
  }

  function ManualStage(pc: ManualPc): Stage {
    match pc
    case MReacquireClaimed => Checked
    case MReleaseClosing(s) => Releasing(s)
    case MDraining => Draining
    case MJournaling => Gone
    case MBegan => Bare
    case MOpening => Bare
    case MFailing(unknown) => if unknown then Calm else Bare
    case _ => if ManualHolds(pc).Some? then Carrying(ManualHolds(pc).value) else Calm
  }

  function StageNow(s: State): Stage {
    match s.co.attempt
    case None => Calm
    case Some(Worker) => WorkerStage(s.worker)
    case Some(Manual(t)) => ManualStage(M(s, t))
  }

  predicate InAttempt(pc: WorkerPc) {
    !pc.WIdle? && !pc.WDying? && !pc.WDead?
  }

  /** The attempt flag names the one actor that is inside an attempt. */
  ghost predicate AttemptInv(s: State) {
    && (InAttempt(s.worker) <==> s.co.attempt == Some(Worker))
    && (forall t :: M(s, t) != MIdle <==> s.co.attempt == Some(Manual(t)))
  }

  predicate Ready(s: State, a: Actor) {
    match a case Worker => s.worker.WReady? case Manual(t) => M(s, t).MReady?
  }

  /** After `close` only the attempt it was called from can be in flight, and that one is short of
      publishing. */
  ghost predicate ClosedInv(s: State) {
    && (s.co.closing ==> s.co.stop) && (s.co.closed ==> s.co.closing)
    && (s.co.closed && s.co.attempt.Some? ==> s.co.attempt == s.co.closer)
    && (s.co.closed ==> forall a :: !Ready(s, a))
  }

  predicate Resting(rec: Recorder) {
    rec.state == Released || rec.state == Disconnected
  }

  ghost predicate LooseInv(rec: Recorder, dev: Device) {
    && (forall a, b :: a in dev.loose && b in dev.loose ==> a == b)
    && (rec.source.Some? ==> dev.loose <= {rec.source.value})
    && (dev.dying != {} || dev.sourceCloseFailed ==> rec.fault || rec.closing)
    && (Resting(rec) ==> rec.source.None? && (dev.loose == {} || rec.fault || rec.closing || dev.candidateCloseFailed))
  }

  ghost predicate RecorderInv(rec: Recorder, ingest: Ingest) {
    && (rec.closed ==> rec.closing)
    && (ingest.Reading? ==> if rec.source.Some? then rec.source == Some(ingest.source) else rec.fault || rec.closed)
    && (rec.state == Reconnecting && rec.source.Some? && !rec.closing ==> ingest == Parked(rec.source.value))
    && (rec.fault && rec.source.Some? ==> !ingest.Reading? && rec.state != Reconnecting)
  }

  ghost predicate CoordinatorInv(co: Coordinator, dev: Device) {
    && (dev.candidateCloseFailed ==> co.closeError)
    && (co.closeError ==> co.stop)
  }

  /** The device is certainly free: nothing loose but `x`, and no close ever failed. */
  ghost predicate Taken(rec: Recorder, ingest: Ingest, dev: Device, x: set<SourceId>) {
    && dev.loose <= x
    && rec.source.None? && dev.dying == {} && !dev.sourceCloseFailed && !dev.candidateCloseFailed
    && (ingest.Reading? ==> rec.closed)
    && !Resting(rec)
  }

  ghost predicate StageInv(stage: Stage, rec: Recorder, ingest: Ingest, dev: Device) {
    match stage
    case Calm => true
    case Checked => !dev.candidateCloseFailed
    case Retiring(s) => Taken(rec, ingest, dev, {s})
    case Bare => Taken(rec, ingest, dev, {})
    case Carrying(c) => Taken(rec, ingest, dev, {c})
    case Releasing(s) => dev.loose <= {s} && !Resting(rec) && (rec.drained ==> rec.source.None?)
    case Draining => dev.loose == {} && !Resting(rec) && (rec.drained ==> rec.source.None?)
    case Gone => dev.loose == {} && !Resting(rec) && rec.source.None?
  }

  function Bit(b: bool): nat {
    if b then 1 else 0
  }

  /** Each returned candidate is in exactly one place: published, rejected, or held by the attempt. */
  ghost predicate FateInv(stage: Stage, dev: Device) {
    && (forall c :: dev.published[c] + dev.rejected[c] + Bit(stage == Carrying(c)) == dev.returned[c] <= 1)
    && (forall c :: c in dev.returned ==> c < dev.next)
  }

  ghost predicate Core(stage: Stage, rec: Recorder, ingest: Ingest, dev: Device, co: Coordinator) {
    && LooseInv(rec, dev) && RecorderInv(rec, ingest) && CoordinatorInv(co, dev)
    && StageInv(stage, rec, ingest, dev) && FateInv(stage, dev)
  }

  ghost predicate Inv(s: State) {
    AttemptInv(s) && ClosedInv(s) && Core(StageNow(s), s.rec, s.ingest, s.dev, s.co)
  }

  // ----- What each kind of step does to the stage -----

  /** Flags of the coordinator only grow, apart from those no invariant speaks of. */
  predicate Raised(co: Coordinator, g: Coordinator) {
    (co.closeError ==> g.closeError) && (co.stop ==> g.stop) && (g.closeError ==> g.stop)
  }

  lemma CoreCoordinator(stage: Stage, rec: Recorder, ingest: Ingest, dev: Device, co: Coordinator, g: Coordinator)
    requires Core(stage, rec, ingest, dev, co) && Raised(co, g)
    ensures Core(stage, rec, ingest, dev, g)
  {
    hide LooseInv, RecorderInv, StageInv, FateInv;
  }

  lemma CoreRetreat(stage: Stage, rec: Recorder, ingest: Ingest, dev: Device, co: Coordinator)
    requires Core(stage, rec, ingest, dev, co) && !stage.Carrying?
    ensures Core(Calm, rec, ingest, dev, co)
    ensures !co.stop || !co.closeError ==> Core(Checked, rec, ingest, dev, co)
  {
    hide LooseInv, RecorderInv;
  }

  lemma CoreDetach(rec: Recorder, ingest: Ingest, dev: Device, co: Coordinator)
    requires Core(Checked, rec, ingest, dev, co) && CanDetach(rec)
    ensures Core(Retiring(rec.source.value), rec.(source := None, replacementAllowed := false), ingest, dev, co)
  {
  }

  lemma CoreCloseCurrent(s: SourceId, rec: Recorder, ingest: Ingest, dev: Device, co: Coordinator, allowed: bool)
    requires Core(Retiring(s), rec, ingest, dev, co)
    ensures Core(Bare, rec.(replacementAllowed := allowed), ingest, dev.(loose := dev.loose - {s}), co)
    ensures Core(Calm, RecordFatal(rec), ingest, dev.(sourceCloseFailed := true, dying := dev.dying + Abandoned(rec)), co)
  {
  }

  lemma CoreOpen(rec: Recorder, ingest: Ingest, dev: Device, co: Coordinator)
    requires Core(Bare, rec, ingest, dev, co)
    ensures Core(Carrying(dev.next), rec, ingest, ReturnCandidate(dev), co)
    ensures Core(Calm, rec, ingest, Leak(dev), RetainCloseError(co))
  {
  }

  lemma CorePublish(c: SourceId, rec: Recorder, ingest: Ingest, dev: Device, co: Coordinator)
    requires Core(Carrying(c), rec, ingest, dev, co) && !rec.closing
    ensures Core(Calm, PublishSource(rec, c), ingest, dev.(published := dev.published + multiset{c}), co)
  {
  }

  lemma CoreReject(c: SourceId, rec: Recorder, ingest: Ingest, dev: Device, co: Coordinator, closed: bool, raised: bool)
    requires Core(Carrying(c), rec, ingest, dev, co) && (!closed ==> raised)
    ensures var g := if raised then RetainCloseError(co) else co;
            && Core(Calm, rec, ingest, RejectCandidate(dev, c, closed), g)
            && (!raised ==> Core(Bare, rec, ingest, RejectCandidate(dev, c, closed), g))
  {
  }

  lemma CoreRest(stage: Stage, rec: Recorder, ingest: Ingest, dev: Device, co: Coordinator, g: Recorder)
    requires Core(stage, rec, ingest, dev, co) && !stage.Carrying?
    requires g == rec.(state := g.state, replacementAllowed := g.replacementAllowed, releasing := g.releasing)
    requires g.state == Faulted || (Resting(g) && (stage.Bare? || stage.Gone?))
    ensures Core(Calm, g, ingest, dev, co)
  {
  }

  lemma CoreBeginRelease(rec: Recorder, ingest: Ingest, dev: Device, co: Coordinator)
    requires Core(Calm, rec, ingest, dev, co) && rec.state == Connected && rec.source.Some?
    ensures Core(Releasing(rec.source.value), rec.(releasing := true, closeComplete := false, drained := false), ingest, dev, co)
  {
  }

  lemma CoreCloseReleased(s: SourceId, rec: Recorder, ingest: Ingest, dev: Device, co: Coordinator)
    requires Core(Releasing(s), rec, ingest, dev, co)
    ensures Core(Draining, rec.(closeComplete := true), ingest, dev.(loose := dev.loose - {s}), co)
    ensures Core(Calm, RecordFatal(rec).(closeComplete := true), ingest,
                 dev.(sourceCloseFailed := true, dying := dev.dying + Abandoned(rec)), co)
  {
  }

  lemma CoreDrained(rec: Recorder, ingest: Ingest, dev: Device, co: Coordinator)
    requires Core(Draining, rec, ingest, dev, co) && rec.drained
    ensures Core(Gone, rec, ingest, dev, co)
  {
    hide LooseInv, RecorderInv;
  }

  lemma CoreBegin(rec: Recorder, ingest: Ingest, dev: Device, co: Coordinator)
    requires Core(Checked, rec, ingest, dev, co) && CanBegin(rec)
    ensures Core(Bare, rec.(state := Reacquiring), ingest, dev, co)
  {
  }

  // ----- Every step keeps the invariant -----

  lemma RecorderKeepsInv(s: State, step: RecorderStep)
    requires Inv(s) && RecorderEnabled(s, step)
    ensures Inv(RecorderDoes(s, step))
  {
    RecorderKeepsCore(StageNow(s), s, step);
    hide Core;
    RecorderKeepsClosed(s, step);
  }

  lemma RecorderKeepsClosed(s: State, step: RecorderStep)
    requires ClosedInv(s) && RecorderEnabled(s, step)
    ensures ClosedInv(RecorderDoes(s, step))
  {
    var g := RecorderDoes(s, step);
    assert g.co == s.co;
    forall a
      ensures Ready(g, a) <==> Ready(s, a)
    {
    }
  }

  lemma RecorderKeepsCore(stage: Stage, s: State, step: RecorderStep)
    requires Core(stage, s.rec, s.ingest, s.dev, s.co) && RecorderEnabled(s, step)
    ensures var g := RecorderDoes(s, step); Core(stage, g.rec, g.ingest, g.dev, g.co)
  {
    FateSame(stage, s.dev, RecorderDoes(s, step).dev);
    hide FateInv;
  }

  lemma FateSame(stage: Stage, dev: Device, g: Device)
    ensures g.returned == dev.returned && g.published == dev.published && g.rejected == dev.rejected && g.next == dev.next ==>
              FateInv(stage, dev) == FateInv(stage, g)
  {
  }

  lemma CoordinatorKeepsInv(s: State, step: CoordinatorStep)
    requires Inv(s) && CoordinatorEnabled(s, step)
    ensures Inv(CoordinatorDoes(s, step))
  {
    var g := CoordinatorDoes(s, step);
    assert s.co.closeError ==> s.co.stop;
    CoordinatorKeepsClosed(s, step);
    hide Core, ClosedInv;
    CoreCoordinator(StageNow(s), s.rec, s.ingest, s.dev, s.co, g.co);
  }

  lemma CoordinatorKeepsClosed(s: State, step: CoordinatorStep)
    requires AttemptInv(s) && ClosedInv(s) && CoordinatorEnabled(s, step)
    ensures ClosedInv(CoordinatorDoes(s, step))
  {
    var g := CoordinatorDoes(s, step);
    forall a
      ensures Ready(g, a) <==> Ready(s, a)
    {
    }
    if step.EndShutdown? || step.EndShutdownInside? {
      forall a
        ensures !Ready(g, a)
      {
        assert a.Manual? ==> (M(s, a.t) != MIdle <==> s.co.attempt == Some(a));
      }
    }
  }

  lemma WorkerKeepsClosed(s: State, step: WorkerStep)
    requires ClosedInv(s) && WorkerEnabled(s, step)
    ensures ClosedInv(WorkerDoes(s, step))
  {
    hide RecordFatal, Abandoned, PublishSource, CanDetach, ReturnCandidate, Leak, RejectCandidate;
    var g := WorkerDoes(s, step);
    forall a | s.co.closed
      ensures !Ready(g, a)
    {
      assert !Ready(s, a) && g.manual == s.manual;
    }
  }

  lemma ManualKeepsClosed(s: State, t: Tid, m: ManualStep)
    requires ClosedInv(s) && ManualEnabled(s, M(s, t), m)
    ensures ClosedInv(Do(s, ByManual(t, m)))
  {
    hide RecordFatal, Abandoned, PublishSource, CanBegin, ReturnCandidate, Leak, RejectCandidate;
    var g := Do(s, ByManual(t, m));
    forall a | s.co.closed
      ensures !Ready(g, a)
    {
      assert !Ready(s, a);
      assert a != Manual(t) && a.Manual? ==> M(g, a.t) == M(s, a.t);
    }
  }

  lemma WorkerAttempt(s: State, step: WorkerStep)
    requires AttemptInv(s) && WorkerEnabled(s, step)
    ensures AttemptInv(WorkerDoes(s, step))
    ensures step.Claim? ==> StageNow(s) == Calm
    ensures !step.Claim? && !step.Die? ==> StageNow(s) == WorkerStage(s.worker)
    ensures !step.Die? ==> StageNow(WorkerDoes(s, step)) == WorkerStage(WorkerDoes(s, step).worker)
    ensures step.Die? ==> StageNow(WorkerDoes(s, step)) == StageNow(s)
  {
  }

  lemma WorkerKeepsInv(s: State, step: WorkerStep)
    requires Inv(s) && WorkerEnabled(s, step)
    ensures Inv(WorkerDoes(s, step))
  {
    WorkerAttempt(s, step);
    WorkerKeepsClosed(s, step);
    var stage, g := StageNow(s), WorkerDoes(s, step);
    assert g.ingest == s.ingest;
    if step.Claim? || step.Die? || step.Leave? {
      WorkerComesAndGoes(stage, s, step);
    } else if Early(step) {
      WorkerKeepsEarly(s, step);
    } else if Carries(step) {
      WorkerCarriesOn(s, step);
    } else if step.Publish? || step.CloseCandidate? {
      WorkerDisposes(s, step);
    } else {
      WorkerLeaves(s, step);
    }
    hide Core, AttemptInv, ClosedInv, WorkerDoes, StageNow, WorkerEnabled, WorkerStage;
  }

  /** Steps up to the point where a candidate is in hand. */
  predicate Early(step: WorkerStep) {
    step.CheckStop? || step.Detach? || step.CloseCurrent? || step.TryOpen? || step.OpenReturns? || step.GiveUp?
  }

  /** Steps that only move the candidate on. */
  predicate Carries(step: WorkerStep) {
    step.Accept? || step.Proceed? || step.Reject?
  }

  lemma WorkerCarriesOn(s: State, step: WorkerStep)
    requires WorkerEnabled(s, step) && Carries(step)
    ensures var g := WorkerDoes(s, step);
            WorkerStage(g.worker) == WorkerStage(s.worker) && g == s.(worker := g.worker)
  {
  }

  lemma WorkerComesAndGoes(stage: Stage, s: State, step: WorkerStep)
    requires Core(stage, s.rec, s.ingest, s.dev, s.co) && WorkerEnabled(s, step) && (step.Claim? || step.Die? || step.Leave?)
    ensures var g := WorkerDoes(s, step); Core(stage, g.rec, g.ingest, g.dev, g.co)
    ensures !step.Die? ==> WorkerStage(WorkerDoes(s, step).worker) == Calm
    ensures step.Leave? ==> WorkerStage(s.worker) == Calm
  {
    assert s.co.closeError ==> s.co.stop;
    hide Core;
    CoreCoordinator(stage, s.rec, s.ingest, s.dev, s.co, WorkerDoes(s, step).co);
  }

  lemma WorkerKeepsEarly(s: State, step: WorkerStep)
    requires WorkerEnabled(s, step) && Early(step)
    requires Core(WorkerStage(s.worker), s.rec, s.ingest, s.dev, s.co)
    ensures var g := WorkerDoes(s, step); Core(WorkerStage(g.worker), g.rec, s.ingest, g.dev, g.co)
  {
    var stage, rec, ingest, dev, co := WorkerStage(s.worker), s.rec, s.ingest, s.dev, s.co;
    hide Core, CanDetach, RecordFatal, Abandoned, ReturnCandidate, Leak, RetainCloseError;
    match step {
      case CheckStop => CoreRetreat(stage, rec, ingest, dev, co);
      case Detach =>
        CoreRetreat(stage, rec, ingest, dev, co);
        if CanDetach(rec) { CoreDetach(rec, ingest, dev, co); }
      case CloseCurrent(ok) =>
        CoreCloseCurrent(s.worker.source, rec, ingest, dev, co, rec.replacementAllowed || (!rec.closing && rec.state == Reconnecting));
      case OpenReturns(_) => CoreOpen(rec, ingest, dev, co);
      case _ =>
    }
  }

  lemma WorkerDisposes(s: State, step: WorkerStep)
    requires WorkerEnabled(s, step) && (step.Publish? || step.CloseCandidate?)
    requires Core(WorkerStage(s.worker), s.rec, s.ingest, s.dev, s.co)
    ensures var g := WorkerDoes(s, step); Core(WorkerStage(g.worker), g.rec, s.ingest, g.dev, g.co)
  {
    var rec, ingest, dev, co := s.rec, s.ingest, s.dev, s.co;
    hide Core, RejectCandidate, PublishSource, RetainCloseError;
    var c := WorkerHolds(s.worker).value;
    if step.Publish? {
      CorePublish(c, rec, ingest, dev, co);
    } else {
      CoreReject(c, rec, ingest, dev, co, step.closed, step.raised);
    }
  }

  lemma WorkerLeaves(s: State, step: WorkerStep)
    requires WorkerEnabled(s, step) && (step.Expire? || step.MarkDisconnected?)
    requires Core(WorkerStage(s.worker), s.rec, s.ingest, s.dev, s.co)
    ensures var g := WorkerDoes(s, step); Core(WorkerStage(g.worker), g.rec, s.ingest, g.dev, g.co)
  {
    var stage, rec, ingest, dev, co := WorkerStage(s.worker), s.rec, s.ingest, s.dev, s.co;
    hide Core;
    if step.Expire? {
      CoreRetreat(stage, rec, ingest, dev, co);
    } else {
      CoreRest(stage, rec, ingest, dev, co, rec.(state := Disconnected, replacementAllowed := false));
    }
  }

  lemma ManualFlags(s: State, t: Tid, pc: ManualPc, m: ManualStep)
    requires ManualEnabled(s, pc, m)
    ensures var g, claims := ManualDoes(s, t, pc, m), m.ClaimRelease? || m.ClaimReacquire?;
            && g.worker == s.worker && g.manual == s.manual
            && g.co.attempt == (if claims then Some(Manual(t)) else if m.ManualLeave? then None else s.co.attempt)
            && (claims ==> pc == MIdle && s.co.attempt.None?) && (!claims ==> pc != MIdle)
            && (ManualNext(s, pc, m) == MIdle <==> m.ManualLeave?)
  {
    hide ReturnCandidate, Leak, RejectCandidate, PublishSource, RecordFatal, Abandoned, CanBegin;
  }

  lemma ManualAttempt(s: State, t: Tid, m: ManualStep)
    requires AttemptInv(s) && ManualEnabled(s, M(s, t), m)
    ensures var g := Do(s, ByManual(t, m));
            && AttemptInv(g)
            && (if m.ClaimRelease? || m.ClaimReacquire? then StageNow(s) == Calm else StageNow(s) == ManualStage(M(s, t)))
            && StageNow(g) == ManualStage(ManualNext(s, M(s, t), m))
  {
    ManualFlags(s, t, M(s, t), m);
    hide ManualEnabled, ManualDoes, ManualNext, ManualStage, WorkerStage;
    var g := Do(s, ByManual(t, m));
    assert M(g, t) == ManualNext(s, M(s, t), m);
    assert forall u :: u != t ==> M(g, u) == M(s, u);
    AtRest();
  }

  lemma AtRest()
    ensures ManualStage(MIdle) == Calm
  {
  }

  lemma ManualKeepsInv(s: State, t: Tid, m: ManualStep)
    requires Inv(s) && ManualEnabled(s, M(s, t), m)
    ensures Inv(Do(s, ByManual(t, m)))
  {
    ManualAttempt(s, t, m);
    ManualKeepsClosed(s, t, m);
    ManualKeepsCore(s, t, M(s, t), m, StageNow(s));
    hide Core, AttemptInv, ClosedInv, ManualDoes, ManualNext, StageNow, ManualEnabled, ManualStage, M;
  }

  predicate OfClosing(m: ManualStep) {
    m.BeginRelease? || m.CloseReleased?
  }

  predicate OfRelease(m: ManualStep) {
    m.AwaitDrained? || m.JournalReleased? || m.FailRelease? || m.RefuseRelease?
  }

  predicate OfCoordinator(m: ManualStep) {
    m.ClaimRelease? || m.ClaimReacquire? || m.Resume? || m.ManualLeave?
  }

  lemma ManualKeepsCore(s: State, t: Tid, pc: ManualPc, m: ManualStep, stage: Stage)
    requires ManualEnabled(s, pc, m) && Core(stage, s.rec, s.ingest, s.dev, s.co)
    requires if m.ClaimRelease? || m.ClaimReacquire? then stage == Calm else stage == ManualStage(pc)
    ensures var g := ManualDoes(s, t, pc, m); Core(ManualStage(ManualNext(s, pc, m)), g.rec, s.ingest, g.dev, g.co) && g.ingest == s.ingest
  {
    if OfCoordinator(m) {
      ManualKeepsCoordinator(s, t, pc, m, stage);
    } else if OfClosing(m) {
      ManualKeepsClosing(s, t, pc, m);
    } else if OfRelease(m) {
      ManualKeepsRelease(s, t, pc, m);
    } else {
      ManualKeepsReacquire(s, t, pc, m);
    }
    assert ManualDoes(s, t, pc, m).ingest == s.ingest;
    hide Core, ManualDoes, ManualNext, ManualEnabled, ManualStage;
  }

  lemma ManualKeepsCoordinator(s: State, t: Tid, pc: ManualPc, m: ManualStep, stage: Stage)
    requires ManualEnabled(s, pc, m) && OfCoordinator(m) && Core(stage, s.rec, s.ingest, s.dev, s.co)
    requires if m.ClaimRelease? || m.ClaimReacquire? then stage == Calm else stage == ManualStage(pc)
    ensures var g := ManualDoes(s, t, pc, m); Core(ManualStage(ManualNext(s, pc, m)), g.rec, s.ingest, g.dev, g.co)
  {
    var rec, ingest, dev, co := s.rec, s.ingest, s.dev, s.co;
    var g := ManualDoes(s, t, pc, m).co;
    assert co.closeError ==> co.stop;
    assert stage != Calm ==> m.ManualLeave?;
    hide Core;
    CoreRetreat(stage, rec, ingest, dev, co);
    CoreCoordinator(Calm, rec, ingest, dev, co, g);
    CoreRetreat(Calm, rec, ingest, dev, g);
  }

  lemma ManualKeepsClosing(s: State, t: Tid, pc: ManualPc, m: ManualStep)
    requires ManualEnabled(s, pc, m) && OfClosing(m) && Core(ManualStage(pc), s.rec, s.ingest, s.dev, s.co)
    ensures var g := ManualDoes(s, t, pc, m); Core(ManualStage(ManualNext(s, pc, m)), g.rec, s.ingest, g.dev, g.co)
  {
    hide Core, RecordFatal, Abandoned;
    if m.BeginRelease? {
      CoreBeginRelease(s.rec, s.ingest, s.dev, s.co);
    } else {
      CoreCloseReleased(pc.source, s.rec, s.ingest, s.dev, s.co);
    }
  }

  lemma ManualKeepsRelease(s: State, t: Tid, pc: ManualPc, m: ManualStep)
    requires ManualEnabled(s, pc, m) && OfRelease(m) && Core(ManualStage(pc), s.rec, s.ingest, s.dev, s.co)
    ensures var g := ManualDoes(s, t, pc, m); Core(ManualStage(ManualNext(s, pc, m)), g.rec, s.ingest, g.dev, g.co)
  {
    var stage, rec, ingest, dev, co := ManualStage(pc), s.rec, s.ingest, s.dev, s.co;
    assert co.closeError ==> co.stop;
    hide Core, RecordFatal, Abandoned, ManualHolds, Raised, CanBegin;
    CoreAnnounces(stage, rec, ingest, dev, co);
    if m.AwaitDrained? {
      CoreDrained(rec, ingest, dev, co);
      CoreRetreat(stage, rec, ingest, dev, co);
    } else if m.JournalReleased? {
      CoreRest(stage, rec, ingest, dev, co, rec.(state := Released, releasing := false));
    } else if m.FailRelease? {
      CoreRetreat(stage, rec, ingest, dev, RetainCloseError(co));
    }
  }

  lemma CoreAnnounces(stage: Stage, rec: Recorder, ingest: Ingest, dev: Device, co: Coordinator)
    requires Core(stage, rec, ingest, dev, co)
    ensures Core(stage, rec, ingest, dev, co.(suspended := false)) && Core(stage, rec, ingest, dev, RetainCloseError(co))
  {
    CoreCoordinator(stage, rec, ingest, dev, co, co.(suspended := false));
    CoreCoordinator(stage, rec, ingest, dev, co, RetainCloseError(co));
  }

  lemma ManualKeepsReacquire(s: State, t: Tid, pc: ManualPc, m: ManualStep)
    requires ManualEnabled(s, pc, m) && !OfClosing(m) && !OfRelease(m) && !OfCoordinator(m) && Core(ManualStage(pc), s.rec, s.ingest, s.dev, s.co)
    ensures var g := ManualDoes(s, t, pc, m); Core(ManualStage(ManualNext(s, pc, m)), g.rec, s.ingest, g.dev, g.co)
  {
    var stage, rec, ingest, dev, co := ManualStage(pc), s.rec, s.ingest, s.dev, s.co;
    hide Core, CanBegin, ReturnCandidate, Leak, RejectCandidate, PublishSource, RetainCloseError;
    match m {
      case BeginReacquire =>
        CoreRetreat(stage, rec, ingest, dev, co);
        if CanBegin(rec) { CoreBegin(rec, ingest, dev, co); }
      case ManualOpened(_) => CoreOpen(rec, ingest, dev, co);
      case ManualPublish => CorePublish(pc.candidate, rec, ingest, dev, co);
      case ManualClose(closed, raised) => CoreReject(pc.candidate, rec, ingest, dev, co, closed, raised);
      case ReacquireFailed(next) => CoreRest(stage, rec, ingest, dev, co, rec.(state := next));
      case _ =>
    }
  }

  lemma {:induction false} RunKeepsInv(run: seq<Step>)
    requires Final(run).Some?
    ensures Inv(Final(run).value)
  {
    if run == [] {
      assert forall t :: M(START, t) == MIdle;
    } else {
      var before, step := Final(run[..|run| - 1]).value, run[|run| - 1];
      RunKeepsInv(run[..|run| - 1]);
      hide Inv, WorkerEnabled, ManualEnabled, RecorderEnabled, CoordinatorEnabled, WorkerDoes, RecorderDoes, CoordinatorDoes, ManualDoes;
      match step
      case ByWorker(w) => WorkerKeepsInv(before, w);
      case ByManual(t, m) => ManualKeepsInv(before, t, m);
      case ByRecorder(r) => RecorderKeepsInv(before, r);
      case ByCoordinator(c) => CoordinatorKeepsInv(before, c);
    }
  }

  // ----- The promises -----

  predicate InProgress(s: State, a: Actor) {
    match a
    case Worker => InAttempt(s.worker)
    case Manual(t) => M(s, t) != MIdle
  }

  /** At most one attempt is in flight. */
  lemma OneAttempt(run: seq<Step>, a: Actor, b: Actor)
    requires Final(run).Some? && InProgress(Final(run).value, a) && InProgress(Final(run).value, b)
    ensures a == b && Final(run).value.co.attempt == Some(a)
  {
    RunKeepsInv(run);
    hide Core;
  }

  /** At no moment are two opened sources both without a confirmed close. */
  lemma OneLooseSource(run: seq<Step>, a: SourceId, b: SourceId)
    requires Final(run).Some? && a in Final(run).value.dev.loose && b in Final(run).value.dev.loose
    ensures a == b
  {
    RunKeepsInv(run);
    hide AttemptInv;
  }

  /** Whoever asks the device to open: every earlier source, published or not, is confirmed closed, no
      close is still going on, and none has ever failed. */
  lemma OpensOnlyWhenClosed(run: seq<Step>, a: Actor)
    requires Final(run).Some?
    requires var s := Final(run).value; match a case Worker => s.worker.WOpening? case Manual(t) => M(s, t).MOpening?
    ensures var s := Final(run).value;
            && s.dev.loose == {} && s.dev.dying == {} && s.rec.source.None?
            && !s.dev.candidateCloseFailed && !s.dev.sourceCloseFailed
  {
    RunKeepsInv(run);
    var s := Final(run).value;
    assert StageNow(s) == Bare;
  }

  lemma FreeToOpen(s: State, t: Tid)
    requires Inv(s)
    ensures s.worker.WOpening? || M(s, t).MOpening? ==> !s.dev.candidateCloseFailed && !s.dev.sourceCloseFailed
  {
    hide LooseInv, RecorderInv, CoordinatorInv, FateInv;
  }

  /** Once a close has failed that stays known, and no candidate is ever opened again. */
  lemma NoneOpenedAfterCloseFailure(run: seq<Step>, step: Step)
    requires Final(run).Some? && Enabled(Final(run).value, step)
    requires Final(run).value.dev.candidateCloseFailed || Final(run).value.dev.sourceCloseFailed
    ensures var s, g := Final(run).value, Do(Final(run).value, step);
            && g.dev.returned == s.dev.returned
            && (g.dev.candidateCloseFailed || g.dev.sourceCloseFailed)
  {
    RunKeepsInv(run);
    var s := Final(run).value;
    FreeToOpen(s, if step.ByManual? then step.t else 0);
    OnlyOpeningReturns(s, step);
    hide AttemptInv, Core, Inv, Do, Enabled;
  }

  lemma OnlyOpeningReturns(s: State, step: Step)
    requires Enabled(s, step)
    ensures var g := Do(s, step);
            && (g.dev.returned == s.dev.returned || s.worker.WOpening? || (step.ByManual? && M(s, step.t).MOpening?))
            && (s.dev.candidateCloseFailed ==> g.dev.candidateCloseFailed)
            && (s.dev.sourceCloseFailed ==> g.dev.sourceCloseFailed)
  {
    hide RecordFatal, Abandoned, PublishSource, CanBegin, CanDetach, RetainCloseError;
  }

  /** The candidate an attempt is holding. */
  function Held(s: State): Option<SourceId> {
    if StageNow(s).Carrying? then Some(StageNow(s).candidate) else None
  }

  /** Every candidate `open_replacement` returned was published exactly once or rejected exactly once,
      never both; only while its attempt lasts is it neither. */
  lemma CandidateFate(run: seq<Step>, c: SourceId)
    requires Final(run).Some?
    ensures var s := Final(run).value;
            && s.dev.returned[c] <= 1
            && s.dev.published[c] + s.dev.rejected[c] == s.dev.returned[c] - Bit(Held(s) == Some(c))
            && (Held(s).Some? ==> s.co.attempt.Some?)
  {
    RunKeepsInv(run);
    hide AttemptInv, LooseInv, RecorderInv, CoordinatorInv, StageInv;
  }

  predicate Opening(s: State, a: Actor) {
    match a case Worker => s.worker.WOpening? case Manual(t) => M(s, t).MOpening?
  }

  /** After the coordinator's close has returned, nothing is in flight but the attempt it was called from,
      if it was; nothing is ever published again; no open begins, so only the one in whose midst close
      was called can still return a candidate, which `CandidateFate` says is then rejected. */
  lemma ClosedIsQuiet(run: seq<Step>, a: Actor, step: Step)
    requires Final(run).Some? && Final(run).value.co.closed && Enabled(Final(run).value, step)
    ensures var s, g := Final(run).value, Do(Final(run).value, step);
            && g.co.closed && g.co.closer == s.co.closer
            && (InProgress(s, a) ==> s.co.closer == Some(a))
            && g.dev.published == s.dev.published
            && (Opening(g, a) ==> Opening(s, a))
            && (g.dev.returned != s.dev.returned ==> s.co.closer.Some? && Opening(s, s.co.closer.value) && !Opening(g, s.co.closer.value))
  {
    hide *;
    RunKeepsInv(run);
    var s := Final(run).value;
    InvParts(s);
    OnlyAttemptInProgress(s, a);
    ClosedStays(s, step);
    NothingPublished(s, step);
    NoOpenBegins(s, step, a);
    if step.ByManual? { WhoMoves(s, step.t); }
    ReturnsFromOpening(s, step);
  }

  lemma InvParts(s: State)
    requires Inv(s)
    ensures AttemptInv(s) && ClosedInv(s)
  {
    hide AttemptInv, ClosedInv, Core;
  }

  lemma OnlyAttemptInProgress(s: State, a: Actor)
    requires AttemptInv(s) && ClosedInv(s) && s.co.closed
    ensures InProgress(s, a) ==> s.co.attempt == Some(a) == s.co.closer
  {
  }

  lemma WhoMoves(s: State, t: Tid)
    requires AttemptInv(s) && ClosedInv(s) && s.co.closed
    ensures M(s, t) != MIdle ==> s.co.closer == Some(Manual(t))
  {
  }

  lemma ClosedStays(s: State, step: Step)
    requires Enabled(s, step) && s.co.closed
    ensures Do(s, step).co.closed && Do(s, step).co.closer == s.co.closer
  {
    hide M, WorkerEnabled, ManualEnabled, RecorderEnabled, WorkerDoes, ManualDoes, RecorderDoes, ManualNext, InCallback;
    match step {
      case ByWorker(w) => WorkerLeavesClosed(s, w);
      case ByManual(t, m) => ManualLeavesClosed(s, t, M(s, t), m);
      case ByRecorder(r) => RecorderLeavesClosed(s, r);
      case ByCoordinator(_) =>
    }
  }

  lemma WorkerLeavesClosed(s: State, step: WorkerStep)
    requires WorkerEnabled(s, step)
    ensures WorkerDoes(s, step).co.closed == s.co.closed && WorkerDoes(s, step).co.closer == s.co.closer
  {
    hide WorkerHolds, RecordFatal, Abandoned, PublishSource, CanDetach, ReturnCandidate, Leak, RejectCandidate;
  }

  lemma ManualLeavesClosed(s: State, t: Tid, pc: ManualPc, step: ManualStep)
    requires ManualEnabled(s, pc, step)
    ensures ManualDoes(s, t, pc, step).co.closed == s.co.closed && ManualDoes(s, t, pc, step).co.closer == s.co.closer
  {
    hide ManualHolds, RecordFatal, Abandoned, PublishSource, CanBegin, ReturnCandidate, Leak, RejectCandidate;
  }

  lemma RecorderLeavesClosed(s: State, step: RecorderStep)
    requires RecorderEnabled(s, step)
    ensures RecorderDoes(s, step).co == s.co
  {
    hide RecordFatal, Abandoned;
  }

  lemma NothingPublished(s: State, step: Step)
    requires ClosedInv(s) && s.co.closed && Enabled(s, step)
    ensures Do(s, step).dev.published == s.dev.published
  {
    hide ManualNext, ManualHolds, WorkerHolds, RecordFatal, Abandoned, PublishSource, CanBegin, CanDetach, InCallback;
    assert !Ready(s, Worker);
    if step.ByManual? { assert !Ready(s, Manual(step.t)); }
  }

  lemma NoOpenBegins(s: State, step: Step, a: Actor)
    requires ClosedInv(s) && s.co.closed && Enabled(s, step)
    ensures Opening(Do(s, step), a) ==> Opening(s, a)
  {
    hide ManualHolds, WorkerHolds, RecordFatal, Abandoned, PublishSource, CanBegin, CanDetach, ReturnCandidate, Leak, RejectCandidate, InCallback;
    assert s.co.stop;
  }

  lemma ReturnsFromOpening(s: State, step: Step)
    requires AttemptInv(s) && ClosedInv(s) && s.co.closed && Enabled(s, step)
    ensures Do(s, step).dev.returned != s.dev.returned ==>
              s.co.closer.Some? && Opening(s, s.co.closer.value) && !Opening(Do(s, step), s.co.closer.value)
  {
    hide ManualHolds, WorkerHolds, RecordFatal, Abandoned, PublishSource, CanBegin, CanDetach, InCallback;
    OnlyAttemptInProgress(s, Worker);
    if step.ByManual? { WhoMoves(s, step.t); }
  }

  // ----- Two runs of the idle worker -----

  ghost predicate Reachable(s: State) {
    exists run :: Final(run) == Some(s)
  }

  lemma StartIsReachable()
    ensures Reachable(START)
  {
    assert Final([]) == Some(START);
  }

  lemma TakeStep(s: State, step: Step, next: State)
    requires Reachable(s) && Enabled(s, step) && next == Do(s, step)
    ensures Reachable(next)
  {
    var run :| Final(run) == Some(s);
    assert (run + [step])[..|run|] == run;
    assert Final(run + [step]) == Some(next);
  }

  const REPLACING := START.(
    rec := START.rec.(source := None, state := Reconnecting, replacementAllowed := true),
    co := START.co.(attempt := Some(Worker)), dev := START.dev.(loose := {}), ingest := Parked(0), worker := WRetry)

  const OPENED := REPLACING.(
    dev := Device(2, {1}, {}, false, false, multiset{0, 1}, multiset{0}, multiset{}), worker := WHolding(1))

  lemma SourceIsReplaced()
    ensures Reachable(REPLACING)
  {
    hide Reachable;
    StartIsReachable();
    var s1 := START.(ingest := Reading(0));
    TakeStep(START, ByRecorder(Engage), s1);
    var s2 := s1.(rec := s1.rec.(state := Reconnecting, replacementAllowed := true), ingest := Parked(0));
    TakeStep(s1, ByRecorder(Disconnect), s2);
    var s3 := s2.(co := s2.co.(attempt := Some(Worker)), worker := WClaimed);
    TakeStep(s2, ByWorker(Claim), s3);
    var s4 := s3.(worker := WChecked);
    TakeStep(s3, ByWorker(CheckStop), s4);
    var s5 := s4.(rec := s4.rec.(source := None, replacementAllowed := false), worker := WClosing(0));
    TakeStep(s4, ByWorker(Detach), s5);
    assert s5.dev.loose - {0} == {};
    TakeStep(s5, ByWorker(CloseCurrent(true)), REPLACING);
  }

  lemma CandidateIsOpened()
    ensures Reachable(OPENED)
  {
    hide Reachable;
    SourceIsReplaced();
    var s1 := REPLACING.(worker := WOpening);
    TakeStep(REPLACING, ByWorker(TryOpen), s1);
    assert {} + {1} == {1} && multiset{0} + multiset{1} == multiset{0, 1};
    TakeStep(s1, ByWorker(OpenReturns(Opened)), OPENED);
  }

  /** The promises are not empty: a candidate can be published. */
  lemma PublicationHappens()
    ensures exists s :: Reachable(s) && s.rec.state == Connected && s.rec.source == Some(1) && s.dev.published[1] == 1 && s.co.attempt.None?
  {
    hide Reachable;
    CandidateIsOpened();
    var s1 := OPENED.(worker := WPublishing(1));
    TakeStep(OPENED, ByWorker(Accept), s1);
    var s2 := s1.(worker := WAdmitting(1));
    TakeStep(s1, ByWorker(Proceed), s2);
    var s3 := s2.(worker := WJournaled(1));
    TakeStep(s2, ByWorker(Proceed), s3);
    var s4 := s3.(worker := WReady(1));
    TakeStep(s3, ByWorker(Proceed), s4);
    var s5 := s4.(rec := PublishSource(s4.rec, 1), dev := s4.dev.(published := s4.dev.published + multiset{1}), worker := WLeaving);
    TakeStep(s4, ByWorker(Publish), s5);
    var s6 := s5.(co := s5.co.(attempt := None), worker := WIdle);
    TakeStep(s5, ByWorker(Leave), s6);
  }

  /** And a rejected candidate's close can fail. */
  lemma CloseFailureHappens()
    ensures exists s :: Reachable(s) && s.dev.candidateCloseFailed && s.dev.rejected[1] == 1 && s.co.attempt.None?
  {
    hide Reachable;
    CandidateIsOpened();
    var s1 := OPENED.(worker := WRejecting(1));
    TakeStep(OPENED, ByWorker(Reject), s1);
    var s2 := s1.(dev := RejectCandidate(s1.dev, 1, false), co := RetainCloseError(s1.co), worker := WLeaving);
    TakeStep(s1, ByWorker(CloseCandidate(false, true, WLeaving)), s2);
    var s3 := s2.(co := s2.co.(attempt := None), worker := WIdle);
    TakeStep(s2, ByWorker(Leave), s3);
  }

  /** And close, called from inside an open, can return before that open does. */
  lemma CloseFromInsideHappens()
    ensures exists s :: Reachable(s) && s.co.closed && s.co.closer == Some(Worker) && s.worker == WHolding(1)
  {
    hide Reachable;
    SourceIsReplaced();
    var s1 := REPLACING.(worker := WOpening);
    TakeStep(REPLACING, ByWorker(TryOpen), s1);
    var s2 := s1.(co := s1.co.(closing := true, stop := true));
    TakeStep(s1, ByCoordinator(BeginShutdown), s2);
    var s3 := s2.(co := s2.co.(closed := true, closer := Some(Worker)));
    TakeStep(s2, ByCoordinator(EndShutdownInside), s3);
    var s4 := s3.(dev := ReturnCandidate(s3.dev), worker := WHolding(1));
    TakeStep(s3, ByWorker(OpenReturns(Opened)), s4);
  }
}
