/**
  The Enhanced serial adapter's event loop: one reader task, serialized requests, one event consumer.

  Each stretch of code between two suspension points is one step or several; steps of different tasks
  interleave freely. Timeouts, cancellations, write failures and read failures can strike whenever the
  corresponding task waits.
*/
module SerialAdapter {
  import opened Wrappers

  datatype Message<E, R> = Hello | Telemetry(event: E) | Response(body: R) | Other

  datatype Reader = Unstarted | Reading | Dispatching | BlockedOnPut | Dead

  datatype Future<R> = Pending | Result(body: R) | Broken

  datatype Phase = Writing | Awaiting | Terminating

  /** The request that holds the command lock. */
  datatype Request<R> = Request(phase: Phase, response: Future<R>)

  datatype Outcome<R> = Completed(body: R) | Failed

  datatype Receive<E> = NoCall | Waiting | Holding(event: E)

  /** The last five fields record what has happened since the adapter was built: messages the reader
      acted on, events handed to the consumer, events drained at close, and each transmitted request's
      outcome. */
  datatype State<E, R> = State(
    capacity: nat,
    reader: Reader,
    batch: seq<Message<E, R>>,
    greeted: bool,
    ready: bool,
    parserFailed: bool,
    terminal: bool,
    closed: bool,
    queue: seq<E>,
    awaiting: Option<E>,
    receive: Receive<E>,
    request: Option<Request<R>>,
    handled: seq<Message<E, R>>,
    received: seq<E>,
    drained: seq<E>,
    wasDrained: bool,
    outcomes: seq<Outcome<R>>)

  function Start<E, R>(capacity: nat): State<E, R> {
    State(capacity, Unstarted, [], false, false, false, false, false, [], None, NoCall, None, [], [], [], false, [])
  }

  datatype ReaderStep<E, R> =
    | StartReader
    | HelloTimesOut
    | Chunk(messages: seq<Message<E, R>>, parserFailed: bool)
    | ReadFails
    | Dispatch
    | PutResumes
    | EndBatch
    | CancelReader

  datatype RequestStep =
    | BeginRequest
    | WriteDone
    | WriteFails
    | Complete
    | TimeOut
    | CancelRequest
    | FailRequest

  datatype ConsumerStep =
    | ReceiveNow
    | ReceiveWaits
    | GetterTakes
    | ReceiveReturns
    | ReceiveGivesUp
    | Close
    | Drain

  datatype Step<E, R> = ByReader(r: ReaderStep<E, R>) | ByRequest(q: RequestStep) | ByConsumer(c: ConsumerStep)

  /** The whole first batch is a hello followed by telemetry only. */
  predicate ValidInitial<E, R>(messages: seq<Message<E, R>>, parserFailed: bool) {
    !parserFailed && |messages| > 0 && messages[0].Hello? && forall k :: 0 < k < |messages| ==> messages[k].Telemetry?
  }

  /** `_set_terminal`: the first error stays, and a pending response future fails with it. */
  function SetTerminal<E, R>(s: State<E, R>): State<E, R> {
    if s.terminal then s
    else s.(terminal := true, request := BreakPending(s.request))
  }

  function BreakPending<R>(request: Option<Request<R>>): Option<Request<R>> {
    if request.Some? && request.value.response.Pending? then Some(request.value.(response := Broken)) else request
  }

  function EndRequest<E, R>(s: State<E, R>, outcome: Outcome<R>): State<E, R> {
    s.(request := None, outcomes := s.outcomes + [outcome])
  }

  predicate InPhase<E, R>(s: State<E, R>, phase: Phase) {
    s.request.Some? && s.request.value.phase == phase
  }

  predicate ReaderEnabled<E, R>(s: State<E, R>, step: ReaderStep<E, R>) {
    match step
    case StartReader => s.reader.Unstarted? && !s.terminal
    case HelloTimesOut => !s.reader.Unstarted?
    case Chunk(_, _) => s.reader.Reading?
    case ReadFails => s.reader.Reading? || s.reader.Dispatching?
    case Dispatch => s.reader.Dispatching? && |s.batch| > 0
    case PutResumes => s.reader.BlockedOnPut? && s.awaiting.Some? && |s.queue| < s.capacity
    case EndBatch => s.reader.Dispatching? && |s.batch| == 0
    case CancelReader => s.terminal && (s.reader.Reading? || s.reader.Dispatching? || s.reader.BlockedOnPut?)
  }

  predicate RequestEnabled<E, R>(s: State<E, R>, step: RequestStep) {
    match step
    case BeginRequest => s.request.None? && !s.terminal
    case WriteDone => InPhase(s, Writing)
    case WriteFails => InPhase(s, Writing)
    case Complete => InPhase(s, Awaiting) && s.request.value.response.Result?
    case TimeOut => InPhase(s, Awaiting)
    case CancelRequest => (InPhase(s, Writing) || InPhase(s, Awaiting)) && !s.terminal
    case FailRequest =>
      s.request.Some? && (s.terminal || s.request.value.phase.Terminating? || s.request.value.response.Broken?)
  }

  predicate ConsumerEnabled<E, R>(s: State<E, R>, step: ConsumerStep) {
    match step
    case ReceiveNow => s.receive.NoCall? && |s.queue| > 0
    case ReceiveWaits => s.receive.NoCall? && |s.queue| == 0 && !s.terminal
    case GetterTakes => s.receive.Waiting? && |s.queue| > 0
    case ReceiveReturns => s.receive.Holding?
    case ReceiveGivesUp => s.receive.Waiting?
    case Close => !s.closed
    case Drain => s.closed && (s.reader.Dead? || s.reader.Unstarted?)
  }

  predicate Enabled<E, R>(s: State<E, R>, step: Step<E, R>) {
    match step
    case ByReader(r) => ReaderEnabled(s, r)
    case ByRequest(q) => RequestEnabled(s, q)
    case ByConsumer(c) => ConsumerEnabled(s, c)
  }

  function Fail<E, R>(s: State<E, R>): State<E, R>
    requires s.request.Some?
  {
    var t := SetTerminal(s);
    t.(request := Some(t.request.value.(phase := Terminating)))
  }

  /** One message of the batch. */
  function DispatchOne<E, R>(s: State<E, R>): State<E, R>
    requires |s.batch| > 0
  {
    var m := s.batch[0];
    var t := s.(batch := s.batch[1..]);
    if !s.greeted then DispatchFirst(t, m)
    else match m
         case Telemetry(event) => AdmitEvent(t, event)
         case Response(body) => RouteResponse(t, body)
         case _ => StopBatch(t)
  }

  function DispatchFirst<E, R>(t: State<E, R>, m: Message<E, R>): State<E, R> {
    if m.Hello? then t.(greeted := true, handled := t.handled + [m]) else SetTerminal(t).(reader := Dead)
  }

  /** `put`: at once while there is room, else the reader waits with the event in hand. */
  function AdmitEvent<E, R>(t: State<E, R>, event: E): State<E, R> {
    var u := t.(handled := t.handled + [Telemetry(event)]);
    if |t.queue| < t.capacity then u.(queue := t.queue + [event]) else u.(awaiting := Some(event), reader := BlockedOnPut)
  }

  function RouteResponse<E, R>(t: State<E, R>, body: R): State<E, R> {
    var u := t.(handled := t.handled + [Response(body)]);
    if !t.ready then StopBatch(u)
    else if t.parserFailed then u
    else if t.request.None? || !t.request.value.response.Pending? then StopBatch(u)
    else u.(request := Some(t.request.value.(response := Result(body))))
  }

  /** `break` after an unexpected message: terminal, unless the parser's own error is about to be. */
  function StopBatch<E, R>(s: State<E, R>): State<E, R> {
    var t := s.(batch := []);
    if s.parserFailed then t else SetTerminal(t)
  }

  function ReaderDoes<E, R>(s: State<E, R>, step: ReaderStep<E, R>): State<E, R>
    requires ReaderEnabled(s, step)
  {
    match step
    case StartReader => s.(reader := Reading)
    case HelloTimesOut => SetTerminal(s)
    case Chunk(messages, parserFailed) =>
      if |messages| == 0 && parserFailed then SetTerminal(s.(parserFailed := true)).(reader := Dead)
      else s.(reader := Dispatching, batch := messages, parserFailed := parserFailed, greeted := s.ready,
              ready := s.ready || ValidInitial(messages, parserFailed))
    case ReadFails => SetTerminal(s).(reader := Dead)
    case Dispatch => DispatchOne(s)
    case PutResumes => s.(queue := s.queue + [s.awaiting.value], awaiting := None, reader := Dispatching)
    case EndBatch =>
      var t := s.(ready := s.greeted);
      var u := if s.parserFailed then SetTerminal(t) else t;
      u.(reader := if u.terminal then Dead else Reading)
    case CancelReader => s.(reader := Dead)
  }

  function RequestDoes<E, R>(s: State<E, R>, step: RequestStep): State<E, R>
    requires RequestEnabled(s, step)
  {
    match step
    case BeginRequest => s.(request := Some(Request(Writing, Pending)))
    case WriteDone => s.(request := Some(s.request.value.(phase := Awaiting)))
    case WriteFails => Fail(s)
    case Complete => EndRequest(s, Completed(s.request.value.response.body))
    case TimeOut => Fail(s)
    case CancelRequest => Fail(s)
    case FailRequest => EndRequest(s, Failed)
  }

  function ConsumerDoes<E, R>(s: State<E, R>, step: ConsumerStep): State<E, R>
    requires ConsumerEnabled(s, step)
  {
    match step
    case ReceiveNow => s.(received := s.received + [s.queue[0]], queue := s.queue[1..])
    case ReceiveWaits => s.(receive := Waiting)
    case GetterTakes => s.(receive := Holding(s.queue[0]), queue := s.queue[1..])
    case ReceiveReturns => s.(received := s.received + [s.receive.event], receive := NoCall)
    case ReceiveGivesUp => s.(receive := NoCall)
    case Close => SetTerminal(s).(closed := true)
    case Drain =>
      s.(drained := s.drained + s.queue + OptionSeq(s.awaiting), queue := [], awaiting := None, wasDrained := true)
  }

  function Do<E, R>(s: State<E, R>, step: Step<E, R>): State<E, R>
    requires Enabled(s, step)
  {
    match step
    case ByReader(r) => ReaderDoes(s, r)
    case ByRequest(q) => RequestDoes(s, q)
    case ByConsumer(c) => ConsumerDoes(s, c)
  }

  function OptionSeq<T>(o: Option<T>): seq<T> {
    match o case Some(x) => [x] case None => []
  }

  function Final<E, R>(capacity: nat, run: seq<Step<E, R>>): Option<State<E, R>> {
    if |run| == 0 then Some(Start(capacity))
    else match Final(capacity, run[..|run| - 1])
         case Some(before) =>
           var step := run[|run| - 1];
           if Enabled(before, step) then Some(Do(before, step)) else None
         case None => None
  }

  // ----- References over the messages the reader acted on -----

  /** The telemetry the device sent, in order. */
  ghost function Events<E, R>(messages: seq<Message<E, R>>): seq<E> {
    if messages == [] then []
    else Events(messages[..|messages| - 1]) + EventOf(messages[|messages| - 1])
  }

  ghost function EventOf<E, R>(m: Message<E, R>): seq<E> {
    if m.Telemetry? then [m.event] else []
  }

  /** The command responses the device sent, in order. */
  ghost function Responses<E, R>(messages: seq<Message<E, R>>): seq<R> {
    if messages == [] then []
    else Responses(messages[..|messages| - 1]) + ResponseOf(messages[|messages| - 1])
  }

  ghost function ResponseOf<E, R>(m: Message<E, R>): seq<R> {
    if m.Response? then [m.body] else []
  }

  lemma HandledSnoc<E, R>(messages: seq<Message<E, R>>, m: Message<E, R>)
    ensures Events(messages + [m]) == Events(messages) + EventOf(m)
    ensures Responses(messages + [m]) == Responses(messages) + ResponseOf(m)
    ensures !m.Telemetry? ==> Events(messages + [m]) == Events(messages)
    ensures !m.Response? ==> Responses(messages + [m]) == Responses(messages)
  {
    assert (messages + [m])[..|messages|] == messages;
    assert Events(messages) + [] == Events(messages);
    assert Responses(messages) + [] == Responses(messages);
  }

  // ----- Request/response routing -----

  function Bit(b: bool): nat {
    if b then 1 else 0
  }

  ghost predicate Answered<R>(request: Option<Request<R>>) {
    request.Some? && request.value.response.Result?
  }

  /** How outcomes, the request in progress and the device's answers fit together. */
  ghost predicate Routed<R>(answers: seq<R>, outcomes: seq<Outcome<R>>, request: Option<Request<R>>, terminal: bool, parserFailed: bool) {
    var n := |outcomes|;
    && (forall k :: 0 <= k < n && outcomes[k].Completed? ==> k < |answers| && outcomes[k].body == answers[k])
    && (forall k :: 0 <= k < n - 1 ==> outcomes[k].Completed?)
    && (n > 0 && outcomes[n - 1].Failed? ==> terminal && request.None?)
    && (Answered(request) ==> n < |answers| && request.value.response.body == answers[n])
    && (request.Some? ==>
          && (terminal ==> !request.value.response.Pending?)
          && (!terminal ==> !request.value.response.Broken? && !request.value.phase.Terminating?))
    && (!terminal && !parserFailed ==> |answers| == n + Bit(Answered(request)))
  }

  ghost predicate RoutingInv<E, R>(s: State<E, R>) {
    && Routed(Responses(s.handled), s.outcomes, s.request, s.terminal, s.parserFailed)
    && (s.parserFailed && (s.reader.Reading? || s.reader.Unstarted?) ==> s.terminal)
  }

  lemma RoutedTerminal<R>(answers: seq<R>, outcomes: seq<Outcome<R>>, request: Option<Request<R>>, terminal: bool, parserFailed: bool)
    requires Routed(answers, outcomes, request, terminal, parserFailed)
    ensures terminal ==> BreakPending(request) == request
    ensures forall failed :: Routed(answers, outcomes, BreakPending(request), true, failed)
    ensures Routed(answers, outcomes, request, terminal, true)
    ensures request.Some? ==>
              Routed(answers, outcomes, Some(BreakPending(request).value.(phase := Terminating)), true, parserFailed)
  {
  }

  lemma RoutedRequest<R>(answers: seq<R>, outcomes: seq<Outcome<R>>, request: Option<Request<R>>, terminal: bool, parserFailed: bool)
    requires Routed(answers, outcomes, request, terminal, parserFailed)
    ensures request.None? && !terminal ==> Routed(answers, outcomes, Some(Request(Writing, Pending)), terminal, parserFailed)
    ensures request.Some? && request.value.phase == Writing ==>
              Routed(answers, outcomes, Some(request.value.(phase := Awaiting)), terminal, parserFailed)
  {
  }

  lemma RoutedEnd<R>(answers: seq<R>, outcomes: seq<Outcome<R>>, request: Option<Request<R>>, terminal: bool, parserFailed: bool)
    requires Routed(answers, outcomes, request, terminal, parserFailed) && request.Some?
    ensures Answered(request) ==> Routed(answers, outcomes + [Completed(request.value.response.body)], None, terminal, parserFailed)
    ensures terminal || request.value.phase.Terminating? || request.value.response.Broken? ==>
              Routed(answers, outcomes + [Failed], None, terminal, parserFailed)
  {
  }

  lemma RoutedAnswer<R>(answers: seq<R>, outcomes: seq<Outcome<R>>, request: Option<Request<R>>, terminal: bool, parserFailed: bool, body: R)
    requires Routed(answers, outcomes, request, terminal, parserFailed)
    ensures Routed(answers + [body], outcomes, BreakPending(request), true, parserFailed)
    ensures parserFailed ==> Routed(answers + [body], outcomes, request, terminal, parserFailed)
    ensures !parserFailed && request.Some? && request.value.response.Pending? ==>
              Routed(answers + [body], outcomes, Some(request.value.(response := Result(body))), terminal, parserFailed)
  {
  }

  lemma FirstKeepsRouting<E, R>(t: State<E, R>, m: Message<E, R>)
    requires RoutingInv(t) && t.reader.Dispatching?
    ensures RoutingInv(DispatchFirst(t, m))
  {
    RoutedTerminal(Responses(t.handled), t.outcomes, t.request, t.terminal, t.parserFailed);
    HandledSnoc(t.handled, m);
    hide Responses, Events, Routed, BreakPending;
  }

  lemma EventKeepsRouting<E, R>(t: State<E, R>, event: E)
    requires RoutingInv(t) && t.reader.Dispatching?
    ensures RoutingInv(AdmitEvent(t, event))
  {
    HandledSnoc(t.handled, Telemetry(event));
    hide Responses, Events, Routed;
  }

  lemma StopKeepsRouting<E, R>(t: State<E, R>)
    requires RoutingInv(t) && t.reader.Dispatching?
    ensures RoutingInv(StopBatch(t))
  {
    RoutedTerminal(Responses(t.handled), t.outcomes, t.request, t.terminal, t.parserFailed);
    hide Responses, Events, Routed, BreakPending;
  }

  lemma ResponseKeepsRouting<E, R>(t: State<E, R>, body: R)
    requires RoutingInv(t) && t.reader.Dispatching?
    ensures RoutingInv(RouteResponse(t, body))
  {
    HandledSnoc(t.handled, Response(body));
    RoutedAnswer(Responses(t.handled), t.outcomes, t.request, t.terminal, t.parserFailed, body);
    RoutedTerminal(Responses(t.handled), t.outcomes, t.request, t.terminal, t.parserFailed);
    hide Responses, Events, Routed, BreakPending;
  }

  lemma DispatchKeepsRouting<E, R>(s: State<E, R>)
    requires RoutingInv(s) && s.reader.Dispatching? && |s.batch| > 0
    ensures RoutingInv(DispatchOne(s))
  {
    hide Responses, Events, Routed, DispatchFirst, AdmitEvent, RouteResponse, StopBatch;
    var m, t := s.batch[0], s.(batch := s.batch[1..]);
    assert RoutingInv(t);
    if !s.greeted {
      FirstKeepsRouting(t, m);
    } else {
      match m {
        case Telemetry(event) => EventKeepsRouting(t, event);
        case Response(body) => ResponseKeepsRouting(t, body);
        case _ => StopKeepsRouting(t);
      }
    }
  }

  lemma ReaderKeepsRouting<E, R>(s: State<E, R>, step: ReaderStep<E, R>)
    requires RoutingInv(s) && ReaderEnabled(s, step)
    ensures RoutingInv(ReaderDoes(s, step))
  {
    hide Responses, DispatchOne, ValidInitial, Routed, BreakPending;
    var answers := Responses(s.handled);
    RoutedTerminal(answers, s.outcomes, s.request, s.terminal, s.parserFailed);
    if step.Dispatch? {
      DispatchKeepsRouting(s);
    } else if step.Chunk? {
      RoutedParser(answers, s.outcomes, s.request, s.terminal, s.parserFailed, step.parserFailed);
    }
  }

  lemma RequestKeepsRouting<E, R>(s: State<E, R>, step: RequestStep)
    requires RoutingInv(s) && RequestEnabled(s, step)
    ensures RoutingInv(RequestDoes(s, step))
  {
    hide Responses, Routed, BreakPending;
    var answers := Responses(s.handled);
    RoutedTerminal(answers, s.outcomes, s.request, s.terminal, s.parserFailed);
    RoutedRequest(answers, s.outcomes, s.request, s.terminal, s.parserFailed);
    if s.request.Some? {
      RoutedEnd(answers, s.outcomes, s.request, s.terminal, s.parserFailed);
    }
  }

  lemma ConsumerKeepsRouting<E, R>(s: State<E, R>, step: ConsumerStep)
    requires RoutingInv(s) && ConsumerEnabled(s, step)
    ensures RoutingInv(ConsumerDoes(s, step))
  {
    RoutedTerminal(Responses(s.handled), s.outcomes, s.request, s.terminal, s.parserFailed);
    hide Responses, Routed, BreakPending, OptionSeq;
  }

  lemma StepKeepsRouting<E, R>(s: State<E, R>, step: Step<E, R>)
    requires RoutingInv(s) && Enabled(s, step)
    ensures RoutingInv(Do(s, step))
  {
    hide RoutingInv, ReaderEnabled, RequestEnabled, ConsumerEnabled, ReaderDoes, RequestDoes, ConsumerDoes;
    match step
    case ByReader(r) => ReaderKeepsRouting(s, r);
    case ByRequest(q) => RequestKeepsRouting(s, q);
    case ByConsumer(c) => ConsumerKeepsRouting(s, c);
  }

  lemma RoutedParser<R>(answers: seq<R>, outcomes: seq<Outcome<R>>, request: Option<Request<R>>, terminal: bool, was: bool, failed: bool)
    requires Routed(answers, outcomes, request, terminal, was) && (was ==> terminal)
    ensures Routed(answers, outcomes, request, terminal, failed)
  {
  }

  lemma {:induction false} RoutingHolds<E, R>(capacity: nat, run: seq<Step<E, R>>)
    requires Final(capacity, run).Some?
    ensures RoutingInv(Final(capacity, run).value)
  {
    if |run| > 0 {
      RoutingHolds(capacity, run[..|run| - 1]);
      StepKeepsRouting(Final(capacity, run[..|run| - 1]).value, run[|run| - 1]);
    }
  }

  /** In every interleaving the k-th request to be transmitted, if it completes, returns the k-th
      response the device sent. */
  lemma ResponsesAreRouted<E, R>(capacity: nat, run: seq<Step<E, R>>, k: nat)
    requires Final(capacity, run).Some?
    requires k < |Final(capacity, run).value.outcomes| && Final(capacity, run).value.outcomes[k].Completed?
    ensures var s := Final(capacity, run).value;
            k < |Responses(s.handled)| && s.outcomes[k].body == Responses(s.handled)[k]
  {
    RoutingHolds(capacity, run);
  }

  /** A request that timed out, was cancelled, or could not be written was the last one transmitted. */
  lemma FailureIsLast<E, R>(capacity: nat, run: seq<Step<E, R>>, k: nat, step: Step<E, R>)
    requires Final(capacity, run).Some?
    requires k < |Final(capacity, run).value.outcomes| && Final(capacity, run).value.outcomes[k].Failed?
    requires Enabled(Final(capacity, run).value, step)
    ensures var s := Final(capacity, run).value;
            && k == |s.outcomes| - 1 && s.terminal && s.request.None?
            && Do(s, step).request.None? && Do(s, step).outcomes == s.outcomes
  {
    RoutingHolds(capacity, run);
    IdleWhenTerminal(Final(capacity, run).value, step);
    hide Do, Enabled, Responses, Final;
  }

  lemma IdleWhenTerminal<E, R>(s: State<E, R>, step: Step<E, R>)
    requires Enabled(s, step) && s.terminal && s.request.None?
    ensures Do(s, step).request.None? && Do(s, step).outcomes == s.outcomes
  {
    hide ReaderDoes;
    if step.ByReader? {
      ReaderIdleWhenTerminal(s, step.r);
    }
  }

  lemma ReaderIdleWhenTerminal<E, R>(s: State<E, R>, step: ReaderStep<E, R>)
    requires ReaderEnabled(s, step) && s.terminal && s.request.None?
    ensures ReaderDoes(s, step).request.None? && ReaderDoes(s, step).outcomes == s.outcomes
  {
    hide ValidInitial, BreakPending, DispatchOne;
    if step.Dispatch? {
      DispatchKeepsOther(s);
    }
  }

  /** Dispatching leaves the consumer's side and finished requests alone. */
  lemma DispatchKeepsOther<E, R>(s: State<E, R>)
    requires |s.batch| > 0
    ensures KeepsOther(s, DispatchOne(s))
  {
    hide DispatchFirst, AdmitEvent, RouteResponse, StopBatch;
    var m, t := s.batch[0], s.(batch := s.batch[1..]);
    OneMessageKeepsOther(t, m);
  }

  ghost predicate KeepsOther<E, R>(s: State<E, R>, g: State<E, R>) {
    && g.capacity == s.capacity && g.outcomes == s.outcomes
    && (s.terminal && s.request.None? ==> g.request.None?)
  }

  lemma OneMessageKeepsOther<E, R>(t: State<E, R>, m: Message<E, R>)
    ensures KeepsOther(t, DispatchFirst(t, m)) && KeepsOther(t, StopBatch(t))
    ensures m.Telemetry? ==> KeepsOther(t, AdmitEvent(t, m.event))
    ensures m.Response? ==> KeepsOther(t, RouteResponse(t, m.body))
  {
    hide BreakPending;
  }

  // ----- Event conservation -----

  ghost function Hand<E>(r: Receive<E>): seq<E> {
    if r.Holding? then [r.event] else []
  }

  /** Events returned, in the consumer's hand, drained, queued, and awaiting admission. */
  ghost function Flow<E, R>(s: State<E, R>): seq<E> {
    s.received + Hand(s.receive) + s.drained + s.queue + OptionSeq(s.awaiting)
  }

  ghost predicate EventInv<E, R>(s: State<E, R>) {
    && Events(s.handled) == Flow(s)
    && BoundedInv(s)
  }

  ghost predicate BoundedInv<E, R>(s: State<E, R>) {
    && |s.queue| <= s.capacity
    && (s.awaiting.Some? ==> s.reader.BlockedOnPut? || s.reader.Dead?)
    && (s.closed ==> s.terminal)
    && (if s.wasDrained then s.closed && |s.queue| == 0 && s.awaiting.None? && (s.reader.Dead? || s.reader.Unstarted?)
        else |s.drained| == 0)
  }

  lemma Appended<E>(before: seq<E>, queue: seq<E>, event: E)
    ensures (before + queue + []) + [event] == before + (queue + [event]) + []
    ensures (before + queue + []) + [event] == before + queue + [event]
    ensures before + (queue + [event]) + [] == before + queue + [event]
  {
  }

  lemma Taken<E>(received: seq<E>, queue: seq<E>, rest: seq<E>)
    requires |queue| > 0
    ensures received + [] + [] + queue + rest == (received + [queue[0]]) + [] + [] + queue[1..] + rest
    ensures received + [] + [] + queue + rest == received + [queue[0]] + [] + queue[1..] + rest
  {
  }

  lemma Drained<E>(before: seq<E>, drained: seq<E>, queue: seq<E>, rest: seq<E>)
    ensures before + drained + queue + rest == before + (drained + queue + rest) + [] + []
  {
  }

  lemma Returned<E>(received: seq<E>, event: E)
    ensures received + [event] == (received + [event]) + []
  {
  }

  lemma FirstKeepsEvents<E, R>(t: State<E, R>, m: Message<E, R>)
    requires EventInv(t) && t.reader.Dispatching?
    ensures EventInv(DispatchFirst(t, m))
  {
    HandledSnoc(t.handled, m);
    hide Responses, Events, EventOf, ResponseOf, BreakPending;
  }

  lemma AdmitKeepsEvents<E, R>(t: State<E, R>, event: E)
    requires EventInv(t) && t.reader.Dispatching?
    ensures EventInv(AdmitEvent(t, event))
  {
    HandledSnoc(t.handled, Telemetry(event));
    Appended(t.received + Hand(t.receive) + t.drained, t.queue, event);
    hide Responses, Events;
  }

  lemma RouteKeepsEvents<E, R>(t: State<E, R>, body: R)
    requires EventInv(t) && t.reader.Dispatching?
    ensures EventInv(RouteResponse(t, body))
  {
    HandledSnoc(t.handled, Response(body));
    hide Responses, Events, EventOf, ResponseOf, BreakPending;
  }

  lemma StopKeepsEvents<E, R>(t: State<E, R>)
    requires EventInv(t)
    ensures EventInv(StopBatch(t))
  {
    hide Events, BreakPending;
  }

  lemma DispatchKeepsEvents<E, R>(s: State<E, R>)
    requires EventInv(s) && s.reader.Dispatching? && |s.batch| > 0
    ensures EventInv(DispatchOne(s))
  {
    hide Responses, Events, DispatchFirst, AdmitEvent, RouteResponse, StopBatch;
    var m, t := s.batch[0], s.(batch := s.batch[1..]);
    assert EventInv(t);
    if !s.greeted {
      FirstKeepsEvents(t, m);
    } else {
      match m {
        case Telemetry(event) => AdmitKeepsEvents(t, event);
        case Response(body) => RouteKeepsEvents(t, body);
        case _ => StopKeepsEvents(t);
      }
    }
  }

  lemma ReaderKeepsEvents<E, R>(s: State<E, R>, step: ReaderStep<E, R>)
    requires EventInv(s) && ReaderEnabled(s, step)
    ensures EventInv(ReaderDoes(s, step))
  {
    hide Events, DispatchOne, ValidInitial, BreakPending;
    if step.Dispatch? {
      DispatchKeepsEvents(s);
    } else if step.PutResumes? {
      Appended(s.received + Hand(s.receive) + s.drained, s.queue, s.awaiting.value);
    }
  }

  lemma ConsumerKeepsEvents<E, R>(s: State<E, R>, step: ConsumerStep)
    requires EventInv(s) && ConsumerEnabled(s, step)
    ensures EventInv(ConsumerDoes(s, step)) && ConsumerDoes(s, step).capacity == s.capacity
  {
    hide Events, BreakPending;
    if step.ReceiveNow? || step.GetterTakes? {
      assert s.drained == [];
      Taken(s.received, s.queue, OptionSeq(s.awaiting));
    } else if step.ReceiveReturns? {
      Returned(s.received, s.receive.event);
    } else if step.Drain? {
      Drained(s.received + Hand(s.receive), s.drained, s.queue, OptionSeq(s.awaiting));
    }
  }

  lemma RequestKeepsEvents<E, R>(s: State<E, R>, step: RequestStep)
    requires EventInv(s) && RequestEnabled(s, step)
    ensures EventInv(RequestDoes(s, step)) && RequestDoes(s, step).capacity == s.capacity
  {
    hide Events, BreakPending, OptionSeq, Hand;
  }

  lemma StepKeepsEvents<E, R>(s: State<E, R>, step: Step<E, R>)
    requires EventInv(s) && Enabled(s, step)
    ensures EventInv(Do(s, step)) && Do(s, step).capacity == s.capacity
  {
    hide EventInv, ReaderEnabled, RequestEnabled, ConsumerEnabled, ReaderDoes, RequestDoes, ConsumerDoes;
    match step {
      case ByReader(r) =>
        ReaderKeepsEvents(s, r);
        ReaderKeepsCapacity(s, r);
      case ByRequest(q) =>
        RequestKeepsEvents(s, q);
      case ByConsumer(c) =>
        ConsumerKeepsEvents(s, c);
    }
  }

  lemma ReaderKeepsCapacity<E, R>(s: State<E, R>, step: ReaderStep<E, R>)
    requires ReaderEnabled(s, step)
    ensures ReaderDoes(s, step).capacity == s.capacity
  {
    hide ValidInitial, BreakPending, DispatchOne;
    if step.Dispatch? {
      DispatchKeepsOther(s);
    }
  }

  lemma {:induction false} EventsConserved<E, R>(capacity: nat, run: seq<Step<E, R>>)
    requires Final(capacity, run).Some?
    ensures EventInv(Final(capacity, run).value) && Final(capacity, run).value.capacity == capacity
  {
    if |run| > 0 {
      EventsConserved(capacity, run[..|run| - 1]);
      StepKeepsEvents(Final(capacity, run[..|run| - 1]).value, run[|run| - 1]);
    }
  }

  /** At every step, what was returned, held, drained, queued and awaiting admission is exactly the
      telemetry the device sent, in order: nothing lost, nothing twice. */
  lemma NothingLost<E, R>(capacity: nat, run: seq<Step<E, R>>)
    requires Final(capacity, run).Some?
    ensures var s := Final(capacity, run).value;
            Events(s.handled) == Flow(s) && |s.queue| <= capacity
  {
    EventsConserved(capacity, run);
  }

  /** Draining after close hands over everything that was left, also beside a receive in progress,
      and nothing can happen afterwards that adds to it. */
  lemma DrainIsComplete<E, R>(capacity: nat, run: seq<Step<E, R>>, step: Step<E, R>)
    requires Final(capacity, run).Some? && Final(capacity, run).value.wasDrained
    requires Enabled(Final(capacity, run).value, step)
    ensures var s := Final(capacity, run).value;
            && s.received + Hand(s.receive) + s.drained == Events(s.handled)
            && Do(s, step).handled == s.handled && Do(s, step).drained == s.drained
  {
    EventsConserved(capacity, run);
    var s := Final(capacity, run).value;
    NothingAfter(s.received + Hand(s.receive) + s.drained);
    assert s.queue == [];
    AfterDrain(s, step);
    hide Events, Do, Enabled, Final;
  }

  lemma NothingAfter<E>(a: seq<E>)
    ensures a + [] + [] == a
  {
  }

  lemma AfterDrain<E, R>(s: State<E, R>, step: Step<E, R>)
    requires BoundedInv(s) && s.wasDrained && Enabled(s, step)
    ensures Do(s, step).handled == s.handled && Do(s, step).drained == s.drained
  {
    if step == ByConsumer(Drain) {
      assert s.queue == [] && OptionSeq(s.awaiting) == [];
      NothingAfter(s.drained);
    }
    hide DispatchOne, BreakPending, ValidInitial, OptionSeq;
  }

  /** When a receive meets the terminal error, the consumer already has every event except those it
      drained and at most the one still awaiting a queue slot. */
  lemma ErrorComesLast<E, R>(capacity: nat, run: seq<Step<E, R>>)
    requires Final(capacity, run).Some?
    requires var s := Final(capacity, run).value; s.terminal && s.receive.NoCall? && |s.queue| == 0
    ensures var s := Final(capacity, run).value;
            Events(s.handled) == s.received + s.drained + OptionSeq(s.awaiting)
  {
    EventsConserved(capacity, run);
    hide Events;
    var s := Final(capacity, run).value;
    hide Final, OptionSeq;
    assert s.queue == [];
    NothingBetween(s.received, s.drained, OptionSeq(s.awaiting));
  }

  lemma NothingBetween<E>(a: seq<E>, b: seq<E>, c: seq<E>)
    ensures a + [] + b + [] + c == a + b + c
  {
  }

  // ----- A run with a completed request and a drained event -----

  ghost predicate Reachable<E(!new), R(!new)>(s: State<E, R>) {
    exists run :: Final(s.capacity, run) == Some(s)
  }

  lemma StartIsReachable<E(!new), R(!new)>(capacity: nat)
    ensures Reachable(Start<E, R>(capacity))
  {
    var none: seq<Step<E, R>> := [];
    assert Final(capacity, none) == Some(Start<E, R>(capacity));
  }

  lemma TakeStep<E(!new), R(!new)>(s: State<E, R>, step: Step<E, R>, next: State<E, R>)
    requires Reachable(s) && Enabled(s, step) && next == Do(s, step) && next.capacity == s.capacity
    ensures Reachable(next)
  {
    var run :| Final(s.capacity, run) == Some(s);
    assert (run + [step])[..|run|] == run;
    assert Final(s.capacity, run + [step]) == Some(next);
  }

  /** The hello and one telemetry event are in, the event still queued. */
  function Greeted<E, R>(e: E): State<E, R> {
    Start(1).(reader := Reading, greeted := true, ready := true, queue := [e], handled := [Hello, Telemetry(e)])
  }

  function Answering<E, R>(e: E, r: R): State<E, R> {
    Greeted(e).(handled := [Hello, Telemetry(e), Response(r)], outcomes := [Completed(r)])
  }

  lemma GreetingHappens<E(!new), R(!new)>(e: E)
    ensures Reachable(Greeted<E, R>(e))
  {
    hide Reachable;
    StartIsReachable<E, R>(1);
    var s0: State<E, R> := Start(1);
    var s1 := s0.(reader := Reading);
    TakeStep(s0, ByReader(StartReader), s1);
    var s2 := s1.(reader := Dispatching, batch := [Hello, Telemetry(e)], ready := true);
    TakeStep(s1, ByReader(Chunk([Hello, Telemetry(e)], false)), s2);
    var s3 := s2.(batch := [Telemetry(e)], greeted := true, handled := [Hello]);
    TakeStep(s2, ByReader(Dispatch), s3);
    var s4 := s3.(batch := [], queue := [e], handled := [Hello, Telemetry(e)]);
    TakeStep(s3, ByReader(Dispatch), s4);
    TakeStep(s4, ByReader(EndBatch), Greeted(e));
  }

  lemma AnswerHappens<E(!new), R(!new)>(e: E, r: R)
    ensures Reachable(Answering(e, r))
  {
    hide Reachable;
    GreetingHappens<E, R>(e);
    var s0: State<E, R> := Greeted(e);
    var s1 := s0.(request := Some(Request(Writing, Pending)));
    TakeStep(s0, ByRequest(BeginRequest), s1);
    var s2 := s1.(request := Some(Request(Awaiting, Pending)));
    TakeStep(s1, ByRequest(WriteDone), s2);
    var s3 := s2.(reader := Dispatching, batch := [Response(r)]);
    TakeStep(s2, ByReader(Chunk([Response(r)], false)), s3);
    var s4 := s3.(batch := [], request := Some(Request(Awaiting, Result(r))), handled := [Hello, Telemetry(e), Response(r)]);
    TakeStep(s3, ByReader(Dispatch), s4);
    var s5 := s4.(request := None, outcomes := [Completed(r)]);
    TakeStep(s4, ByRequest(Complete), s5);
    TakeStep(s5, ByReader(EndBatch), Answering(e, r));
  }

  /** The promises are not empty: a request completes with its answer, and a queued event is drained. */
  lemma DrainHappens<E(!new), R(!new)>(e: E, r: R)
    ensures exists s :: Reachable(s) && s.outcomes == [Completed(r)] && s.wasDrained && s.drained == [e]
  {
    hide Reachable;
    AnswerHappens(e, r);
    var s0 := Answering(e, r);
    var s1 := s0.(terminal := true, closed := true);
    TakeStep(s0, ByConsumer(Close), s1);
    var s2 := s1.(reader := Dead);
    TakeStep(s1, ByReader(CancelReader), s2);
    var s3 := s2.(queue := [], drained := [e], wasDrained := true);
    TakeStep(s2, ByConsumer(Drain), s3);
  }
}
