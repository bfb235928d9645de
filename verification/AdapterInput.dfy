/**
  What the serial adapter does with everything that arrives.

  `SerialAdapter` speaks of the messages the reader acted on. Here those are tied to the messages that
  arrived, chunk by chunk: none is skipped or reordered, until the reader stops for good at a message the
  protocol does not allow there.
*/
module AdapterInput {
  import opened Wrappers
  import opened SerialAdapter

  /** All messages read, chunk after chunk. */
  ghost function Arrived<E, R>(run: seq<Step<E, R>>): seq<Message<E, R>> {
    if run == [] then [] else Arrived(run[..|run| - 1]) + ArrivedBy(run[|run| - 1])
  }

  ghost function ArrivedBy<E, R>(step: Step<E, R>): seq<Message<E, R>> {
    if step.ByReader? && step.r.Chunk? then step.r.messages else []
  }

  /** The reader will act on no further message. */
  ghost predicate Stopped<E, R>(s: State<E, R>) {
    s.reader.Dead? || (s.reader.Dispatching? && s.batch == [] && (s.terminal || s.parserFailed))
  }

  /** Where it stopped: at a first message that is no hello, at a message that is neither telemetry nor a response,
      or behind a response. */
  ghost predicate StoppedFor<E, R>(handled: seq<Message<E, R>>, arrived: seq<Message<E, R>>) {
    && handled <= arrived
    && (|| (handled != [] && handled[|handled| - 1].Response?)
        || (|handled| < |arrived|
            && if handled == [] then !arrived[0].Hello? else arrived[|handled|].Hello? || arrived[|handled|].Other?))
  }

  ghost predicate NoneSkipped<E, R>(s: State<E, R>, arrived: seq<Message<E, R>>) {
    s.handled + s.batch == arrived || (Stopped(s) && StoppedFor(s.handled, arrived))
  }

  /** Where the reader is, and what the flags say about it. */
  ghost predicate Placed<E, R>(s: State<E, R>) {
    && (s.reader.Unstarted? || s.reader.Reading? ==> s.batch == [] && (s.ready <==> s.handled != []))
    && (s.reader.Dispatching? || s.reader.BlockedOnPut? ==> (s.greeted <==> s.handled != []))
    && (s.reader.Dead? ==> s.terminal)
  }

  lemma Joined<T>(a: seq<T>, b: seq<T>)
    requires b != []
    ensures (a + [b[0]]) + b[1..] == a + b
    ensures a <= a + b && |a| < |a + b| && (a + b)[|a|] == b[0]
    ensures a + [b[0]] <= a + b
  {
  }

  /** A greeted first message, telemetry or a response was acted on; any other message stops the reader. */
  ghost predicate Dispatched<E, R>(s: State<E, R>, t: State<E, R>, m: Message<E, R>) {
    && s.batch != [] && t.ready == s.ready && t.parserFailed == s.parserFailed && (s.terminal ==> t.terminal)
    && (t.reader.Dispatching? || t.reader.BlockedOnPut? || (t.reader.Dead? && t.terminal))
    && (|| (t.handled == s.handled + [m] && t.batch == s.batch[1..] && !t.reader.Dead? && t.greeted)
        || (t.handled == s.handled + [m] && m.Response? && Stopped(t) && t.greeted)
        || (t.handled == s.handled && t.greeted == s.greeted && Stopped(t)
            && if s.greeted then m.Hello? || m.Other? else !m.Hello?))
  }

  lemma FirstDispatched<E, R>(s: State<E, R>)
    requires s.reader.Dispatching? && s.batch != [] && !s.greeted
    ensures Dispatched(s, DispatchFirst(s.(batch := s.batch[1..]), s.batch[0]), s.batch[0])
  {
    hide BreakPending;
  }

  lemma EventDispatched<E, R>(s: State<E, R>)
    requires s.reader.Dispatching? && s.batch != [] && s.greeted && s.batch[0].Telemetry?
    ensures Dispatched(s, AdmitEvent(s.(batch := s.batch[1..]), s.batch[0].event), s.batch[0])
  {
  }

  lemma ResponseDispatched<E, R>(s: State<E, R>)
    requires s.reader.Dispatching? && s.batch != [] && s.greeted && s.batch[0].Response?
    ensures Dispatched(s, RouteResponse(s.(batch := s.batch[1..]), s.batch[0].body), s.batch[0])
  {
    hide BreakPending;
  }

  lemma StrayDispatched<E, R>(s: State<E, R>)
    requires s.reader.Dispatching? && s.batch != [] && s.greeted && (s.batch[0].Hello? || s.batch[0].Other?)
    ensures Dispatched(s, StopBatch(s.(batch := s.batch[1..])), s.batch[0])
  {
    hide BreakPending;
  }

  lemma OneDispatched<E, R>(s: State<E, R>)
    requires s.reader.Dispatching? && s.batch != []
    ensures Dispatched(s, DispatchOne(s), s.batch[0])
  {
    hide Dispatched, DispatchFirst, AdmitEvent, RouteResponse, StopBatch;
    if !s.greeted {
      FirstDispatched(s);
    } else {
      match s.batch[0] {
        case Telemetry(_) => EventDispatched(s);
        case Response(_) => ResponseDispatched(s);
        case _ => StrayDispatched(s);
      }
    }
  }

  /** One message of the batch. */
  lemma DispatchSkipsNone<E, R>(s: State<E, R>, arrived: seq<Message<E, R>>)
    requires Placed(s) && s.reader.Dispatching? && s.batch != [] && NoneSkipped(s, arrived)
    ensures Placed(DispatchOne(s)) && NoneSkipped(DispatchOne(s), arrived)
  {
    hide DispatchOne;
    OneDispatched(s);
    Joined(s.handled, s.batch);
    assert s.handled + s.batch == arrived;
  }

  lemma ReaderSkipsNone<E, R>(s: State<E, R>, step: ReaderStep<E, R>, arrived: seq<Message<E, R>>)
    requires Placed(s) && ReaderEnabled(s, step) && NoneSkipped(s, arrived)
    ensures Placed(ReaderDoes(s, step)) && NoneSkipped(ReaderDoes(s, step), arrived + ArrivedBy(ByReader(step)))
  {
    hide DispatchOne, ValidInitial, BreakPending;
    assert arrived + [] == arrived;
    if step.Dispatch? {
      DispatchSkipsNone(s, arrived);
    } else if step.Chunk? {
      assert s.handled + [] == s.handled;
    }
  }

  /** The other tasks leave the reader's side alone, except that they may make the adapter terminal. */
  ghost predicate SameInput<E, R>(s: State<E, R>, t: State<E, R>) {
    && t.reader == s.reader && t.batch == s.batch && t.greeted == s.greeted && t.ready == s.ready
    && t.parserFailed == s.parserFailed && t.handled == s.handled && (s.terminal ==> t.terminal)
  }

  lemma RequestKeepsInput<E, R>(s: State<E, R>, step: RequestStep)
    requires RequestEnabled(s, step)
    ensures SameInput(s, RequestDoes(s, step))
    ensures RequestDoes(s, step).terminal <==> s.terminal || step.WriteFails? || step.TimeOut? || step.CancelRequest?
  {
    hide BreakPending;
  }

  lemma ConsumerKeepsInput<E, R>(s: State<E, R>, step: ConsumerStep)
    requires ConsumerEnabled(s, step)
    ensures SameInput(s, ConsumerDoes(s, step))
    ensures ConsumerDoes(s, step).terminal <==> s.terminal || step.Close?
  {
    hide BreakPending, OptionSeq;
  }

  lemma SameSkipsNone<E, R>(s: State<E, R>, t: State<E, R>, arrived: seq<Message<E, R>>)
    requires Placed(s) && NoneSkipped(s, arrived) && SameInput(s, t)
    ensures Placed(t) && NoneSkipped(t, arrived)
  {
  }

  lemma OthersSkipNone<E, R>(s: State<E, R>, step: Step<E, R>, arrived: seq<Message<E, R>>)
    requires Placed(s) && Enabled(s, step) && NoneSkipped(s, arrived) && !step.ByReader?
    ensures Placed(Do(s, step)) && NoneSkipped(Do(s, step), arrived)
  {
    hide RequestEnabled, ConsumerEnabled, RequestDoes, ConsumerDoes, Placed, NoneSkipped, SameInput;
    if step.ByRequest? {
      RequestKeepsInput(s, step.q);
    } else {
      ConsumerKeepsInput(s, step.c);
    }
    SameSkipsNone(s, Do(s, step), arrived);
  }

  lemma {:induction false} NoneSkippedEver<E, R>(capacity: nat, run: seq<Step<E, R>>)
    requires Final(capacity, run).Some?
    ensures Placed(Final(capacity, run).value) && NoneSkipped(Final(capacity, run).value, Arrived(run))
  {
    hide Placed, NoneSkipped, Enabled, Do;
    if run == [] {
      StartsPlaced<E, R>(capacity);
    } else {
      var before, step := run[..|run| - 1], run[|run| - 1];
      NoneSkippedEver(capacity, before);
      StepSkipsNone(Final(capacity, before).value, step, Arrived(before));
    }
  }

  lemma StartsPlaced<E, R>(capacity: nat)
    ensures Placed(Start<E, R>(capacity)) && NoneSkipped(Start<E, R>(capacity), [])
  {
  }

  lemma StepSkipsNone<E, R>(s: State<E, R>, step: Step<E, R>, arrived: seq<Message<E, R>>)
    requires Placed(s) && Enabled(s, step) && NoneSkipped(s, arrived)
    ensures Placed(Do(s, step)) && NoneSkipped(Do(s, step), arrived + ArrivedBy(step))
  {
    hide Placed, NoneSkipped, ReaderEnabled, ReaderDoes;
    if step.ByReader? {
      ReaderSkipsNone(s, step.r, arrived);
    } else {
      OthersSkipNone(s, step, arrived);
      assert arrived + ArrivedBy(step) == arrived;
    }
  }

  // ----- What that means for events and responses -----

  lemma {:induction false} ViewsAppend<E, R>(a: seq<Message<E, R>>, b: seq<Message<E, R>>)
    ensures Events(a + b) == Events(a) + Events(b) && Responses(a + b) == Responses(a) + Responses(b)
  {
    hide Events, Responses;
    if b == [] {
      assert a + b == a;
      NoViews<E, R>();
      assert Events(a) + [] == Events(a) && Responses(a) + [] == Responses(a);
    } else {
      var front, m := b[..|b| - 1], b[|b| - 1];
      assert b == front + [m] && a + b == (a + front) + [m];
      ViewsAppend(a, front);
      HandledSnoc(a + front, m);
      HandledSnoc(front, m);
    }
  }

  lemma NoViews<E, R>()
    ensures Events<E, R>([]) == [] && Responses<E, R>([]) == []
  {
  }

  lemma HandledViews<E, R>(s: State<E, R>, arrived: seq<Message<E, R>>)
    requires NoneSkipped(s, arrived)
    ensures Events(s.handled) <= Events(arrived) && Responses(s.handled) <= Responses(arrived)
    ensures Events(s.handled) + Events(s.batch) == Events(arrived) || (Stopped(s) && StoppedFor(s.handled, arrived))
  {
    hide Events, Responses, Stopped;
    if s.handled + s.batch == arrived {
      ViewsAppend(s.handled, s.batch);
    } else {
      assert s.handled + arrived[|s.handled|..] == arrived;
      ViewsAppend(s.handled, arrived[|s.handled|..]);
    }
  }

  /** Every telemetry event that arrives goes the same way, in order: to the consumer, the drain, the queue, or the
      reader's hands; the rest of what arrived is still in the batch, unless the reader stopped for good. */
  lemma EventsArrive<E, R>(capacity: nat, run: seq<Step<E, R>>)
    requires Final(capacity, run).Some?
    ensures var s := Final(capacity, run).value;
            && Flow(s) <= Events(Arrived(run))
            && (Flow(s) + Events(s.batch) == Events(Arrived(run)) || (Stopped(s) && StoppedFor(s.handled, Arrived(run))))
            && (!s.terminal && !s.parserFailed ==> Flow(s) + Events(s.batch) == Events(Arrived(run)))
  {
    NoneSkippedEver(capacity, run);
    NothingLost(capacity, run);
    hide Events, Responses, Final, Flow, NoneSkipped, StoppedFor;
    HandledViews(Final(capacity, run).value, Arrived(run));
  }

  /** The k-th transmitted request gets the k-th response that arrives. */
  lemma ArrivedResponsesAreRouted<E, R>(capacity: nat, run: seq<Step<E, R>>, k: nat)
    requires Final(capacity, run).Some?
    requires k < |Final(capacity, run).value.outcomes| && Final(capacity, run).value.outcomes[k].Completed?
    ensures k < |Responses(Arrived(run))| && Final(capacity, run).value.outcomes[k].body == Responses(Arrived(run))[k]
  {
    NoneSkippedEver(capacity, run);
    ResponsesAreRouted(capacity, run, k);
    hide Events, Responses, Final, NoneSkipped;
    HandledViews(Final(capacity, run).value, Arrived(run));
  }

  // ----- What makes the adapter fail -----

  /** The protocol does not allow the message there: a hello comes first and only first; a response needs a request
      that waits for it, on an adapter whose first batch is over. */
  ghost predicate Unexpected<E, R>(s: State<E, R>, m: Message<E, R>) {
    if s.handled == [] then !m.Hello?
    else match m
         case Telemetry(_) => false
         case Response(_) => !s.ready || s.request.None? || !s.request.value.response.Pending?
         case _ => true
  }

  /** The step itself makes the adapter terminal. */
  ghost predicate Causes<E, R>(s: State<E, R>, step: Step<E, R>) {
    match step
    case ByReader(Dispatch) => s.batch != [] && Unexpected(s, s.batch[0]) && (s.handled == [] || !s.parserFailed)
    case ByReader(Chunk(messages, failed)) => failed && messages == []
    case ByReader(EndBatch) => s.parserFailed
    case ByReader(r) => r.HelloTimesOut? || r.ReadFails?
    case ByRequest(q) => q.WriteFails? || q.TimeOut? || q.CancelRequest?
    case ByConsumer(c) => c.Close?
  }

  /** The adapter becomes terminal for these causes and no other: a protocol violation, a broken stream, a failed or
      abandoned request, or close. */
  lemma TerminalExactly<E, R>(capacity: nat, run: seq<Step<E, R>>, step: Step<E, R>)
    requires Final(capacity, run).Some? && Enabled(Final(capacity, run).value, step)
    ensures var s := Final(capacity, run).value; Do(s, step).terminal <==> s.terminal || Causes(s, step)
  {
    NoneSkippedEver(capacity, run);
    hide Final, Arrived, NoneSkipped;
    TerminalBy(Final(capacity, run).value, step);
  }

  lemma TerminalBy<E, R>(s: State<E, R>, step: Step<E, R>)
    requires Placed(s) && Enabled(s, step)
    ensures Do(s, step).terminal <==> s.terminal || Causes(s, step)
  {
    hide ReaderEnabled, RequestEnabled, ConsumerEnabled, ReaderDoes, RequestDoes, ConsumerDoes, Placed, Unexpected;
    match step {
      case ByReader(r) => ReaderFails(s, r);
      case ByRequest(q) => RequestKeepsInput(s, q);
      case ByConsumer(c) => ConsumerKeepsInput(s, c);
    }
  }

  lemma ReaderFails<E, R>(s: State<E, R>, step: ReaderStep<E, R>)
    requires Placed(s) && ReaderEnabled(s, step)
    ensures ReaderDoes(s, step).terminal <==> s.terminal || Causes(s, ByReader(step))
  {
    hide BreakPending, ValidInitial, DispatchOne;
    if step.Dispatch? {
      DispatchFails(s);
    }
  }

  lemma DispatchFails<E, R>(s: State<E, R>)
    requires Placed(s) && s.reader.Dispatching? && s.batch != []
    ensures DispatchOne(s).terminal <==> s.terminal || Causes(s, ByReader(Dispatch))
  {
    hide DispatchFirst, AdmitEvent, RouteResponse, StopBatch, ValidInitial;
    var m, t := s.batch[0], s.(batch := s.batch[1..]);
    MessageFails(t, m);
    if m.Telemetry? { EventKeepsUp(t, m.event); }
  }

  lemma MessageFails<E, R>(t: State<E, R>, m: Message<E, R>)
    ensures DispatchFirst(t, m).terminal <==> t.terminal || !m.Hello?
    ensures StopBatch(t).terminal <==> t.terminal || !t.parserFailed
    ensures m.Response? ==>
              (RouteResponse(t, m.body).terminal <==>
               t.terminal || (!t.parserFailed && (!t.ready || t.request.None? || !t.request.value.response.Pending?)))
  {
    hide BreakPending;
  }

  lemma EventKeepsUp<E, R>(t: State<E, R>, event: E)
    ensures AdmitEvent(t, event).terminal == t.terminal
  {
  }
}
