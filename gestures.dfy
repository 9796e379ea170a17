/** The pipeline contract of Core.Gestures.GestureBase: every gesture, when the
    pipeline hands it an event, notifies its "processing" handlers, runs its own
    Process, then notifies its "processed" handlers, each notification carrying
    the same event with the gesture as sender. */
module Gestures {
  import opened Int32

  /** Which of the two notifications an invocation belongs to. */
  datatype Kind = Processing | Processed

  /** The argument object each notification builds around the event. */
  datatype ProcessEventArgs<E> = ProcessEventArgs(evt: E)

  /** One observable step of a gesture: a handler called by a notification, or
      the concrete gesture's own Process running on an event. */
  datatype Entry<E, H> =
    | Invoked(handler: H, kind: Kind, sender: object, args: ProcessEventArgs<E>)
    | Acted(evt: E)

  /** What the concrete gesture's Process leaves behind. Its body is not part of
      the framework, so it may set HistoryCount and subscribe or unsubscribe
      handlers in any way; the model takes the resulting state as given. */
  datatype Step<H> = Step(historyCount: int32, processingHandlers: seq<H>, processedHandlers: seq<H>)

  /** Calling every handler of an invocation list, in registration order, with
      `sender` and a ProcessEventArgs around `evt`. */
  function Invoke<E, H>(kind: Kind, handlers: seq<H>, sender: object, evt: E): seq<Entry<E, H>>
    decreases |handlers|
  {
    if handlers == [] then []
    else [Invoked(handlers[0], kind, sender, ProcessEventArgs(evt))] + Invoke(kind, handlers[1..], sender, evt)
  }

  /** The handlers a trace calls for the notification `kind`, in order. */
  function Called<E, H>(trace: seq<Entry<E, H>>, kind: Kind): seq<H>
    decreases |trace|
  {
    if trace == [] then []
    else
      (if trace[0].Invoked? && trace[0].kind == kind then [trace[0].handler] else [])
      + Called(trace[1..], kind)
  }

  /** The events the concrete gesture's Process runs on in a trace, in order. */
  function Acts<E, H>(trace: seq<Entry<E, H>>): seq<E>
    decreases |trace|
  {
    if trace == [] then []
    else (if trace[0].Acted? then [trace[0].evt] else []) + Acts(trace[1..])
  }

  /** Where an entry belongs within one pipeline call: before, at, or after the
      concrete gesture's own step. */
  function Phase<E, H>(e: Entry<E, H>): nat
  {
    match e
    case Acted(_) => 1
    case Invoked(_, kind, _, _) => if kind == Processing then 0 else 2
  }

  /** Every entry of the trace is about `evt`, and every call has `sender` as sender. */
  ghost predicate AllAbout<E, H>(trace: seq<Entry<E, H>>, sender: object, evt: E)
  {
    forall i :: 0 <= i < |trace| ==>
      match trace[i]
      case Acted(e) => e == evt
      case Invoked(_, _, s, args) => s == sender && args == ProcessEventArgs(evt)
  }

  /** What one pipeline Process call emits, given the "processing" invocation
      list read before the gesture's own step and the "processed" one read after. */
  function PipelineTrace<E, H>(sender: object, evt: E, processing: seq<H>, processed: seq<H>): seq<Entry<E, H>>
  {
    Invoke(Processing, processing, sender, evt) + [Acted(evt)] + Invoke(Processed, processed, sender, evt)
  }

  lemma {:induction false} ProjectionsAppend<E, H>(a: seq<Entry<E, H>>, b: seq<Entry<E, H>>)
    ensures Called(a + b, Processing) == Called(a, Processing) + Called(b, Processing)
    ensures Called(a + b, Processed) == Called(a, Processed) + Called(b, Processed)
    ensures Acts(a + b) == Acts(a) + Acts(b)
    decreases |a|
  {
    if a == [] {
      assert a + b == b;
    } else {
      assert (a + b)[1..] == a[1..] + b;
      ProjectionsAppend(a[1..], b);
    }
  }

  /** A notification calls exactly the handlers of its invocation list, each
      once per registration and in order, and nothing else happens in it. */
  lemma {:induction false} InvokeCallsEachHandler<E, H>(kind: Kind, handlers: seq<H>, sender: object, evt: E)
    ensures Called(Invoke(kind, handlers, sender, evt), kind) == handlers
    ensures Called(Invoke(kind, handlers, sender, evt), if kind == Processing then Processed else Processing) == []
    ensures Acts(Invoke(kind, handlers, sender, evt)) == []
    decreases |handlers|
  {
    if handlers != [] {
      InvokeCallsEachHandler(kind, handlers[1..], sender, evt);
    }
  }

  /** Entry `i` of a notification is the call of its `i`-th handler, with that
      kind, from `sender` and about `evt`. */
  lemma {:induction false} InvokeEntries<E, H>(kind: Kind, handlers: seq<H>, sender: object, evt: E)
    ensures |Invoke(kind, handlers, sender, evt)| == |handlers|
    ensures forall i :: 0 <= i < |handlers| ==>
              Invoke(kind, handlers, sender, evt)[i] == Invoked(handlers[i], kind, sender, ProcessEventArgs(evt))
    decreases |handlers|
  {
    if handlers != [] {
      InvokeEntries(kind, handlers[1..], sender, evt);
    }
  }

  /** One pipeline Process call: the "processing" handlers are each called
      exactly once, then the gesture's own step runs exactly once, then the
      "processed" handlers are each called exactly once; never out of this
      order, and always with the same event and the gesture as sender. With no
      handler registered, only the gesture's own step happens. */
  lemma PipelineTraceSpec<E, H>(sender: object, evt: E, processing: seq<H>, processed: seq<H>)
    ensures var t := PipelineTrace(sender, evt, processing, processed);
      Called(t, Processing) == processing &&
      Called(t, Processed) == processed &&
      Acts(t) == [evt] &&
      AllAbout(t, sender, evt) &&
      (forall i, j :: 0 <= i < j < |t| ==> Phase(t[i]) <= Phase(t[j])) &&
      (processing == [] && processed == [] ==> t == [Acted(evt)])
  {
    var before := Invoke(Processing, processing, sender, evt);
    var after := Invoke(Processed, processed, sender, evt);
    var t := before + [Acted(evt)] + after;
    InvokeCallsEachHandler(Processing, processing, sender, evt);
    InvokeCallsEachHandler(Processed, processed, sender, evt);
    InvokeEntries(Processing, processing, sender, evt);
    InvokeEntries(Processed, processed, sender, evt);
    ProjectionsAppend(before, [Acted(evt)]);
    ProjectionsAppend(before + [Acted(evt)], after);
    assert Acts<E, H>([Acted(evt)]) == [evt];
    assert forall i :: 0 <= i < |t| ==>
      Phase(t[i]) == if i < |before| then 0 else if i == |before| then 1 else 2;
  }

  /** The position of the last registration of `h`, or -1 when there is none. */
  function LastIndexOf<H(==)>(handlers: seq<H>, h: H): (i: int)
    ensures -1 <= i < |handlers|
    ensures i == -1 <==> h !in handlers
    ensures i >= 0 ==> handlers[i] == h && h !in handlers[i + 1..]
    decreases |handlers|
  {
    if handlers == [] then -1
    else if handlers[|handlers| - 1] == h then |handlers| - 1
    else
      var init := handlers[..|handlers| - 1];
      assert handlers == init + [handlers[|handlers| - 1]];
      var i := LastIndexOf(init, h);
      assert i >= 0 ==> handlers[i + 1..] == init[i + 1..] + [handlers[|handlers| - 1]];
      i
  }

  /** What `-=` does to an event's invocation list: the last registration of
      `h` goes, every other handler stays in order; without one, nothing changes. */
  function RemoveLast<H(==)>(handlers: seq<H>, h: H): (r: seq<H>)
    ensures h !in handlers ==> r == handlers
    ensures h in handlers ==>
              exists i :: 0 <= i < |handlers| && handlers[i] == h && h !in handlers[i + 1..] &&
                          r == handlers[..i] + handlers[i + 1..]
  {
    var i := LastIndexOf(handlers, h);
    if i < 0 then handlers else handlers[..i] + handlers[i + 1..]
  }

  /** `-=` undoes `+=`: subscribing a handler and then unsubscribing it gives back
      the invocation list as it was, whatever it already held. */
  lemma SubscribeThenUnsubscribe<H>(handlers: seq<H>, h: H)
    ensures RemoveLast(handlers + [h], h) == handlers
  {
    assert LastIndexOf(handlers + [h], h) == |handlers|;
    assert (handlers + [h])[..|handlers|] == handlers;
  }

  class GestureBase<E, H(==)> {
    /** HistoryCount. */
    var historyCount: int32
    /** The invocation list of ProcessingEvent; empty stands for a null delegate. */
    var processingHandlers: seq<H>
    /** The invocation list of ProcessedEvent; empty stands for a null delegate. */
    var processedHandlers: seq<H>
    /** Everything the gesture has done that handlers or subclasses observe. */
    ghost var trace: seq<Entry<E, H>>

    /** The implicit default state of a new gesture: `HistoryCount` is 0, both events
        are null (no handler registered) and nothing has happened yet. */
    constructor ()
      ensures historyCount == 0 && processingHandlers == [] && processedHandlers == [] && trace == []
    {
      historyCount := 0;
      processingHandlers := [];
      processedHandlers := [];
      trace := [];
    }

    /** The HistoryCount setter: the getter reads back exactly this value. */
    method SetHistoryCount(n: int32)
      modifies this`historyCount
      ensures historyCount == n
    {
      historyCount := n;
    }

    /** `ProcessingEvent += h`. */
    method SubscribeProcessing(h: H)
      modifies this`processingHandlers
      ensures processingHandlers == old(processingHandlers) + [h]
    {
      processingHandlers := processingHandlers + [h];
    }

    /** `ProcessingEvent -= h`. */
    method UnsubscribeProcessing(h: H)
      modifies this`processingHandlers
      ensures processingHandlers == RemoveLast(old(processingHandlers), h)
    {
      processingHandlers := RemoveLast(processingHandlers, h);
    }

    /** `ProcessedEvent += h`. */
    method SubscribeProcessed(h: H)
      modifies this`processedHandlers
      ensures processedHandlers == old(processedHandlers) + [h]
    {
      processedHandlers := processedHandlers + [h];
    }

    /** `ProcessedEvent -= h`. */
    method UnsubscribeProcessed(h: H)
      modifies this`processedHandlers
      ensures processedHandlers == RemoveLast(old(processedHandlers), h)
    {
      processedHandlers := RemoveLast(processedHandlers, h);
    }

    /** OnProcessingEvent: reads the invocation list once and, unless it is
        empty, calls each of its handlers with this gesture and the event. */
    method OnProcessingEvent(evt: E)
      modifies this`trace
      ensures trace == old(trace) + Invoke(Processing, processingHandlers, this, evt)
      ensures processingHandlers == [] ==> trace == old(trace)
    {
      var handler := processingHandlers;
      if handler != [] {
        trace := trace + Invoke(Processing, handler, this, evt);
      }
    }

    /** OnProcessedEvent, the same for the "processed" notification. */
    method OnProcessedEvent(evt: E)
      modifies this`trace
      ensures trace == old(trace) + Invoke(Processed, processedHandlers, this, evt)
      ensures processedHandlers == [] ==> trace == old(trace)
    {
      var handler := processedHandlers;
      if handler != [] {
        trace := trace + Invoke(Processed, handler, this, evt);
      }
    }

    /** The concrete gesture's Process: runs once on the event and leaves the
        state `step` describes. */
    method Process(evt: E, step: Step<H>)
      modifies this`historyCount, this`processingHandlers, this`processedHandlers, this`trace
      ensures trace == old(trace) + [Acted(evt)]
      ensures historyCount == step.historyCount
      ensures processingHandlers == step.processingHandlers && processedHandlers == step.processedHandlers
    {
      historyCount := step.historyCount;
      processingHandlers := step.processingHandlers;
      processedHandlers := step.processedHandlers;
      trace := trace + [Acted(evt)];
    }

    /** The pipeline's entry point, `IPipeline<IUserChangedEvent>.Process`:
        notify "processing", run the gesture's own Process, notify "processed".
        The first notification uses the handlers registered on entry, the second
        those registered once the gesture's step has run. */
    method PipelineProcess(evt: E, step: Step<H>)
      modifies this`historyCount, this`processingHandlers, this`processedHandlers, this`trace
      ensures trace == old(trace) + PipelineTrace(this, evt, old(processingHandlers), step.processedHandlers)
      ensures var t := trace[|old(trace)|..];
        Called(t, Processing) == old(processingHandlers) &&
        Called(t, Processed) == step.processedHandlers &&
        Acts(t) == [evt] &&
        AllAbout(t, this, evt) &&
        forall i, j :: 0 <= i < j < |t| ==> Phase(t[i]) <= Phase(t[j])
      ensures historyCount == step.historyCount
      ensures processingHandlers == step.processingHandlers && processedHandlers == step.processedHandlers
    {
      OnProcessingEvent(evt);
      Process(evt, step);
      OnProcessedEvent(evt);
      ghost var t := PipelineTrace(this, evt, old(processingHandlers), step.processedHandlers);
      assert trace == old(trace) + t;
      assert trace[|old(trace)|..] == t;
      PipelineTraceSpec(this, evt, old(processingHandlers), step.processedHandlers);
    }
  }
}
