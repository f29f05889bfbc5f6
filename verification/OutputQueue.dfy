/**
 The bounded output queue of the browser (frontend/src/terminal-io.ts, `BoundedTerminalWriter`).

 A chunk is handed to the terminal with a callback that says it has been drained.  Handing a
 chunk over and reporting an overflow are the last things their methods do, so a callback that
 runs inside them is the same as one that runs right after.
 */
module OutputQueue {
  import opened Wrappers

  type Bytes = seq<int>

  datatype Writer = Writer(limit: nat, queue: seq<Bytes>, pendingBytes: int, writing: bool, failed: bool,
    disposed: bool, generation: nat)

  /** What a call does besides changing the writer. */
  datatype Effect = Effect(written: Option<Bytes>, overflowed: bool)

  const NOTHING := Effect(None, false)

  function Pump(w: Writer): (Writer, Option<Bytes>) {
    if w.writing || w.disposed || w.failed || w.queue == [] then (w, None)
    else (w.(queue := w.queue[1..], writing := true), Some(w.queue[0]))
  }

  function Enqueue(w: Writer, data: Bytes): (Writer, bool, Effect) {
    if w.disposed || w.failed then (w, false, NOTHING)
    else if data == [] then (w, true, NOTHING)
    else if w.pendingBytes + |data| > w.limit then (w.(failed := true), false, Effect(None, true))
    else
      var (next, written) := Pump(w.(pendingBytes := w.pendingBytes + |data|, queue := w.queue + [data]));
      (next, true, Effect(written, false))
  }

  /** The callback of a chunk handed over in the given generation. */
  function Drain(w: Writer, chunk: Bytes, generation: nat): (Writer, Option<Bytes>) {
    if w.disposed || generation != w.generation then (w, None)
    else Pump(w.(pendingBytes := w.pendingBytes - |chunk|, writing := false))
  }

  function Dispose(w: Writer): Writer {
    if w.disposed then w
    else w.(disposed := true, generation := w.generation + 1, queue := [], pendingBytes := 0, writing := false)
  }

  class BoundedTerminalWriter {
    const limit: nat
    var queue: seq<Bytes>
    var pendingBytes: int
    var writing: bool
    var failed: bool
    var disposed: bool
    var generation: nat

    function View(): Writer
      reads this
    {
      Writer(limit, queue, pendingBytes, writing, failed, disposed, generation)
    }

    constructor (limit: nat)
      ensures View() == Writer(limit, [], 0, false, false, false, 0)
    {
      this.limit := limit;
      queue, pendingBytes, writing, failed, disposed, generation := [], 0, false, false, false, 0;
    }

    method PumpQueue() returns (written: Option<Bytes>)
      modifies this
      ensures (View(), written) == Pump(old(View()))
    {
      if writing || disposed || failed || queue == [] {
        return None;
      }
      var next := queue[0];
      queue := queue[1..];
      writing := true;
      written := Some(next);
    }

    method EnqueueData(data: Bytes) returns (accepted: bool, effect: Effect)
      modifies this
      ensures (View(), accepted, effect) == Enqueue(old(View()), data)
    {
      if disposed || failed {
        return false, NOTHING;
      }
      if |data| == 0 {
        return true, NOTHING;
      }
      if pendingBytes + |data| > limit {
        failed := true;
        return false, Effect(None, true);
      }
      pendingBytes := pendingBytes + |data|;
      queue := queue + [data];
      var written := PumpQueue();
      return true, Effect(written, false);
    }

    method Drained(chunk: Bytes, handedIn: nat) returns (written: Option<Bytes>)
      modifies this
      ensures (View(), written) == Drain(old(View()), chunk, handedIn)
    {
      if disposed || handedIn != generation {
        return None;
      }
      pendingBytes := pendingBytes - |chunk|;
      writing := false;
      written := PumpQueue();
    }

    method DisposeWriter()
      modifies this
      ensures View() == Dispose(old(View()))
    {
      if disposed {
        return;
      }
      disposed := true;
      generation := generation + 1;
      queue := [];
      pendingBytes := 0;
      writing := false;
    }
  }

  // ----- runs -----

  /** A callback that has been handed out and has not fired. */
  datatype Handed = Handed(chunk: Bytes, generation: nat)

  datatype World = World(writer: Writer, handed: seq<Handed>, accepted: seq<Bytes>, written: seq<Bytes>, overflows: nat)

  /** Each callback fires at most once, whenever it likes. */
  datatype Event = EnqueueEvent(data: Bytes) | DrainEvent(index: nat) | DisposeEvent

  function HandOver(w: World, writer: Writer, chunk: Option<Bytes>): World {
    match chunk
    case None => w.(writer := writer)
    case Some(bytes) => w.(writer := writer, handed := w.handed + [Handed(bytes, writer.generation)],
                          written := w.written + [bytes])
  }

  function Step(w: World, event: Event): World {
    match event
    case EnqueueEvent(data) =>
      var (writer, accepted, effect) := Enqueue(w.writer, data);
      HandOver(w.(accepted := if accepted && data != [] then w.accepted + [data] else w.accepted,
                  overflows := w.overflows + if effect.overflowed then 1 else 0),
               writer, effect.written)
    case DrainEvent(index) =>
      if index < |w.handed| then
        var (writer, next) := Drain(w.writer, w.handed[index].chunk, w.handed[index].generation);
        HandOver(w.(handed := w.handed[..index] + w.handed[index + 1..]), writer, next)
      else w
    case DisposeEvent => w.(writer := Dispose(w.writer))
  }

  function Run(w: World, events: seq<Event>): World
    decreases |events|
  {
    if events == [] then w else Run(Step(w, events[0]), events[1..])
  }

  function Start(limit: nat): World {
    World(Writer(limit, [], 0, false, false, false, 0), [], [], [], 0)
  }

  function Total(chunks: seq<Bytes>): nat {
    if chunks == [] then 0 else Total(chunks[..|chunks| - 1]) + |chunks[|chunks| - 1]|
  }

  lemma {:induction false} TotalOfRest(chunks: seq<Bytes>)
    requires chunks != []
    ensures Total(chunks) == |chunks[0]| + Total(chunks[1..])
  {
    if |chunks| > 1 {
      TotalOfRest(chunks[..|chunks| - 1]);
      assert chunks[1..][..|chunks| - 2] == chunks[..|chunks| - 1][1..];
    } else {
      assert chunks[..0] == [];
    }
  }

  lemma TotalAppend(chunks: seq<Bytes>, chunk: Bytes)
    ensures Total(chunks + [chunk]) == Total(chunks) + |chunk|
  {
    assert (chunks + [chunk])[..|chunks|] == chunks;
  }

  /** Chunks handed over and not drained. */
  function InFlight(handed: seq<Handed>): nat {
    if handed == [] then 0 else |handed[0].chunk| + InFlight(handed[1..])
  }

  /** Until disposal. */
  predicate Live(w: World) {
    && w.writer.generation == 0
    && w.writer.pendingBytes == Total(w.writer.queue) + InFlight(w.handed)
    && w.written + w.writer.queue == w.accepted
    && (w.writer.writing <==> w.handed != [])
    && (!w.writer.writing && !w.writer.failed ==> w.writer.queue == [])
  }

  predicate Over(w: World) {
    w.writer.generation == 1 && w.writer.pendingBytes == 0 && w.writer.queue == [] && !w.writer.writing &&
    w.written <= w.accepted
  }

  predicate Inv(w: World) {
    && 0 <= w.writer.pendingBytes <= w.writer.limit
    && |w.handed| <= 1 && (w.handed != [] ==> w.handed[0].generation == 0)
    && w.overflows == (if w.writer.failed then 1 else 0)
    && if w.writer.disposed then Over(w) else Live(w)
  }

  /** What is queued and in flight, with one chunk more, is within the limit. */
  predicate Fits(w: World, data: Bytes) {
    Total(w.writer.queue) + InFlight(w.handed) + |data| <= w.writer.limit
  }

  predicate Working(w: World) {
    !w.writer.disposed && !w.writer.failed
  }

  /** A chunk that is taken while another is in flight waits behind the queue. */
  lemma QueuedKeepsInv(w: World, data: Bytes)
    requires Inv(w) && Working(w) && data != [] && Fits(w, data) && w.writer.writing
    ensures Inv(Step(w, EnqueueEvent(data)))
  {
    TotalAppend(w.writer.queue, data);
    assert w.written + (w.writer.queue + [data]) == w.accepted + [data];
  }

  /** A chunk that is taken by an idle writer is handed over. */
  lemma HandedKeepsInv(w: World, data: Bytes)
    requires Inv(w) && Working(w) && data != [] && Fits(w, data) && !w.writer.writing
    ensures Inv(Step(w, EnqueueEvent(data)))
  {
    assert w.writer.queue == [] && w.handed == [] && [data][1..] == [];
    assert w.written + [] == w.written;
    assert InFlight([Handed(data, 0)]) == |data| + InFlight([]);
  }

  lemma EnqueueKeepsInv(w: World, data: Bytes)
    requires Inv(w)
    ensures Inv(Step(w, EnqueueEvent(data)))
  {
    if Working(w) && data != [] && Fits(w, data) {
      if w.writer.writing {
        QueuedKeepsInv(w, data);
      } else {
        HandedKeepsInv(w, data);
      }
    }
  }

  lemma DrainKeepsInv(w: World, index: nat)
    requires Inv(w)
    ensures Inv(Step(w, DrainEvent(index)))
  {
    if index < |w.handed| && !w.writer.disposed {
      assert w.handed[1..] == [];
      var queue := w.writer.queue;
      if queue != [] {
        TotalOfRest(queue);
        assert queue == [queue[0]] + queue[1..];
        assert w.written + [queue[0]] + queue[1..] == w.written + queue;
      }
    }
  }

  lemma {:induction false} RunKeepsInv(w: World, events: seq<Event>)
    requires Inv(w)
    ensures Inv(Run(w, events))
    decreases |events|
  {
    if events != [] {
      match events[0] {
        case EnqueueEvent(data) => EnqueueKeepsInv(w, data);
        case DrainEvent(index) => DrainKeepsInv(w, index);
        case DisposeEvent =>
      }
      RunKeepsInv(Step(w, events[0]), events[1..]);
    }
  }

  /**
   At every moment of every run: the byte count is exact and bounded until disposal, what was
   written is an in-order prefix of what was accepted, one chunk at most is outstanding, and
   an overflow is reported once at most.
   */
  lemma OutputIsBoundedAndInOrder(limit: nat, events: seq<Event>)
    ensures var w := Run(Start(limit), events);
            && w.written <= w.accepted && |w.handed| <= 1 && w.overflows <= 1
            && 0 <= w.writer.pendingBytes <= limit
            && (!w.writer.disposed ==> w.writer.pendingBytes == Total(w.writer.queue) + InFlight(w.handed))
  {
    RunKeepsInv(Start(limit), events);
    LimitIsKept(Start(limit), events);
  }

  lemma {:induction false} LimitIsKept(w: World, events: seq<Event>)
    ensures Run(w, events).writer.limit == w.writer.limit
    decreases |events|
  {
    if events != [] {
      LimitIsKept(Step(w, events[0]), events[1..]);
    }
  }

  /** Nothing is left behind: once the terminal has caught up, everything accepted was written. */
  lemma DrainedMeansDelivered(limit: nat, events: seq<Event>)
    ensures var w := Run(Start(limit), events);
            !w.writer.disposed && !w.writer.failed && w.handed == [] ==>
            w.written == w.accepted && w.writer.pendingBytes == 0
  {
    RunKeepsInv(Start(limit), events);
  }

  /** After disposal or an overflow nothing more is written, accepted or reported. */
  lemma {:induction false} EndIsFinal(w: World, events: seq<Event>)
    requires Inv(w) && (w.writer.disposed || w.writer.failed)
    ensures var later := Run(w, events);
            later.written == w.written && later.accepted == w.accepted && later.overflows == w.overflows
    decreases |events|
  {
    if events != [] {
      RunKeepsInv(w, events[..1]);
      assert Run(w, events[..1]) == Step(w, events[0]);
      EndIsFinal(Step(w, events[0]), events[1..]);
    }
  }

  lemma FittingIsAccepted(w: World, data: Bytes)
    requires Inv(w) && data != [] && Working(w) && Fits(w, data)
    ensures
      var later := Step(w, EnqueueEvent(data));
      && later.accepted == w.accepted + [data] && later.overflows == w.overflows && Working(later)
      && later.written == (if w.handed == [] then w.written + [data] else w.written)
  {
    if w.handed == [] {
      assert w.writer.queue + [data] == [data];
    }
  }

  lemma OthersAreRefused(w: World, data: Bytes)
    requires Inv(w) && data != [] && !(Working(w) && Fits(w, data))
    ensures
      var later := Step(w, EnqueueEvent(data));
      && later.accepted == w.accepted && later.written == w.written && !Working(later)
      && later.overflows == w.overflows + (if Working(w) then 1 else 0)
  {
  }

  /**
   At every moment of every run a chunk is accepted exactly when the writer is neither disposed nor
   failed and the chunk still fits beside what is queued and in flight, down to the last byte; one
   that does not fit is reported and fails the writer, and an accepted one is handed over at once
   if the terminal is idle.
   */
  lemma EnqueueIsAcceptedExactly(limit: nat, events: seq<Event>, data: Bytes)
    requires data != []
    ensures
      var w := Run(Start(limit), events);
      var later := Step(w, EnqueueEvent(data));
      var accepted := Working(w) && Total(w.writer.queue) + InFlight(w.handed) + |data| <= limit;
      && later.accepted == (if accepted then w.accepted + [data] else w.accepted)
      && later.overflows == (if Working(w) && !accepted then w.overflows + 1 else w.overflows)
      && (Working(later) <==> accepted)
      && later.written == (if accepted && w.handed == [] then w.written + [data] else w.written)
  {
    RunKeepsInv(Start(limit), events);
    LimitIsKept(Start(limit), events);
    var w := Run(Start(limit), events);
    if Working(w) && Fits(w, data) {
      FittingIsAccepted(w, data);
    } else {
      OthersAreRefused(w, data);
    }
  }

  /** An empty chunk is accepted by a working writer and changes nothing. */
  lemma EmptyChunkChangesNothing(w: World)
    ensures Step(w, EnqueueEvent([])) == w
    ensures Enqueue(w.writer, []).1 <==> !w.writer.disposed && !w.writer.failed
  {
  }

  /** A drain of the chunk in flight frees its bytes and hands over the next one in line. */
  lemma DrainFreesItsBytes(limit: nat, events: seq<Event>)
    requires var w := Run(Start(limit), events); w.handed != [] && !w.writer.disposed
    ensures
      var w := Run(Start(limit), events);
      var later := Step(w, DrainEvent(0));
      && later.writer.pendingBytes == w.writer.pendingBytes - |w.handed[0].chunk|
      && later.written ==
           (if w.writer.queue == [] || w.writer.failed then w.written else w.written + [w.writer.queue[0]])
      && later.accepted == w.accepted
  {
    RunKeepsInv(Start(limit), events);
  }
}
