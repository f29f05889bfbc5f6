/**
 The append-only audit sink (crates/ttygated/src/audit.rs, `AuditLog::record`).

 `Sink` is what a caller can rely on: the records reported Ok and the permanent failure flag.
 `AuditLog` is the object behind it, with the bytes the destination actually holds.
 */
module Audit {
  import opened Collections
  import opened Wrappers
  import opened Lines

  const MAX_AUDIT_RECORD_BYTES := 4096

  /** Refused: serialisation failed or the record is too large.  Broken: the write or flush failed. */
  datatype Outcome = Persisted | Refused | Broken

  datatype Sink<R> = Sink(records: seq<R>, failed: bool)

  /** One call of `record`: the sink afterwards and whether the caller is told Ok. */
  function Append<R>(sink: Sink<R>, record: R, outcome: Outcome): (Sink<R>, bool) {
    if outcome.Refused? || sink.failed then (sink, false)
    else if outcome.Broken? then (sink.(failed := true), false)
    else (sink.(records := sink.records + [record]), true)
  }

  class AuditLog {
    var failed: bool
    var written: Bytes
    ghost var records: seq<Bytes>

    ghost function View(): Sink<Bytes>
      reads this
    {
      Sink(records, failed)
    }

    /** The destination holds exactly the records reported Ok, followed by nothing unless it failed. */
    ghost predicate Valid()
      reads this
    {
      && Flatten(records) <= written
      && (!failed ==> written == Flatten(records))
    }

    constructor ()
      ensures Valid() && View() == Sink([], false)
    {
      failed := false;
      written := [];
      records := [];
    }

    /**
     `event` is the serialised event (None when serialisation fails), `count` what the writer
     returns for one write call (None for an error), `flushed` whether the flush succeeds.
     */
    method Record(event: Option<Bytes>, count: Option<nat>, flushed: bool) returns (ok: bool, ghost outcome: Outcome)
      requires Valid()
      requires event.Some? && count.Some? ==> count.value <= |event.value| + 1
      modifies this
      ensures Valid() && old(written) <= written
      ensures event.None? ==> outcome == Refused && View() == old(View()) && !ok
      ensures event.Some? ==> (View(), ok) == Append(old(View()), event.value + "\n", outcome)
      ensures event.Some? ==>
        outcome == if |event.value| + 1 > MAX_AUDIT_RECORD_BYTES then Refused
                   else if count == Some(|event.value| + 1) && flushed then Persisted
                   else Broken
      ensures old(failed) || outcome == Refused ==> written == old(written)
      ensures ok <==> !old(failed) && outcome == Persisted
      ensures ok ==> written == old(written) + event.value + "\n" && records == old(records) + [event.value + "\n"]
      ensures !ok ==> records == old(records)
      ensures failed <==> old(failed) || outcome == Broken
    {
      if event.None? {
        return false, Refused;
      }
      var record := event.value + "\n";
      if |record| > MAX_AUDIT_RECORD_BYTES {
        return false, Refused;
      }
      ghost var persists := if count == Some(|record|) && flushed then Persisted else Broken;
      if failed {
        return false, persists;
      }
      if count.Some? {
        written := written + record[..count.value];
      }
      if count != Some(|record|) || !flushed {
        failed := true;
        return false, persists;
      }
      records := records + [record];
      assert records[..|records| - 1] == old(records) && record[..|record|] == record;
      return true, persists;
    }
  }

  // ----- whole runs of the sink -----

  function Appends<R>(sink: Sink<R>, calls: seq<(R, Outcome)>): Sink<R> {
    if calls == [] then sink
    else Append(Appends(sink, calls[..|calls| - 1]), calls[|calls| - 1].0, calls[|calls| - 1].1).0
  }

  /** A failed sink never takes another record and never recovers, whatever is appended later. */
  lemma {:induction false} FailureIsPermanent<R>(sink: Sink<R>, calls: seq<(R, Outcome)>)
    ensures sink.records <= Appends(sink, calls).records
    ensures sink.failed ==> Appends(sink, calls) == sink
  {
    if calls != [] {
      FailureIsPermanent(sink, calls[..|calls| - 1]);
    }
  }

  /** The records `AuditLog.Record` writes for these serialised events. */
  function Framed(events: seq<Bytes>): (records: seq<Bytes>)
    ensures |records| == |events| && forall i :: 0 <= i < |events| ==> records[i] == events[i] + "\n"
  {
    if events == [] then [] else Framed(events[..|events| - 1]) + [events[|events| - 1] + "\n"]
  }

  lemma FramedRecordEndsItsLine(before: Bytes, event: Bytes)
    requires Tail(before) == [] && '\n' !in event
    ensures Tail(before + (event + "\n")) == [] && Terminated(before + (event + "\n")) == Terminated(before) + [event]
  {
    AppendBytes(before, event);
    AppendByte(before + event, '\n');
    assert before + event + ['\n'] == before + (event + "\n");
    assert Tail(before) + event == event;
  }

  /**
   The bytes of a healthy sink split back into exactly the events that were accepted, because a
   serialised event holds no newline of its own.
   */
  lemma {:induction false} AcceptedEventsCanBeReadBack(events: seq<Bytes>)
    requires forall i :: 0 <= i < |events| ==> '\n' !in events[i]
    ensures Terminated(Flatten(Framed(events))) == events && Tail(Flatten(Framed(events))) == []
  {
    if events != [] {
      var init, last := events[..|events| - 1], events[|events| - 1];
      AcceptedEventsCanBeReadBack(init);
      FramedRecordEndsItsLine(Flatten(Framed(init)), last);
      assert Framed(events)[..|events| - 1] == Framed(init);
      assert events == init + [last];
    }
  }
}
