/** Batch nodes: buffering and emission (sohara-runtime/src/control.rs, sohara-runtime/src/runner.rs). */
module Batch {
  import opened Json
  import opened Payload
  import Join

  /** The buffer, whether the window clock is running, and every batch emitted so far. */
  datatype BatchState = BatchState(buffer: seq<Record>, armed: bool, emitted: seq<seq<Record>>)

  /** `elapsed`: the configured window has passed since the clock was started. */
  datatype BatchEvent = Arrive(record: Record, elapsed: bool) | Flush

  const EMPTY := BatchState([], false, [])

  predicate SizeHit(size: Option<nat>, buffered: nat) { size.Some? && buffered >= size.value }

  /** Whether an arrival that makes the buffer this long completes a batch. */
  predicate Completes(size: Option<nat>, windowed: bool, buffered: nat, armed: bool, elapsed: bool) {
    SizeHit(size, buffered) || (windowed && armed && elapsed)
  }

  function Step(s: BatchState, size: Option<nat>, windowed: bool, ev: BatchEvent): BatchState {
    match ev
    case Arrive(record, elapsed) =>
      var buffer := s.buffer + [record];
      if Completes(size, windowed, |buffer|, s.armed, elapsed)
      then BatchState([], false, s.emitted + [buffer])
      else BatchState(buffer, true, s.emitted)
    case Flush =>
      if s.buffer == [] then s else BatchState([], s.armed, s.emitted + [s.buffer])
  }

  function BatchRun(size: Option<nat>, windowed: bool, log: seq<BatchEvent>): BatchState {
    if log == [] then EMPTY
    else Step(BatchRun(size, windowed, log[..|log| - 1]), size, windowed, log[|log| - 1])
  }

  /** The records that arrived, in order. */
  function Arrivals(log: seq<BatchEvent>): seq<Record> {
    if log == [] then []
    else
      var k := |log| - 1;
      Arrivals(log[..k]) + if log[k].Arrive? then [log[k].record] else []
  }

  lemma ArrivalsSnoc(log: seq<BatchEvent>, ev: BatchEvent)
    ensures Arrivals(log + [ev]) == Arrivals(log) + if ev.Arrive? then [ev.record] else []
  {
    assert (log + [ev])[..|log|] == log;
  }

  /** `later` continues `earlier` without a flush. */
  ghost predicate ArrivalsOnly(earlier: seq<BatchEvent>, later: seq<BatchEvent>) {
    earlier <= later && forall i :: |earlier| <= i < |later| ==> later[i].Arrive?
  }

  /** Without a size limit or a window, everything that arrives between flushes stays in the buffer. */
  lemma {:induction false} UnlimitedKeepsAll(earlier: seq<BatchEvent>, later: seq<BatchEvent>)
    requires ArrivalsOnly(earlier, later)
    ensures |BatchRun(None, false, later).buffer| - |BatchRun(None, false, earlier).buffer|
         == |Arrivals(later)| - |Arrivals(earlier)| >= 0
    decreases |later|
  {
    if |later| == |earlier| {
      assert later == earlier;
    } else {
      UnlimitedKeepsAll(earlier, later[..|later| - 1]);
    }
  }

  function Limit(size: nat): nat { if size == 0 then 1 else size }

  /** No batch is empty or larger than the limit. */
  ghost predicate Bounded(batches: seq<seq<Record>>, size: Option<nat>) {
    forall i :: 0 <= i < |batches| ==> batches[i] != [] && (size.Some? ==> |batches[i]| <= Limit(size.value))
  }

  /** Nothing lost, added or reordered: emitted batches, then the buffer, are the arrivals. */
  ghost predicate Keeps(s: BatchState, arrivals: seq<Record>, size: Option<nat>) {
    && Join.Flatten(s.emitted) + s.buffer == arrivals
    && (size.Some? ==> |s.buffer| < Limit(size.value))
    && Bounded(s.emitted, size)
  }

  lemma ArriveKeeps(s: BatchState, arrivals: seq<Record>, size: Option<nat>, windowed: bool, record: Record,
                    elapsed: bool)
    requires Keeps(s, arrivals, size)
    ensures Keeps(Step(s, size, windowed, Arrive(record, elapsed)), arrivals + [record], size)
  {
    Join.FlattenSnoc(s.emitted, s.buffer + [record]);
    var all := Join.Flatten(s.emitted) + (s.buffer + [record]);
    assert all == arrivals + [record] && all + [] == all;
  }

  lemma FlushKeeps(s: BatchState, arrivals: seq<Record>, size: Option<nat>, windowed: bool)
    requires Keeps(s, arrivals, size)
    ensures Keeps(Step(s, size, windowed, Flush), arrivals, size)
  {
    Join.FlattenSnoc(s.emitted, s.buffer);
    assert arrivals + [] == arrivals;
  }

  /**
   * Over every run of a batch node, emitted batches followed by the buffer are
   * the arrivals, in order; no batch is empty; and with a size limit the buffer
   * stays below it.
   */
  lemma {:induction false} BatchKeepsOrder(size: Option<nat>, windowed: bool, log: seq<BatchEvent>)
    ensures Keeps(BatchRun(size, windowed, log), Arrivals(log), size)
  {
    if log != [] {
      var k := |log| - 1;
      BatchKeepsOrder(size, windowed, log[..k]);
      var s := BatchRun(size, windowed, log[..k]);
      match log[k]
      case Arrive(record, elapsed) => ArriveKeeps(s, Arrivals(log[..k]), size, windowed, record, elapsed);
      case Flush =>
        FlushKeeps(s, Arrivals(log[..k]), size, windowed);
        assert Arrivals(log[..k]) + [] == Arrivals(log[..k]);
    }
  }

  /** After a flush nothing is buffered and everything that arrived has been emitted. */
  lemma FlushEmitsAll(size: Option<nat>, windowed: bool, log: seq<BatchEvent>)
    ensures var s := BatchRun(size, windowed, log + [Flush]);
            s.buffer == [] && Join.Flatten(s.emitted) == Arrivals(log)
  {
    BatchKeepsOrder(size, windowed, log + [Flush]);
    assert (log + [Flush])[..|log|] == log;
    var s := BatchRun(size, windowed, log + [Flush]);
    assert Join.Flatten(s.emitted) + [] == Join.Flatten(s.emitted) && Arrivals(log) + [] == Arrivals(log);
  }

  /** The record a batch is sent on as. */
  function BatchRecord(records: seq<Record>): Record {
    Record(Obj(map["items" := Arr(seq(|records|, i requires 0 <= i < |records| => records[i].payload))]), map[])
  }

  /** It is an object with one field, the list of the batch's payloads in order, and no metadata. */
  lemma BatchRecordHolds(records: seq<Record>)
    ensures var r := BatchRecord(records);
            && r.metadata == map[] && r.payload.Obj? && r.payload.fields.Keys == {"items"}
            && r.payload.fields["items"].Arr? && |r.payload.fields["items"].items| == |records|
            && forall i :: 0 <= i < |records| ==> r.payload.fields["items"].items[i] == records[i].payload
  {
  }

  /** The elements of the list `items` in a record's payload. */
  function ItemsOf(r: Record): seq<Value> {
    if r.payload.Obj? && "items" in r.payload.fields && r.payload.fields["items"].Arr?
    then r.payload.fields["items"].items
    else []
  }

  function ItemsIn(records: seq<Record>): seq<Value> {
    if records == [] then [] else ItemsIn(records[..|records| - 1]) + ItemsOf(records[|records| - 1])
  }

  /** The payloads of records, in order. */
  function PayloadsOf(records: seq<Record>): (r: seq<Value>)
    ensures |r| == |records| && forall i :: 0 <= i < |r| ==> r[i] == records[i].payload
  {
    seq(|records|, i requires 0 <= i < |records| => records[i].payload)
  }

  function BatchRecords(batches: seq<seq<Record>>): (r: seq<Record>)
    ensures |r| == |batches|
  {
    seq(|batches|, i requires 0 <= i < |batches| => BatchRecord(batches[i]))
  }

  /** The items of the records that batches are sent on as are the payloads of all batched records, in order. */
  lemma {:induction false} BatchItems(batches: seq<seq<Record>>)
    ensures ItemsIn(BatchRecords(batches)) == PayloadsOf(Join.Flatten(batches))
  {
    if batches != [] {
      var k := |batches| - 1;
      BatchItems(batches[..k]);
      BatchRecordHolds(batches[k]);
      assert BatchRecords(batches)[..k] == BatchRecords(batches[..k]);
      assert ItemsOf(BatchRecord(batches[k])) == PayloadsOf(batches[k]);
      assert PayloadsOf(Join.Flatten(batches)) == PayloadsOf(Join.Flatten(batches[..k])) + PayloadsOf(batches[k]);
    }
  }

  /** So the items sent on, then the payloads still buffered, are the payloads of all arrivals. */
  lemma KeepsPayloads(s: BatchState, arrivals: seq<Record>, size: Option<nat>)
    requires Keeps(s, arrivals, size)
    ensures ItemsIn(BatchRecords(s.emitted)) + PayloadsOf(s.buffer) == PayloadsOf(arrivals)
  {
    BatchItems(s.emitted);
    assert PayloadsOf(Join.Flatten(s.emitted) + s.buffer) == PayloadsOf(Join.Flatten(s.emitted)) + PayloadsOf(s.buffer);
  }

  // ---------- when a batch is complete ----------

  /** Without a window, batches that arrivals complete hold exactly as many records as the size limit says. */
  lemma {:induction false} BatchesAreFull(size: nat, log: seq<BatchEvent>)
    requires forall i :: 0 <= i < |log| ==> log[i].Arrive?
    ensures var s, full := BatchRun(Some(size), false, log), if size == 0 then 1 else size;
            && |s.buffer| < full
            && (forall i :: 0 <= i < |s.emitted| ==> |s.emitted[i]| == full)
            && |s.emitted| * full + |s.buffer| == |log|
  {
    if log != [] {
      var k := |log| - 1;
      BatchesAreFull(size, log[..k]);
      var s, t := BatchRun(Some(size), false, log[..k]), BatchRun(Some(size), false, log);
      var full := if size == 0 then 1 else size;
      if |s.buffer| + 1 >= full { assert |t.emitted| * full == |s.emitted| * full + full; }
    }
  }

  /**
   * A window releases what has been waiting: after an arrival that completed no
   * batch, an arrival once the window has passed completes one, and before that,
   * or as the first since the last batch, it does not without the size limit.
   */
  lemma WindowReleases(windowed: bool, log: seq<BatchEvent>, record: Record, next: Record, elapsed: bool)
    requires !BatchRun(None, windowed, log).armed
    ensures var s := BatchRun(None, windowed, log);
            var one := BatchRun(None, windowed, log + [Arrive(record, elapsed)]);
            var two := BatchRun(None, windowed, log + [Arrive(record, elapsed), Arrive(next, elapsed)]);
            && one.buffer == s.buffer + [record] && one.emitted == s.emitted
            && if windowed && elapsed
               then two.buffer == [] && two.emitted == s.emitted + [s.buffer + [record, next]] && !two.armed
               else two.buffer == s.buffer + [record, next] && two.emitted == s.emitted
  {
    var first, second := log + [Arrive(record, elapsed)], log + [Arrive(record, elapsed), Arrive(next, elapsed)];
    assert first[..|log|] == log && second[..|log| + 1] == first;
    var s := BatchRun(None, windowed, log);
    assert s.buffer + [record] + [next] == s.buffer + [record, next];
  }
}
