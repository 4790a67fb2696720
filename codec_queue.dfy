/**
 * The platform codec behind the WebCodecs wrappers (packages/webcodecs/src/video-encoder.ts and
 * audio-decoder.ts), as an abstract first-in first-out queue. Inputs handed to `encode` /
 * `decode` wait in `pending` (`encodeQueueSize` / `decodeQueueSize`); each one the codec finishes
 * is passed to the `output` callback and waits in `outputs` until the wrapper's `onChunk` /
 * `onFrame` has finished with it (`outputQueueSize`); then it is `delivered`.
 *
 * What the platform does while the wrapper waits for a `dequeue` event is chosen by `schedule`, a
 * parameter: finish one input, finish handing one output on, or fire the abort signal.
 */
module CodecQueue {

  import opened Wrappers

  datatype Event = ProcessOne | DeliverOne | Abort

  /**
   * `accepted` is every input ever handed to the codec, `closeCalls` the number of times the
   * wrapper called the codec's `close()`, `ticks` the number of platform events so far.
   */
  datatype Queue<T> = Queue(
    closed: bool, pending: seq<T>, outputs: seq<T>, delivered: seq<T>, accepted: seq<T>,
    closeCalls: nat, ticks: nat)

  /** `getQueueSize`: the codec's own queue plus the outputs not yet handed on. */
  function Size<T>(q: Queue<T>): nat {
    |q.pending| + |q.outputs|
  }

  /**
   * Every input comes out in the order it went in: what was delivered, what waits to be handed
   * on and what waits in the codec are, joined, the accepted inputs (all of them while the
   * codec is open, a prefix once closing discarded the pending ones). `close()` reached the codec
   * once if it is closed and never otherwise.
   */
  ghost predicate Valid<T>(q: Queue<T>) {
    q.delivered + q.outputs + q.pending <= q.accepted &&
    (!q.closed ==> q.delivered + q.outputs + q.pending == q.accepted) &&
    (q.closed ==> q.pending == []) &&
    q.closeCalls == (if q.closed then 1 else 0)
  }

  function Configured<T>(): (q: Queue<T>)
    ensures Valid(q) && Size(q) == 0 && !q.closed && q.accepted == []
  {
    Queue(false, [], [], [], [], 0, 0)
  }

  /** What `close` amounts to: the codec is closed at most once; a second call changes nothing. */
  function Close<T>(q: Queue<T>): (r: Queue<T>)
    requires Valid(q)
    ensures Valid(r) && r.closed && r.accepted == q.accepted && r.delivered == q.delivered && r.outputs == q.outputs
    ensures q.closed ==> r == q
  {
    if q.closed then q else q.(closed := true, pending := [], closeCalls := q.closeCalls + 1)
  }

  lemma CloseIsIdempotent<T>(q: Queue<T>)
    requires Valid(q)
    ensures Close(Close(q)) == Close(q) && Close(q).closeCalls == 1
  {
  }

  /** `encode` / `decode` on an open codec: the input joins the end of the codec's queue. */
  function Submit<T>(q: Queue<T>, x: T): (r: Queue<T>)
    requires Valid(q) && !q.closed
    ensures Valid(r) && Size(r) == Size(q) + 1 && r.accepted == q.accepted + [x]
    ensures r.delivered == q.delivered && r.outputs == q.outputs && !r.closed
  {
    q.(pending := q.pending + [x], accepted := q.accepted + [x])
  }

  /** How far the queues are from empty; every platform event lowers it. */
  function Measure<T>(q: Queue<T>): nat {
    2 * |q.pending| + |q.outputs| + (if q.closed then 0 else 1)
  }

  /** The codec finished its oldest input, which the `output` callback queued (`outputQueueSize++`). */
  ghost predicate ProcessedOne<T>(q: Queue<T>, r: Queue<T>) {
    |q.pending| > 0 &&
    r == q.(pending := q.pending[1..], outputs := q.outputs + [q.pending[0]], ticks := q.ticks + 1)
  }

  /** The oldest output was handed on and its callback finished (`outputQueueSize--`). */
  ghost predicate DeliveredOne<T>(q: Queue<T>, r: Queue<T>) {
    |q.outputs| > 0 &&
    r == q.(outputs := q.outputs[1..], delivered := q.delivered + [q.outputs[0]], ticks := q.ticks + 1)
  }

  /**
   * One platform event while something is queued. Finishing an input moves it to the outputs
   * (`outputQueueSize++`); finishing an output delivers it (`outputQueueSize--`); the abort
   * signal closes the codec. An event that cannot happen gives way to one that can.
   */
  function Step<T>(q: Queue<T>, e: Event): (r: Queue<T>)
    requires Valid(q) && Size(q) > 0
    ensures Valid(r) && Measure(r) < Measure(q) && r.accepted == q.accepted && r.ticks == q.ticks + 1
    ensures q.delivered <= r.delivered && (q.closed ==> r.closed)
    ensures ProcessedOne(q, r) || DeliveredOne(q, r) || (!q.closed && r == Close(q).(ticks := q.ticks + 1))
  {
    var q' := q.(ticks := q.ticks + 1);
    if e.ProcessOne? && |q.pending| > 0 then
      q'.(pending := q.pending[1..], outputs := q.outputs + [q.pending[0]])
    else if e.Abort? && !q.closed then
      Close(q).(ticks := q.ticks + 1)
    else if |q.outputs| > 0 then
      assert q.delivered + q.outputs + q.pending == q.delivered + [q.outputs[0]] + q.outputs[1..] + q.pending;
      q'.(outputs := q.outputs[1..], delivered := q.delivered + [q.outputs[0]])
    else
      q'.(pending := q.pending[1..], outputs := q.outputs + [q.pending[0]])
  }

  /** `while (getQueueSize() > limit) await waitForDequeue()`: the platform runs until the queue is short enough. */
  function WaitBelow<T>(q: Queue<T>, limit: nat, schedule: nat -> Event): (r: Queue<T>)
    requires Valid(q)
    ensures Valid(r) && Size(r) <= limit && r.accepted == q.accepted && q.delivered <= r.delivered
    ensures q.closed ==> r.closed
    ensures Size(q) <= limit ==> r == q
    decreases Measure(q)
  {
    if Size(q) <= limit then q else WaitBelow(Step(q, schedule(q.ticks)), limit, schedule)
  }

  /** Outputs are handed on in the order the inputs were given. */
  lemma DeliveredInCallOrder<T>(q: Queue<T>)
    requires Valid(q)
    ensures q.delivered <= q.accepted && q.delivered + q.outputs <= q.accepted
  {
    assert q.delivered + q.outputs <= q.delivered + q.outputs + q.pending;
  }

  /** Waiting for an empty queue on a codec that stays open delivers every accepted input, in order. */
  lemma FinishDeliversAll<T>(q: Queue<T>, schedule: nat -> Event)
    requires Valid(q)
    ensures var r := WaitBelow(q, 0, schedule);
      Size(r) == 0 && (!r.closed ==> r.delivered == q.accepted)
  {
    var r := WaitBelow(q, 0, schedule);
    assert r.pending == [] && r.outputs == [];
    assert r.delivered + r.outputs + r.pending == r.delivered;
  }

  /** The name of the DOMException that `flush`, `encode` and `decode` throw on a closed codec. */
  const InvalidStateError := "InvalidStateError"

  /** The name of the DOMException that a pending `flush` rejects with when the codec is closed. */
  const AbortError := "AbortError"

  /** The platform runs until every input handed to the codec has come out of it, or it closed. */
  function FlushSteps<T>(q: Queue<T>, schedule: nat -> Event): (r: Queue<T>)
    requires Valid(q)
    ensures Valid(r) && r.pending == [] && r.accepted == q.accepted && q.delivered <= r.delivered
    ensures q.closed ==> r.closed
    ensures q.pending == [] ==> r == q
    decreases Measure(q)
  {
    if q.pending == [] then q else FlushSteps(Step(q, schedule(q.ticks)), schedule)
  }

  /** A codec after a call, and how the promise the call returned settles. */
  datatype Flushed<T> = Flushed(codec: Queue<T>, outcome: Outcome)

  /**
   * `flush()`: on a closed codec it rejects with `InvalidStateError` and changes nothing. Otherwise
   * it resolves once the codec has finished every input, each passed to the `output` callback; if
   * the codec is closed first, the pending flush rejects with `AbortError`.
   */
  function Flush<T>(q: Queue<T>, schedule: nat -> Event): (r: Flushed<T>)
    requires Valid(q)
    ensures Valid(r.codec) && r.codec.pending == [] && r.codec.accepted == q.accepted
    ensures q.delivered <= r.codec.delivered
    ensures q.closed ==> r == Flushed(q, Fail(InvalidStateError))
    ensures !q.closed ==> (r.outcome.Pass? <==> !r.codec.closed)
    ensures !q.closed && r.codec.closed ==> r.outcome == Fail(AbortError)
    ensures r.outcome.Pass? ==> r.codec.delivered + r.codec.outputs == q.accepted
  {
    if q.closed then Flushed(q, Fail(InvalidStateError))
    else
      var f := FlushSteps(q, schedule);
      Flushed(f, if f.closed then Fail(AbortError) else Pass)
  }

  /** With nothing left in the codec, waiting only hands outputs on: together they stay the same. */
  lemma {:induction false} DrainKeepsOutputs<T>(q: Queue<T>, schedule: nat -> Event)
    requires Valid(q) && q.pending == []
    ensures var r := WaitBelow(q, 0, schedule);
      r.pending == [] && r.delivered + r.outputs == q.delivered + q.outputs
    decreases Measure(q)
  {
    if Size(q) > 0 {
      var n := Step(q, schedule(q.ticks));
      assert n.pending == [];
      if DeliveredOne(q, n) {
        assert q.outputs == [q.outputs[0]] + q.outputs[1..];
      }
      DrainKeepsOutputs(n, schedule);
    }
  }

  /**
   * `waitForFinish` of either wrapper: flush, then wait until nothing is queued. It succeeds exactly
   * when the codec was open and stayed open through the flush, and then every input it ever accepted
   * has been delivered, in order, even if the codec is closed during the final wait.
   */
  function Finish<T>(q: Queue<T>, schedule: nat -> Event): (r: Flushed<T>)
    requires Valid(q)
    ensures Valid(r.codec) && r.codec.accepted == q.accepted
    ensures r.outcome == Flush(q, schedule).outcome
    ensures r.outcome.Pass? ==> Size(r.codec) == 0 && r.codec.delivered == q.accepted
    ensures r.outcome.Fail? ==> r.codec == Flush(q, schedule).codec
  {
    var f := Flush(q, schedule);
    if f.outcome.Fail? then f
    else
      DrainKeepsOutputs(f.codec, schedule);
      var w := WaitBelow(f.codec, 0, schedule);
      assert w.delivered + w.outputs == w.delivered;
      Flushed(w, Pass)
  }
}
