/**
 * `createAudioDecoder` (packages/webcodecs/src/audio-decoder.ts): a wrapper around the platform
 * `AudioDecoder` that waits while more than 10 samples are queued and ignores samples once the
 * decoder is closed. Unlike the video encoder it checks `closed` only before waiting: a decoder
 * closed by the abort signal during the wait is handed the sample anyway, and WebCodecs'
 * `decode` throws an `InvalidStateError` on a closed decoder. That rejects the returned promise,
 * and because `queue` chains every later call with `.then` only, every later call rejects too.
 */
module AudioDecoder {

  import opened Wrappers
  import opened CodecQueue

  const AbortedError := "Not creating audio decoder, already aborted"

  /** `processSample` waits while more samples than this are queued. */
  const QueueLimit: nat := 10

  /** The platform decoder, and the error the `queue` chain rejected with, if it did. */
  datatype DecoderState<S> = DecoderState(codec: Queue<S>, failed: Option<string>)

  ghost predicate WellFormed<S>(s: DecoderState<S>) {
    CodecQueue.Valid(s.codec)
  }

  function Created<S>(): (s: DecoderState<S>)
    ensures WellFormed(s) && !s.codec.closed && Size(s.codec) == 0 && s.failed.None?
  {
    DecoderState(Configured(), None)
  }

  /** What the promise returned by `processSample` settles to. */
  function Settled<S>(s: DecoderState<S>): Outcome {
    if s.failed.Some? then Fail(s.failed.value) else Pass
  }

  /**
   * `processSample` behind the `queue` chain: after a rejection nothing runs; on a closed decoder
   * nothing happens; otherwise the platform runs until at most 10 samples are queued, and the
   * sample is decoded, which fails if the decoder was closed meanwhile.
   */
  function ProcessStep<S>(s: DecoderState<S>, sample: S, schedule: nat -> Event): (r: DecoderState<S>)
    requires WellFormed(s)
    ensures WellFormed(r) && s.codec.delivered <= r.codec.delivered
    ensures s.failed.Some? || s.codec.closed ==> r == s
    ensures s.failed.None? && !s.codec.closed ==>
      (r.failed.None? <==> r.codec.accepted == s.codec.accepted + [sample]) &&
      (r.failed.None? ==> !r.codec.closed && Size(r.codec) <= QueueLimit + 1) &&
      (r.failed.Some? ==> r.failed == Some(InvalidStateError) && r.codec.closed && r.codec.accepted == s.codec.accepted)
  {
    if s.failed.Some? || s.codec.closed then s
    else
      var w := WaitBelow(s.codec, QueueLimit, schedule);
      if w.closed then DecoderState(w, Some(InvalidStateError))
      else DecoderState(Submit(w, sample), None)
  }

  /** Samples processed one after another through the `queue` chain. */
  function ProcessAll<S>(s: DecoderState<S>, samples: seq<S>, schedule: nat -> Event): (r: DecoderState<S>)
    requires WellFormed(s)
    ensures WellFormed(r)
    decreases |samples|
  {
    if |samples| == 0 then s
    else ProcessStep(ProcessAll(s, samples[..|samples| - 1], schedule), samples[|samples| - 1], schedule)
  }

  /** Once the chain has rejected, no later sample reaches the decoder, and each call rejects the same way. */
  lemma {:induction false} PoisonedChain<S>(s: DecoderState<S>, samples: seq<S>, schedule: nat -> Event)
    requires WellFormed(s) && s.failed.Some?
    ensures ProcessAll(s, samples, schedule) == s
    ensures Settled(ProcessAll(s, samples, schedule)) == Fail(s.failed.value)
    decreases |samples|
  {
    if |samples| > 0 {
      PoisonedChain(s, samples[..|samples| - 1], schedule);
    }
  }

  /**
   * From a fresh decoder, the samples decoded are the first k samples, in call order; all
   * of them unless the decoder closed, and a rejection only ever follows a close.
   */
  lemma {:induction false} SamplesInCallOrder<S>(samples: seq<S>, schedule: nat -> Event) returns (k: nat)
    ensures var r := ProcessAll(Created(), samples, schedule);
      k <= |samples| && r.codec.accepted == samples[..k] &&
      (!r.codec.closed ==> k == |samples| && r.failed.None?) &&
      (r.failed.Some? ==> r.failed == Some(InvalidStateError))
    decreases |samples|
  {
    if |samples| == 0 {
      k := 0;
      assert samples[..0] == [];
    } else {
      var init := samples[..|samples| - 1];
      var last := samples[|samples| - 1];
      var k0 := SamplesInCallOrder(init, schedule);
      var before := ProcessAll(Created(), init, schedule);
      k := OrderStep(before, init, k0, last, schedule);
      assert init + [last] == samples;
      assert ProcessAll(Created(), samples, schedule) == ProcessStep(before, last, schedule);
    }
  }

  /** One more sample either extends the decoded prefix by that sample or leaves the decoder closed. */
  lemma OrderStep<S>(s: DecoderState<S>, init: seq<S>, k0: nat, last: S, schedule: nat -> Event) returns (k: nat)
    requires WellFormed(s) && k0 <= |init| && s.codec.accepted == init[..k0]
    requires !s.codec.closed ==> k0 == |init| && s.failed.None?
    requires s.failed.Some? ==> s.failed == Some(InvalidStateError)
    ensures var r := ProcessStep(s, last, schedule);
      k <= |init + [last]| && r.codec.accepted == (init + [last])[..k] &&
      (!r.codec.closed ==> k == |init| + 1 && r.failed.None?) &&
      (r.failed.Some? ==> r.failed == Some(InvalidStateError))
  {
    var r := ProcessStep(s, last, schedule);
    var samples := init + [last];
    assert samples[..k0] == init[..k0];
    k := k0;
    if |r.codec.accepted| > |s.codec.accepted| {
      assert init[..k0] == init;
      k := |samples|;
      assert samples[..k] == samples;
    }
  }

  /** The wrapper's closure: the platform decoder, the `queue` chain and what the platform does when waited on. */
  class AudioDecoderWrapper<S> {
    var codec: Queue<S>
    var failed: Option<string>
    const schedule: nat -> Event

    function State(): DecoderState<S>
      reads this
    {
      DecoderState(codec, failed)
    }

    ghost predicate Inv()
      reads this
    {
      WellFormed(State())
    }

    /** The body of `createAudioDecoder` past the abort check: a configured decoder, nothing queued. */
    constructor (schedule: nat -> Event)
      ensures Inv() && State() == Created() && this.schedule == schedule
    {
      codec := Configured();
      failed := None;
      this.schedule := schedule;
    }

    method ProcessSample(sample: S) returns (r: Outcome)
      requires Inv()
      modifies this
      ensures Inv() && State() == ProcessStep(old(State()), sample, schedule) && r == Settled(State())
    {
      if failed.Some? {
        return Fail(failed.value);
      }
      if codec.closed {
        return Pass;
      }
      while Size(codec) > QueueLimit
        invariant CodecQueue.Valid(codec) && failed == old(failed)
        invariant WaitBelow(codec, QueueLimit, schedule) == WaitBelow(old(codec), QueueLimit, schedule)
        decreases Measure(codec)
      {
        codec := Step(codec, schedule(codec.ticks));
      }
      if codec.closed {
        failed := Some(InvalidStateError);
        return Fail(InvalidStateError);
      }
      codec := Submit(codec, sample);
      r := Pass;
    }

    /** `close`, also run by the abort listener: the platform decoder is closed only if it is not closed yet. */
    method Close()
      requires Inv()
      modifies this
      ensures Inv() && State() == old(State()).(codec := CodecQueue.Close(old(codec)))
    {
      if codec.closed {
        return;
      }
      codec := codec.(closed := true, pending := [], closeCalls := codec.closeCalls + 1);
    }

    method GetQueueSize() returns (n: nat)
      ensures n == Size(codec)
    {
      n := |codec.pending| + |codec.outputs|;
    }

    /** `flush`: the platform codec's own `flush()`, passed through. */
    method Flush() returns (r: Outcome)
      requires Inv()
      modifies this
      ensures Inv() && failed == old(failed)
      ensures Flushed(codec, r) == CodecQueue.Flush(old(codec), schedule)
    {
      if codec.closed {
        return Fail(InvalidStateError);
      }
      while codec.pending != []
        invariant CodecQueue.Valid(codec) && failed == old(failed)
        invariant !old(codec).closed
        invariant FlushSteps(codec, schedule) == FlushSteps(old(codec), schedule)
        decreases Measure(codec)
      {
        codec := Step(codec, schedule(codec.ticks));
      }
      r := if codec.closed then Fail(AbortError) else Pass;
    }

    /**
     * `waitForFinish`: flushes the codec, then waits until nothing is queued in it or waiting for
     * `onFrame`. On a codec closed before or during the flush it rejects with the flush's error.
     */
    method WaitForFinish() returns (r: Outcome)
      requires Inv()
      modifies this
      ensures Inv() && failed == old(failed)
      ensures Flushed(codec, r) == Finish(old(codec), schedule)
      ensures r.Pass? ==> Size(codec) == 0 && codec.delivered == old(codec).accepted
      ensures old(codec).closed ==> r == Fail(InvalidStateError) && codec == old(codec)
    {
      r := Flush();
      if r.Fail? {
        return;
      }
      ghost var flushed := codec;
      while Size(codec) > 0
        invariant CodecQueue.Valid(codec) && failed == old(failed)
        invariant WaitBelow(codec, 0, schedule) == WaitBelow(flushed, 0, schedule)
        decreases Measure(codec)
      {
        codec := Step(codec, schedule(codec.ticks));
      }
    }
  }

  /** `createAudioDecoder`: an already aborted signal throws; otherwise a fresh, configured wrapper. */
  method CreateAudioDecoder<S>(aborted: bool, schedule: nat -> Event) returns (r: Result<AudioDecoderWrapper<S>>)
    ensures aborted <==> r.Err?
    ensures aborted ==> r.error == AbortedError
    ensures r.Ok? ==> fresh(r.value) && r.value.Inv() && r.value.State() == Created() && r.value.schedule == schedule
  {
    if aborted {
      return Err(AbortedError);
    }
    var d := new AudioDecoderWrapper(schedule);
    r := Ok(d);
  }
}
