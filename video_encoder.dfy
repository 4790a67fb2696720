/**
 * `createVideoEncoder` (packages/webcodecs/src/video-encoder.ts): a wrapper around the platform
 * `VideoEncoder` that numbers the frames it submits, asks for a keyframe every 40 frames, waits
 * while more than 10 frames are queued, and ignores frames once the encoder is closed.
 *
 * The platform encoder is the queue of the CodecQueue module; `outputQueueSize` is the length of
 * its `outputs`. A frame and the encoded chunk made from it are identified with each other.
 */
module VideoEncoder {

  import opened Wrappers
  import opened CodecQueue

  const AbortedError := "Not creating video encoder, already aborted"

  /** `encodeFrame` waits while more frames than this are queued. */
  const QueueLimit: nat := 10

  const KeyframeInterval: nat := 40

  /** A frame handed to `encoder.encode`, with the `keyFrame` option it was given. */
  datatype Encoded<F> = Encoded(frame: F, keyFrame: bool)

  datatype EncoderState<F> = EncoderState(codec: Queue<Encoded<F>>, framesProcessed: nat)

  /** `framesProcessed` counts the frames actually submitted. */
  ghost predicate WellFormed<F>(s: EncoderState<F>) {
    CodecQueue.Valid(s.codec) && s.framesProcessed == |s.codec.accepted|
  }

  function Created<F>(): (s: EncoderState<F>)
    ensures WellFormed(s) && s.framesProcessed == 0 && !s.codec.closed && Size(s.codec) == 0
  {
    EncoderState(Configured(), 0)
  }

  /** The submissions a run of frames makes when none is skipped: frame i is a keyframe iff i is a multiple of 40. */
  function Encodings<F>(frames: seq<F>): (r: seq<Encoded<F>>)
    ensures |r| == |frames|
    ensures forall i :: 0 <= i < |r| ==> r[i].frame == frames[i] && (r[i].keyFrame <==> i % KeyframeInterval == 0)
  {
    seq(|frames|, i requires 0 <= i < |frames| => Encoded(frames[i], i % KeyframeInterval == 0))
  }

  /**
   * `encodeFrame`: nothing happens on a closed encoder; otherwise the platform runs until at most
   * 10 frames are queued; if the encoder was closed meanwhile nothing is submitted, else the frame
   * is submitted as the next one, a keyframe when the number of frames before it is a multiple of 40.
   */
  function EncodeStep<F>(s: EncoderState<F>, frame: F, schedule: nat -> Event): (r: EncoderState<F>)
    requires WellFormed(s)
    ensures WellFormed(r) && s.codec.delivered <= r.codec.delivered
    ensures s.codec.closed ==> r == s
    ensures r.codec.accepted == s.codec.accepted + [Encoded(frame, |s.codec.accepted| % KeyframeInterval == 0)] ||
            (r.codec.accepted == s.codec.accepted && r.codec.closed)
    ensures |r.codec.accepted| > |s.codec.accepted| ==> !r.codec.closed && Size(r.codec) <= QueueLimit + 1
  {
    if s.codec.closed then s
    else
      var w := WaitBelow(s.codec, QueueLimit, schedule);
      if w.closed then s.(codec := w)
      else EncoderState(Submit(w, Encoded(frame, s.framesProcessed % KeyframeInterval == 0)), s.framesProcessed + 1)
  }

  /** Frames encoded one after another: `inputQueue` chains each `encodeFrame` after the previous one. */
  function EncodeAll<F>(s: EncoderState<F>, frames: seq<F>, schedule: nat -> Event): (r: EncoderState<F>)
    requires WellFormed(s)
    ensures WellFormed(r)
    decreases |frames|
  {
    if |frames| == 0 then s
    else EncodeStep(EncodeAll(s, frames[..|frames| - 1], schedule), frames[|frames| - 1], schedule)
  }

  /**
   * From a fresh encoder, the frames submitted are the first k frames, in call order, frame i a
   * keyframe exactly when i is a multiple of 40; k is all of them unless the encoder closed.
   */
  lemma {:induction false} KeyframeCadence<F>(frames: seq<F>, schedule: nat -> Event) returns (k: nat)
    ensures var r := EncodeAll(Created(), frames, schedule);
      k <= |frames| && r.codec.accepted == Encodings(frames[..k]) && (!r.codec.closed ==> k == |frames|)
    decreases |frames|
  {
    if |frames| == 0 {
      k := 0;
      assert frames[..0] == [];
    } else {
      var init, last := frames[..|frames| - 1], frames[|frames| - 1];
      assert init + [last] == frames;
      var before := EncodeAll(Created(), init, schedule);
      assert EncodeAll(Created(), frames, schedule) == EncodeStep(before, last, schedule);
      var k0 := KeyframeCadence(init, schedule);
      k := CadenceStep(before, init, k0, last, schedule);
    }
  }

  /** One more frame either extends the submitted prefix by that frame or leaves the encoder closed. */
  lemma CadenceStep<F>(s: EncoderState<F>, init: seq<F>, k0: nat, last: F, schedule: nat -> Event) returns (k: nat)
    requires WellFormed(s) && k0 <= |init| && s.codec.accepted == Encodings(init[..k0])
    requires !s.codec.closed ==> k0 == |init|
    ensures var r := EncodeStep(s, last, schedule);
      k <= |init + [last]| && r.codec.accepted == Encodings((init + [last])[..k]) &&
      (!r.codec.closed ==> k == |init| + 1)
  {
    var r := EncodeStep(s, last, schedule);
    var frames := init + [last];
    assert frames[..k0] == init[..k0];
    k := k0;
    if |r.codec.accepted| > |s.codec.accepted| {
      assert init[..k0] == init;
      EncodingsAppend(init, last);
      k := |frames|;
      assert frames[..k] == frames;
    }
  }

  lemma EncodingsAppend<F>(frames: seq<F>, last: F)
    ensures Encodings(frames + [last]) == Encodings(frames) + [Encoded(last, |frames| % KeyframeInterval == 0)]
  {
    var a := Encodings(frames + [last]);
    var b := Encodings(frames) + [Encoded(last, |frames| % KeyframeInterval == 0)];
    assert |a| == |b|;
    forall i | 0 <= i < |a| ensures a[i] == b[i] {
      if i < |frames| {
        assert (frames + [last])[i] == frames[i];
      }
    }
  }

  /** The wrapper's closure: the platform encoder, the frame counter and what the platform does when waited on. */
  class VideoEncoderWrapper<F> {
    var codec: Queue<Encoded<F>>
    var framesProcessed: nat
    const schedule: nat -> Event

    function State(): EncoderState<F>
      reads this
    {
      EncoderState(codec, framesProcessed)
    }

    ghost predicate Inv()
      reads this
    {
      WellFormed(State())
    }

    /** The body of `createVideoEncoder` past the abort check: a configured encoder, no frames yet. */
    constructor (schedule: nat -> Event)
      ensures Inv() && State() == Created() && this.schedule == schedule
    {
      codec := Configured();
      framesProcessed := 0;
      this.schedule := schedule;
    }

    method EncodeFrame(frame: F)
      requires Inv()
      modifies this
      ensures Inv() && State() == EncodeStep(old(State()), frame, schedule)
    {
      if codec.closed {
        return;
      }
      while Size(codec) > QueueLimit
        invariant CodecQueue.Valid(codec) && framesProcessed == old(framesProcessed)
        invariant WaitBelow(codec, QueueLimit, schedule) == WaitBelow(old(codec), QueueLimit, schedule)
        decreases Measure(codec)
      {
        codec := Step(codec, schedule(codec.ticks));
      }
      if codec.closed {
        return;
      }
      codec := Submit(codec, Encoded(frame, framesProcessed % KeyframeInterval == 0));
      framesProcessed := framesProcessed + 1;
    }

    /** `close`, also run by the abort listener: the platform encoder is closed only if it is not closed yet. */
    method Close()
      requires Inv()
      modifies this
      ensures Inv() && State() == old(State()).(codec := CodecQueue.Close(old(codec)))
    {
      if codec.closed {
        return;
      }
      codec := codec.(closed := true, pending := [], closeCalls := codec.closeCalls + 1);
    }

    method GetQueueSize() returns (n: nat)
      ensures n == Size(codec)
    {
      n := |codec.pending| + |codec.outputs|;
    }

    /** `flush`: the platform codec's own `flush()`, passed through. */
    method Flush() returns (r: Outcome)
      requires Inv()
      modifies this
      ensures Inv() && framesProcessed == old(framesProcessed)
      ensures Flushed(codec, r) == CodecQueue.Flush(old(codec), schedule)
    {
      if codec.closed {
        return Fail(InvalidStateError);
      }
      while codec.pending != []
        invariant CodecQueue.Valid(codec) && framesProcessed == old(framesProcessed)
        invariant !old(codec).closed
        invariant FlushSteps(codec, schedule) == FlushSteps(old(codec), schedule)
        decreases Measure(codec)
      {
        codec := Step(codec, schedule(codec.ticks));
      }
      r := if codec.closed then Fail(AbortError) else Pass;
    }

    /**
     * `waitForFinish`: flushes the codec, then waits until nothing is queued in it or waiting for
     * `onChunk`. On a codec closed before or during the flush it rejects with the flush's error.
     */
    method WaitForFinish() returns (r: Outcome)
      requires Inv()
      modifies this
      ensures Inv() && framesProcessed == old(framesProcessed)
      ensures Flushed(codec, r) == Finish(old(codec), schedule)
      ensures r.Pass? ==> Size(codec) == 0 && codec.delivered == old(codec).accepted
      ensures old(codec).closed ==> r == Fail(InvalidStateError) && codec == old(codec)
    {
      r := Flush();
      if r.Fail? {
        return;
      }
      ghost var flushed := codec;
      while Size(codec) > 0
        invariant CodecQueue.Valid(codec) && framesProcessed == old(framesProcessed)
        invariant WaitBelow(codec, 0, schedule) == WaitBelow(flushed, 0, schedule)
        decreases Measure(codec)
      {
        codec := Step(codec, schedule(codec.ticks));
      }
    }
  }

  /** `createVideoEncoder`: an already aborted signal throws; otherwise a fresh, configured wrapper. */
  method CreateVideoEncoder<F>(aborted: bool, schedule: nat -> Event) returns (r: Result<VideoEncoderWrapper<F>>)
    ensures aborted <==> r.Err?
    ensures aborted ==> r.error == AbortedError
    ensures r.Ok? ==> fresh(r.value) && r.value.Inv() && r.value.State() == Created() && r.value.schedule == schedule
  {
    if aborted {
      return Err(AbortedError);
    }
    var e := new VideoEncoderWrapper(schedule);
    r := Ok(e);
  }
}
