/**
 * The bookkeeping of `renderMedia` (packages/renderer/src/render-media.ts): where frames go, the
 * progress state its callbacks mutate, the promise chain from pre-encoding to stitching, the
 * failure path that cancels everything and the cleanup that runs on every outcome. The in-order
 * piping of frames is in module OrderedDelivery.
 */
module RenderMedia {

  import opened Wrappers
  import opened Codecs
  import PrespawnFfmpeg
  import FrameNaming

  const CancelledError := "renderMedia() got cancelled"

  /**
   * Where the frames of a render go: into a pre-encoding ffmpeg writing `preEncodedFileLocation`,
   * or as image files into the temporary `outputDir`.
   */
  datatype Places = Places(preEncodedFileLocation: Option<string>, outputDir: Option<string>)

  /**
   * Parallel encoding (the codec allows it, `canUseParallelEncoding`, which is not part of this
   * model) pipes frames into `<tmpdir>/pre-encode.<chunk extension>`; otherwise frames are written
   * to a fresh temporary directory. Exactly one of the two is chosen.
   */
  function ChoosePlaces(parallelEncoding: bool, tmpdir: string, chunkExtension: string, freshDir: string): (p: Places)
    ensures p.preEncodedFileLocation.Some? == parallelEncoding
    ensures p.preEncodedFileLocation.Some? != p.outputDir.Some?
    ensures parallelEncoding ==> p.preEncodedFileLocation.value == tmpdir + "/pre-encode." + chunkExtension
    ensures !parallelEncoding ==> p.outputDir.value == freshDir
  {
    if parallelEncoding then Places(Some(tmpdir + "/pre-encode." + chunkExtension), None)
    else Places(None, Some(freshDir))
  }

  /** `imageFormat ?? 'jpeg'`. */
  function ActualImageFormat(imageFormat: Option<ImageFormat>): (f: ImageFormat)
    ensures imageFormat.Some? ==> f == imageFormat.value
    ensures imageFormat.None? ==> f == Jpeg
  {
    OptionOr(imageFormat, Jpeg)
  }

  /** `StitchingState`. */
  datatype Stage = Encoding | Muxing

  /** What `callUpdate` hands to `onProgress`; the two durations are reduced to whether they are set. */
  datatype Progress = Progress(
    encodedFrames: int, renderedFrames: int,
    renderedDone: bool, encodedDone: bool, stitchStage: Stage)

  /**
   * The `let` variables of one `renderMedia` call, the three cancel signals, whether a pre-encoding
   * ffmpeg was spawned and whether it was killed, and every progress report made so far.
   */
  datatype Job = Job(
    stitchStage: Stage, encodedFrames: int, renderedFrames: int,
    renderedDone: bool, encodedDone: bool,
    cancelled: bool,
    renderFramesCancelled: bool, stitcherCancelled: bool, prestitcherCancelled: bool,
    hasEncoder: bool, encoderKilled: bool,
    updates: seq<Progress>)

  function Snapshot(j: Job): Progress {
    Progress(j.encodedFrames, j.renderedFrames, j.renderedDone, j.encodedDone, j.stitchStage)
  }

  /** The state right after the `let` declarations: nothing rendered, encoding, nothing cancelled. */
  function Initial(): (j: Job)
    ensures j.stitchStage == Encoding && !j.cancelled && j.updates == []
    ensures j.encodedFrames == 0 && j.renderedFrames == 0
  {
    Job(Encoding, 0, 0, false, false, false, false, false, false, false, false, [])
  }

  /** `callUpdate()`: report the current state. */
  function CallUpdate(j: Job): Job {
    j.(updates := j.updates + [Snapshot(j)])
  }

  /** The callbacks that `renderMedia` hands to the pre-encoder, to `renderFrames` and to the stitcher. */
  datatype Event =
    | PreEncoderProgress(frame: int) // `onProgress` of `prespawnFfmpeg`
    | RenderStarted                  // `onStart` of `renderFrames`
    | FrameUpdate(frame: int)        // `onFrameUpdate` of `renderFrames`
    | FramesDone                     // `renderedDoneIn` is set once all frames are rendered
    | StitcherProgress(frame: int)   // `onProgress` of `stitchFramesToVideo`
    | UserCancel                     // the caller's `cancelSignal` fires

  /**
   * What a reporting callback assigns before it calls `callUpdate`: each one sets its own variables
   * and leaves every other one as it was.
   */
  function Assign(j: Job, e: Event): (r: Job)
    requires !e.UserCancel?
    ensures e.PreEncoderProgress? ==> r == j.(encodedFrames := e.frame)
    ensures e.RenderStarted? ==> r == j.(renderedFrames := 0)
    ensures e.FrameUpdate? ==> r == j.(renderedFrames := e.frame)
    ensures e.FramesDone? ==> r == j.(renderedDone := true)
    ensures e.StitcherProgress? ==> r == j.(stitchStage := Muxing, encodedFrames := e.frame)
    ensures r.updates == j.updates && r.cancelled == j.cancelled && r.hasEncoder == j.hasEncoder
    ensures r.stitchStage == Muxing <==> j.stitchStage == Muxing || e.StitcherProgress?
  {
    match e
    case PreEncoderProgress(frame) => j.(encodedFrames := frame)
    case RenderStarted => j.(renderedFrames := 0)
    case FrameUpdate(frame) => j.(renderedFrames := frame)
    case FramesDone => j.(renderedDone := true)
    case StitcherProgress(frame) => j.(stitchStage := Muxing, encodedFrames := frame)
  }

  /** One callback: it changes its own variables and reports the new state, except the cancel signal. */
  function Step(j: Job, e: Event): (r: Job)
    ensures e.UserCancel? ==> r == j.(renderFramesCancelled := true)
    ensures !e.UserCancel? ==> r.updates == j.updates + [Snapshot(r)]
    ensures r.stitchStage == Muxing <==> j.stitchStage == Muxing || e.StitcherProgress?
    ensures r.cancelled == j.cancelled && r.hasEncoder == j.hasEncoder
  {
    if e.UserCancel? then j.(renderFramesCancelled := true) else CallUpdate(Assign(j, e))
  }

  /** The callbacks in the order they fire. */
  function Replay(j: Job, events: seq<Event>): Job
    decreases |events|
  {
    if |events| == 0 then j else Step(Replay(j, events[..|events| - 1]), events[|events| - 1])
  }

  /**
   * `stitchStage` starts as 'encoding' and is only ever assigned 'muxing': after any sequence of
   * callbacks it is 'muxing' exactly when it already was or the stitcher reported progress.
   */
  lemma {:induction false} StageOnlyMovesToMuxing(j: Job, events: seq<Event>)
    ensures Replay(j, events).stitchStage == Muxing <==>
      j.stitchStage == Muxing || exists i :: 0 <= i < |events| && events[i].StitcherProgress?
    decreases |events|
  {
    if |events| > 0 {
      var prefix := events[..|events| - 1];
      StageOnlyMovesToMuxing(j, prefix);
      if exists i :: 0 <= i < |prefix| && prefix[i].StitcherProgress? {
        var i :| 0 <= i < |prefix| && prefix[i].StitcherProgress?;
        assert events[i] == prefix[i];
      }
      if exists i :: 0 <= i < |events| && events[i].StitcherProgress? {
        var i :| 0 <= i < |events| && events[i].StitcherProgress?;
        if i < |prefix| { assert prefix[i] == events[i]; }
      }
    }
  }

  /** How many of the callbacks report: all except the cancel signal. */
  function ReportingCount(events: seq<Event>): nat
    decreases |events|
  {
    if |events| == 0 then 0
    else ReportingCount(events[..|events| - 1]) + (if events[|events| - 1].UserCancel? then 0 else 1)
  }

  /** Callbacks never reset the `cancelled` flag, and every callback except the cancel signal reports once. */
  lemma {:induction false} ReplayReports(j: Job, events: seq<Event>)
    ensures Replay(j, events).cancelled == j.cancelled
    ensures |Replay(j, events).updates| == |j.updates| + ReportingCount(events)
    ensures ReportingCount(events) <= |events|
    decreases |events|
  {
    if |events| > 0 {
      ReplayReports(j, events[..|events| - 1]);
    }
  }

  /**
   * `waitForPrestitcherIfNecessary`: without a pre-encoder there is nothing to wait for; a failing
   * pre-encoder is reported as an error whose message is its captured log.
   */
  function WaitForPrestitcher(hasEncoder: bool, encoderExit: Outcome, logs: string): (o: Outcome)
    ensures !hasEncoder ==> o == Pass
    ensures hasEncoder ==> (o.Fail? <==> encoderExit.Fail?)
    ensures o.Fail? ==> o.error == logs
  {
    if hasEncoder && encoderExit.Fail? then Fail(logs) else Pass
  }

  /**
   * The last `.then`: `encodedFrames` becomes the duration of the frame range
   * (`getDurationFromFrameRange`, a parameter here) and is reported.
   */
  function Succeed(j: Job, duration: nat): (r: Job)
    ensures r.encodedFrames == duration && r.encodedDone
    ensures r.updates == j.updates + [Snapshot(r)]
    ensures r.stitchStage == j.stitchStage && r.renderedFrames == j.renderedFrames && r.cancelled == j.cancelled
  {
    CallUpdate(j.(encodedFrames := duration, encodedDone := true))
  }

  /**
   * The `.catch`: `cancelled` is set, all three cancel signals fire, and a pre-encoder that has not
   * exited yet is killed; nothing is reported.
   */
  function Failed(j: Job, encoderExited: bool): (r: Job)
    ensures r.cancelled && r.renderFramesCancelled && r.stitcherCancelled && r.prestitcherCancelled
    ensures r.encoderKilled <==> j.encoderKilled || (j.hasEncoder && !encoderExited)
    ensures r.updates == j.updates && r.stitchStage == j.stitchStage
    ensures r.encodedFrames == j.encodedFrames && r.renderedFrames == j.renderedFrames
  {
    var c := j.(cancelled := true, renderFramesCancelled := true, stitcherCancelled := true,
                prestitcherCancelled := true);
    if j.hasEncoder && !encoderExited then c.(encoderKilled := true) else c
  }

  /** The `.finally`: the pre-encoded file is removed from disk if it is there. */
  function Cleanup(places: Places, files: set<string>): (r: set<string>)
    ensures places.preEncodedFileLocation.Some? ==> places.preEncodedFileLocation.value !in r
    ensures places.preEncodedFileLocation.None? ==> r == files
    ensures r <= files && forall f :: f in files && Some(f) != places.preEncodedFileLocation ==> f in r
  {
    match places.preEncodedFileLocation
    case None => files
    case Some(location) => if location in files then files - {location} else files
  }

  /** How each stage of the happy path settles; `stitch` resolves with the output (null when written to disk). */
  datatype Stages = Stages(
    prespawn: Outcome, renderFrames: Outcome, encoderExit: Outcome, stitch: Result<Option<seq<byte>>>)

  /**
   * The happy path: spawn the pre-encoder, render the frames, wait for the pre-encoder, stitch. Each
   * stage runs only after the previous one resolved; the first rejection is what the chain rejects with.
   */
  function HappyPath(hasEncoder: bool, logs: string, s: Stages): (r: Result<Option<seq<byte>>>)
    ensures s.prespawn.Fail? ==> r == Err(s.prespawn.error)
    ensures s.prespawn.Pass? && s.renderFrames.Fail? ==> r == Err(s.renderFrames.error)
    ensures s.prespawn.Pass? && s.renderFrames.Pass? && hasEncoder && s.encoderExit.Fail? ==> r == Err(logs)
    ensures r.Ok? <==> s.prespawn.Pass? && s.renderFrames.Pass? &&
                       WaitForPrestitcher(hasEncoder, s.encoderExit, logs).Pass? && s.stitch.Ok?
    ensures r.Ok? ==> r == s.stitch
  {
    if s.prespawn.Fail? then Err(s.prespawn.error)
    else if s.renderFrames.Fail? then Err(s.renderFrames.error)
    else
      var waited := WaitForPrestitcher(hasEncoder, s.encoderExit, logs);
      if waited.Fail? then Err(waited.error) else s.stitch
  }

  /**
   * The validators `renderMedia` calls before any stage starts, each given by the outcome of its
   * call (the validators are not part of this model): `validateQuality`, the CRF and codec check
   * (made only when a CRF is given), `validateOutputFilename` (made only when an output location is
   * given), `validateScale`, once the temporary frame directory was made
   * `validateEvenDimensionsWithCodec`, and last the resolution of the frame range against the
   * composition's `duration` (`getRealFrameRange`, which fails with `rangeError`).
   */
  datatype Upfront = Upfront(
    quality: Outcome, crfAndCodec: Option<Outcome>, outputFilename: Option<Outcome>,
    scale: Outcome, evenDimensions: Outcome,
    duration: nat, frameRange: Option<FrameNaming.FrameRange>, rangeError: string)

  /** Whether `getRealFrameRange` throws, and with which error. */
  function RangeCheck(u: Upfront): (o: Outcome)
    ensures o.Pass? <==> FrameNaming.ValidRange(u.duration, u.frameRange)
    ensures o.Fail? ==> o.error == u.rangeError
  {
    match FrameNaming.RealFrameRange(u.duration, u.frameRange, u.rangeError)
    case Ok(_) => Pass
    case Err(e) => Fail(e)
  }

  /** The upfront checks that are made, in the order they run. */
  function UpfrontChecks(u: Upfront): seq<Outcome> {
    [u.quality] +
    (if u.crfAndCodec.Some? then [u.crfAndCodec.value] else []) +
    (if u.outputFilename.Some? then [u.outputFilename.value] else []) +
    [u.scale, u.evenDimensions, RangeCheck(u)]
  }

  lemma {:induction false} FirstFailureAppend(a: seq<Outcome>, b: seq<Outcome>)
    ensures PrespawnFfmpeg.FirstFailure(a + b) ==
      if PrespawnFfmpeg.FirstFailure(a).Some? then PrespawnFfmpeg.FirstFailure(a) else PrespawnFfmpeg.FirstFailure(b)
    decreases |a|
  {
    if |a| > 0 {
      assert (a + b)[1..] == a[1..] + b;
      FirstFailureAppend(a[1..], b);
    } else {
      assert a + b == b;
    }
  }

  /**
   * The upfront checks decide in the source's order: the quality, then the CRF if one is given,
   * then the output file name if one is given, then the scale, then the even dimensions, then the
   * frame range.
   */
  lemma UpfrontOrder(u: Upfront)
    ensures PrespawnFfmpeg.FirstFailure(UpfrontChecks(u)) ==
      if u.quality.Fail? then Some(u.quality.error)
      else if u.crfAndCodec.Some? && u.crfAndCodec.value.Fail? then Some(u.crfAndCodec.value.error)
      else if u.outputFilename.Some? && u.outputFilename.value.Fail? then Some(u.outputFilename.value.error)
      else if u.scale.Fail? then Some(u.scale.error)
      else if u.evenDimensions.Fail? then Some(u.evenDimensions.error)
      else if !FrameNaming.ValidRange(u.duration, u.frameRange) then Some(u.rangeError)
      else None
  {
    var crf := if u.crfAndCodec.Some? then [u.crfAndCodec.value] else [];
    var out := if u.outputFilename.Some? then [u.outputFilename.value] else [];
    FirstFailureAppend([u.quality] + crf + out, [u.scale, u.evenDimensions, RangeCheck(u)]);
    FirstFailureAppend([u.scale], [u.evenDimensions, RangeCheck(u)]);
    assert [u.scale, u.evenDimensions, RangeCheck(u)] == [u.scale] + [u.evenDimensions, RangeCheck(u)];
    FirstFailureAppend([u.quality] + crf, out);
    FirstFailureAppend([u.quality], crf);
    PrespawnFfmpeg.FirstFailureOfTwo(u.evenDimensions, RangeCheck(u));
    assert [u.scale][1..] == [];
    assert [u.quality][1..] == [];
    if u.crfAndCodec.Some? { assert crf[1..] == []; }
    if u.outputFilename.Some? { assert out[1..] == []; }
  }

  /** The pre-encoder exists exactly when parallel encoding chose a pre-encode file and `prespawnFfmpeg` resolved. */
  predicate EncoderMatches(j: Job, places: Places, s: Stages) {
    j.hasEncoder <==> places.preEncodedFileLocation.Some? && s.prespawn.Pass?
  }

  /**
   * One `renderMedia` call. A failing upfront check throws before any stage runs, so nothing is
   * reported, cancelled or cleaned up. Otherwise the call runs from its first stage to its cleanup:
   * the returned result is the happy path's (the same error rethrown on failure) unless the caller's
   * cancel signal won the race.
   */
  function Settle(u: Upfront, j: Job, places: Places, files: set<string>, s: Stages, logs: string, duration: nat,
                  encoderExited: bool, cancelledByCaller: bool): (r: (Job, set<string>, Result<Option<seq<byte>>>))
    requires EncoderMatches(j, places, s)
    ensures var pre := PrespawnFfmpeg.FirstFailure(UpfrontChecks(u));
      pre.Some? ==> r == (j, files, Err(pre.value))
    ensures PrespawnFfmpeg.FirstFailure(UpfrontChecks(u)).None? ==>
      var happy := HappyPath(j.hasEncoder, logs, s);
      (cancelledByCaller ==> r.2 == Err(CancelledError)) &&
      (!cancelledByCaller ==> r.2 == happy) &&
      (happy.Ok? ==> r.0 == Succeed(j, duration)) &&
      (happy.Err? ==> r.0 == Failed(j, encoderExited)) &&
      r.1 == Cleanup(places, files)
  {
    var pre := PrespawnFfmpeg.FirstFailure(UpfrontChecks(u));
    if pre.Some? then (j, files, Err(pre.value))
    else
      var happy := HappyPath(j.hasEncoder, logs, s);
      var after := if happy.Ok? then Succeed(j, duration) else Failed(j, encoderExited);
      (after, Cleanup(places, files), if cancelledByCaller then Err(CancelledError) else happy)
  }

  /**
   * Once the upfront checks pass, whatever the stages do, the pre-encoded file is gone afterwards,
   * a failure cancels everything, and a success reports the duration last.
   */
  lemma SettleCleansUp(u: Upfront, j: Job, places: Places, files: set<string>, s: Stages, logs: string, duration: nat,
                       encoderExited: bool, cancelledByCaller: bool)
    requires EncoderMatches(j, places, s)
    requires places.preEncodedFileLocation.Some?
    ensures var r := Settle(u, j, places, files, s, logs, duration, encoderExited, cancelledByCaller);
      PrespawnFfmpeg.FirstFailure(UpfrontChecks(u)).None? ==>
      places.preEncodedFileLocation.value !in r.1 &&
      (!cancelledByCaller && r.2.Err? ==>
         r.0.cancelled && r.0.renderFramesCancelled && r.0.stitcherCancelled && r.0.prestitcherCancelled) &&
      (r.2.Ok? ==> r.0.encodedFrames == duration && r.0.updates[|r.0.updates| - 1].encodedFrames == duration)
  {
  }

  /**
   * An odd size that the codec rejects makes the call throw that check's error, even when the
   * earlier checks pass and whatever the stages would do; nothing is reported or cancelled.
   */
  lemma OddDimensionsThrowFirst(u: Upfront, j: Job, places: Places, files: set<string>, s: Stages, logs: string,
                                duration: nat, encoderExited: bool, cancelledByCaller: bool)
    requires EncoderMatches(j, places, s)
    requires u.quality.Pass? && u.scale.Pass? && u.evenDimensions.Fail?
    requires u.crfAndCodec.None? || u.crfAndCodec.value.Pass?
    requires u.outputFilename.None? || u.outputFilename.value.Pass?
    ensures Settle(u, j, places, files, s, logs, duration, encoderExited, cancelledByCaller) ==
      (j, files, Err(u.evenDimensions.error))
  {
    UpfrontOrder(u);
  }

  /**
   * A frame range outside the composition makes the call throw `getRealFrameRange`'s error once the
   * other checks pass, before any stage runs; nothing is reported, cancelled or cleaned up.
   */
  lemma BadFrameRangeThrows(u: Upfront, j: Job, places: Places, files: set<string>, s: Stages, logs: string,
                            duration: nat, encoderExited: bool, cancelledByCaller: bool)
    requires EncoderMatches(j, places, s)
    requires u.quality.Pass? && u.scale.Pass? && u.evenDimensions.Pass?
    requires u.crfAndCodec.None? || u.crfAndCodec.value.Pass?
    requires u.outputFilename.None? || u.outputFilename.value.Pass?
    requires !FrameNaming.ValidRange(u.duration, u.frameRange)
    ensures Settle(u, j, places, files, s, logs, duration, encoderExited, cancelledByCaller) ==
      (j, files, Err(u.rangeError))
  {
    UpfrontOrder(u);
  }

  /** The `let` variables shared by the callbacks of one `renderMedia` call. */
  class RenderState {
    var stitchStage: Stage
    var encodedFrames: int
    var renderedFrames: int
    var renderedDone: bool
    var encodedDone: bool
    var cancelled: bool
    var renderFramesCancelled: bool
    var stitcherCancelled: bool
    var prestitcherCancelled: bool
    var hasEncoder: bool
    var encoderKilled: bool
    var updates: seq<Progress>

    function State(): Job
      reads this
    {
      Job(stitchStage, encodedFrames, renderedFrames, renderedDone, encodedDone, cancelled,
          renderFramesCancelled, stitcherCancelled, prestitcherCancelled, hasEncoder, encoderKilled, updates)
    }

    constructor ()
      ensures State() == Initial()
    {
      stitchStage := Encoding;
      encodedFrames := 0;
      renderedFrames := 0;
      renderedDone := false;
      encodedDone := false;
      cancelled := false;
      renderFramesCancelled := false;
      stitcherCancelled := false;
      prestitcherCancelled := false;
      hasEncoder := false;
      encoderKilled := false;
      updates := [];
    }

    /** `callUpdate()`. */
    method Report()
      modifies this
      ensures State() == CallUpdate(old(State()))
    {
      updates := updates + [Progress(encodedFrames, renderedFrames, renderedDone, encodedDone, stitchStage)];
    }

    /** `stitcherFfmpeg = preStitcher.task` once the pre-encoder is spawned. */
    method EncoderSpawned()
      modifies this
      ensures State() == old(State()).(hasEncoder := true)
    {
      hasEncoder := true;
    }

    /** One of the callbacks fires. */
    method OnEvent(e: Event)
      modifies this
      ensures State() == Step(old(State()), e)
    {
      if e.UserCancel? {
        renderFramesCancelled := true;
      } else {
        AssignFor(e);
        Report();
      }
    }

    method AssignFor(e: Event)
      requires !e.UserCancel?
      modifies this
      ensures State() == Assign(old(State()), e)
    {
      match e {
        case PreEncoderProgress(frame) => encodedFrames := frame;
        case RenderStarted => renderedFrames := 0;
        case FrameUpdate(frame) => renderedFrames := frame;
        case FramesDone => renderedDone := true;
        case StitcherProgress(frame) =>
          stitchStage := Muxing;
          encodedFrames := frame;
      }
    }

    /** The success continuation. */
    method OnSuccess(duration: nat)
      modifies this
      ensures State() == Succeed(old(State()), duration)
    {
      encodedFrames := duration;
      encodedDone := true;
      Report();
    }

    /** The `.catch`: cancel everything, kill a running pre-encoder, rethrow the same error. */
    method OnFailure(err: string, encoderExited: bool) returns (rethrown: string)
      modifies this
      ensures State() == Failed(old(State()), encoderExited)
      ensures rethrown == err
    {
      cancelled := true;
      renderFramesCancelled := true;
      stitcherCancelled := true;
      prestitcherCancelled := true;
      if hasEncoder && !encoderExited {
        encoderKilled := true;
      }
      rethrown := err;
    }
  }
}
