/**
 * Frame extraction for `<OffthreadVideo>` (packages/renderer/src/extract-frame-from-video.ts): the
 * codec and resize flags, the three ffmpeg command lines, the routing between the seeking path, the
 * slow no-seek path and the last-frame lookup, the retry with a growing offset, and the caches.
 *
 * ffmpeg, ffprobe and the helpers the file imports are parameters (`Tools`): running a command
 * gives its stderr text and its stdout bytes. Times are exact `real`s; how JavaScript prints a
 * number is the parameter `show`.
 */
module ExtractFrame {

  import opened Wrappers
  import opened Text
  import opened Codecs
  import opened FfmpegArgs

  const CorruptBefore := "Could not get last frame of "
  const CorruptMiddle := ". Tried to seek to the end using the command \"ffmpeg "
  const CorruptAfter := "\" but got no frame. Most likely this video is corrupted."
  const NoDurationBefore := "Could not determine the duration of "
  const NoDurationAfter := " using FFMPEG. The file is not supported."

  type Frame = seq<byte>

  /** `SpecialVCodecForTransparency`. */
  datatype SpecialVCodec = NoSpecialVCodec | SpecialVp8 | SpecialVp9

  /** What one ffmpeg run leaves: its stderr as text and its stdout bytes. */
  datatype Output = Output(stderr: string, stdout: Frame)

  /** `getVideoStreamDuration`: the stream duration in seconds, if known, and its frame rate. */
  datatype StreamDuration = StreamDuration(duration: Option<real>, fps: Option<real>)

  /** `getVideoInfo`: the special codec and the size to scale to, if any. */
  datatype VideoInfo = VideoInfo(specialVcodec: SpecialVCodec, needsResize: Option<(nat, nat)>)

  /** `LastFrameOptions` without the executables and the download map. */
  datatype LastFrameOptions = LastFrameOptions(
    src: string, imageFormat: ImageFormat, specialVCodec: SpecialVCodec,
    needsResize: Option<(nat, nat)>, offset: real)

  /**
   * The imported helpers, none of which is part of this model: running ffmpeg, probing, the
   * presentation-timestamp copy, `frameToFfmpegTimestamp`, JavaScript number printing and
   * `isBeyondLastFrame` over the marks made so far.
   */
  datatype Tools = Tools(
    run: seq<string> -> Output,
    streamDuration: string -> StreamDuration,
    videoInfo: string -> VideoInfo,
    presentationTimestamps: string -> string,
    ffmpegTimestamp: real -> string,
    show: real -> string,
    isBeyondLastFrame: (set<(string, real)>, string, real) -> bool)

  /** The stderr text by which ffmpeg says it produced no frame. */
  const EmptyOutput := "Output file is empty"

  predicate IsEmpty(o: Output) {
    Includes(o.stderr, EmptyOutput)
  }

  /** `determineVcodecFfmepgFlags`. */
  function VcodecFlags(v: SpecialVCodec): (r: seq<string>)
    ensures v == SpecialVp9 ==> r == ["-vcodec", "libvpx-vp9"]
    ensures v == SpecialVp8 ==> r == ["-vcodec", "libvpx"]
    ensures v == NoSpecialVCodec ==> r == []
  {
    var vp9 := [if v == SpecialVp9 then "-vcodec" else "", if v == SpecialVp9 then "libvpx-vp9" else ""];
    var vp8 := [if v == SpecialVp8 then "-vcodec" else "", if v == SpecialVp8 then "libvpx" else ""];
    TruthyAppend(vp9, vp8);
    TruthyPair(vp9[0], vp9[1]);
    TruthyPair(vp8[0], vp8[1]);
    Truthy(vp9 + vp8)
  }

  /** `determineResizeParams`. */
  function ResizeParams(needsResize: Option<(nat, nat)>): (r: seq<string>)
    ensures needsResize.None? ==> r == []
    ensures needsResize.Some? ==>
      |r| == 2 && r[0] == "-s" &&
      Split(r[1], 'x') == [NatToString(needsResize.value.0), NatToString(needsResize.value.1)]
  {
    if needsResize.None? then []
    else
      var w := NatToString(needsResize.value.0);
      var h := NatToString(needsResize.value.1);
      DigitsHaveNoX(w);
      DigitsHaveNoX(h);
      SplitJoin([w, h], 'x');
      assert Join([w, h], "x") == w + "x" + h;
      ["-s", w + "x" + h]
  }

  lemma DigitsHaveNoX(s: string)
    requires AllDigits(s)
    ensures 'x' !in s
  {
  }

  lemma TruthyPair(a: string, b: string)
    ensures Truthy([a, b]) == (if a == "" then [] else [a]) + (if b == "" then [] else [b])
  {
    assert [a, b][..1] == [a];
  }

  function ImageCodec(f: ImageFormat): string {
    if f == Jpeg then "mjpeg" else "png"
  }

  /** The part every command shares after the seek: input, one frame, its codec, piped out. */
  function OneFrameTail(src: string, f: ImageFormat, needsResize: Option<(nat, nat)>): seq<string> {
    ["-i", src, "-frames:v", "1", "-c:v", ImageCodec(f), "-f", "image2pipe"] + ResizeParams(needsResize) + ["-"]
  }

  /** The slow command: no seek, the input is shifted back by the timestamp instead. */
  function SlowCommand(t: Tools, src: string, timestamp: real, f: ImageFormat, v: SpecialVCodec,
                       needsResize: Option<(nat, nat)>): seq<string> {
    Truthy(["-itsoffset", "-" + t.show(timestamp * 1000.0) + "ms"] + VcodecFlags(v) + OneFrameTail(src, f, needsResize))
  }

  /** The message of the slow path when even it gets no frame. */
  function CorruptMessage(src: string, command: seq<string>): string {
    CorruptBefore + src + CorruptMiddle +
    Join(command, " ") + CorruptAfter
  }

  /** `getFrameOfVideoSlow`: an empty result is an error and is never retried. */
  function Slow(t: Tools, src: string, timestamp: real, f: ImageFormat, v: SpecialVCodec,
                needsResize: Option<(nat, nat)>): (r: Result<Frame>)
    ensures var out := t.run(SlowCommand(t, src, timestamp, f, v, needsResize));
      (r.Err? <==> IsEmpty(out)) &&
      (r.Err? ==> r.error == CorruptMessage(src, SlowCommand(t, src, timestamp, f, v, needsResize))) &&
      (r.Ok? ==> r.value == out.stdout)
  {
    var command := SlowCommand(t, src, timestamp, f, v, needsResize);
    var out := t.run(command);
    if IsEmpty(out) then Err(CorruptMessage(src, command)) else Ok(out.stdout)
  }

  /** The fast last-frame command: seek to `offset` milliseconds before the end. */
  function FastCommand(t: Tools, o: LastFrameOptions, duration: real): seq<string> {
    Truthy(["-ss", t.show(duration * 1000.0 - o.offset) + "ms"] + VcodecFlags(o.specialVCodec) +
           OneFrameTail(o.src, o.imageFormat, o.needsResize))
  }

  /** The frame rate the last-frame lookup needs: unknown, or not negative. */
  predicate FpsKnownSane(d: StreamDuration) {
    d.fps.None? || d.fps.value >= 0.0
  }

  /**
   * The offset added on each retry, `1000 / (fps ?? 10)` milliseconds: one frame, or 100 ms when the
   * frame rate is unknown. A frame rate of 0 gives JavaScript's `Infinity`, here `None`.
   */
  function Step(fps: Option<real>): (r: Option<real>)
    requires fps.None? || fps.value >= 0.0
    ensures r.Some? ==> r.value > 0.0
    ensures fps.None? ==> r == Some(100.0)
  {
    if fps.None? then Some(100.0) else if fps.value == 0.0 then None else Some(1000.0 / fps.value)
  }

  /** An upper bound on the retries still allowed before the offset passes 40 ms. */
  function RetriesLeft(offset: real, step: Option<real>): nat
    requires step.Some? ==> step.value > 0.0
  {
    if offset > 40.0 || step.None? then 0 else ((40.0 - offset) / step.value).Floor + 1
  }

  lemma RetriesDecrease(offset: real, step: real)
    requires step > 0.0 && offset <= 40.0
    ensures RetriesLeft(offset + step, Some(step)) < RetriesLeft(offset, Some(step))
  {
    if offset + step <= 40.0 {
      var q := (40.0 - offset) / step;
      assert q * step == 40.0 - offset;
      assert (q - 1.0) * step == 40.0 - (offset + step);
      QuotientUnique(40.0 - (offset + step), step, q - 1.0);
      assert (q - 1.0).Floor == q.Floor - 1;
    }
  }

  lemma QuotientUnique(x: real, d: real, q: real)
    requires d > 0.0 && q * d == x
    ensures x / d == q
  {
  }

  /** The key under which `getLastFrameFromCache` looks: the options with offset 0. */
  function CacheKey(o: LastFrameOptions): LastFrameOptions {
    o.(offset := 0.0)
  }

  /**
   * `getLastFrameOfVideoFastUnlimited`: a cached last frame is returned as it is; an unknown duration
   * is an error; VP8 sources, and offsets past 40 ms, take the slow path at the duration; otherwise
   * the frame `offset` ms before the end is extracted, and an empty result retries one step further
   * back. With a frame rate of 0 the next offset is infinite, so the retry takes the slow path.
   */
  function Fast(t: Tools, cache: map<LastFrameOptions, Frame>, o: LastFrameOptions): (r: Result<Frame>)
    requires FpsKnownSane(t.streamDuration(o.src))
    ensures CacheKey(o) in cache ==> r == Ok(cache[CacheKey(o)])
    ensures CacheKey(o) !in cache && t.streamDuration(o.src).duration.None? ==>
      r == Err(NoDurationBefore + o.src + NoDurationAfter)
    decreases RetriesLeft(o.offset, Step(t.streamDuration(o.src).fps))
  {
    var probe := t.streamDuration(o.src);
    if CacheKey(o) in cache then Ok(cache[CacheKey(o)])
    else if probe.duration.None? then
      Err(NoDurationBefore + o.src + NoDurationAfter)
    else
      var duration := probe.duration.value;
      if o.specialVCodec == SpecialVp8 || o.offset > 40.0 then
        Slow(t, o.src, duration, o.imageFormat, o.specialVCodec, o.needsResize)
      else
        var out := t.run(FastCommand(t, o, duration));
        if !IsEmpty(out) then Ok(out.stdout)
        else
          match Step(probe.fps)
          case None => Slow(t, o.src, duration, o.imageFormat, o.specialVCodec, o.needsResize)
          case Some(step) =>
            RetriesDecrease(o.offset, step);
            Fast(t, cache, o.(offset := o.offset + step))
  }

  /**
   * The offsets at which the fast command is run, in order (empty when the cache answers, the
   * duration is unknown or the source is VP8).
   */
  function FastOffsets(t: Tools, cache: map<LastFrameOptions, Frame>, o: LastFrameOptions): seq<real>
    requires FpsKnownSane(t.streamDuration(o.src))
    decreases RetriesLeft(o.offset, Step(t.streamDuration(o.src).fps))
  {
    var probe := t.streamDuration(o.src);
    if CacheKey(o) in cache || probe.duration.None? || o.specialVCodec == SpecialVp8 || o.offset > 40.0 then []
    else if !IsEmpty(t.run(FastCommand(t, o, probe.duration.value))) then [o.offset]
    else
      match Step(probe.fps)
      case None => [o.offset]
      case Some(step) =>
        RetriesDecrease(o.offset, step);
        [o.offset] + FastOffsets(t, cache, o.(offset := o.offset + step))
  }

  /**
   * The fast path is only tried at offsets of at most 40 ms; it starts at the given offset and each
   * retry moves one step, `1000 / fps` or 100 ms, further back.
   */
  lemma {:induction false} FastOffsetsBounded(t: Tools, cache: map<LastFrameOptions, Frame>, o: LastFrameOptions)
    requires FpsKnownSane(t.streamDuration(o.src))
    ensures var offs := FastOffsets(t, cache, o);
      (forall i :: 0 <= i < |offs| ==> offs[i] <= 40.0) &&
      (|offs| > 0 ==> offs[0] == o.offset) &&
      (|offs| > 1 ==> Step(t.streamDuration(o.src).fps).Some?) &&
      (forall i :: 0 <= i < |offs| - 1 ==> offs[i + 1] == offs[i] + Step(t.streamDuration(o.src).fps).value)
    decreases RetriesLeft(o.offset, Step(t.streamDuration(o.src).fps))
  {
    var probe := t.streamDuration(o.src);
    if CacheKey(o) in cache || probe.duration.None? || o.specialVCodec == SpecialVp8 || o.offset > 40.0 {
    } else if !IsEmpty(t.run(FastCommand(t, o, probe.duration.value))) {
    } else if Step(probe.fps).Some? {
      var step := Step(probe.fps).value;
      var next := o.(offset := o.offset + step);
      RetriesDecrease(o.offset, step);
      FastOffsetsBounded(t, cache, next);
      var rest := FastOffsets(t, cache, next);
      var offs := [o.offset] + rest;
      assert FastOffsets(t, cache, o) == offs;
      assert t.streamDuration(next.src) == probe;
      forall i | 0 <= i < |offs|
        ensures offs[i] <= 40.0
      {
        if i > 0 {
          assert offs[i] == rest[i - 1];
        }
      }
      forall i | 0 <= i < |offs| - 1
        ensures offs[i + 1] == offs[i] + step
      {
        if i > 0 {
          assert offs[i] == rest[i - 1] && offs[i + 1] == rest[i];
        }
      }
    }
  }

  /**
   * The number of fast attempts is bounded by the frame rate: at most `40 * fps / 1000 + 1` with a
   * known positive frame rate, at most 1 with an unknown one (the first step of 100 ms passes 40).
   */
  lemma {:induction false} FastAttemptsBound(t: Tools, cache: map<LastFrameOptions, Frame>, o: LastFrameOptions)
    requires FpsKnownSane(t.streamDuration(o.src)) && o.offset >= 0.0
    ensures |FastOffsets(t, cache, o)| <= RetriesLeft(o.offset, Step(t.streamDuration(o.src).fps)) + 1
    ensures t.streamDuration(o.src).fps.None? ==> |FastOffsets(t, cache, o)| <= 1
    decreases RetriesLeft(o.offset, Step(t.streamDuration(o.src).fps))
  {
    var probe := t.streamDuration(o.src);
    if CacheKey(o) in cache || probe.duration.None? || o.specialVCodec == SpecialVp8 || o.offset > 40.0 {
    } else if !IsEmpty(t.run(FastCommand(t, o, probe.duration.value))) {
    } else if Step(probe.fps).Some? {
      var step := Step(probe.fps).value;
      var next := o.(offset := o.offset + step);
      assert next.src == o.src;
      RetriesDecrease(o.offset, step);
      FastAttemptsBound(t, cache, next);
      assert FastOffsets(t, cache, o) == [o.offset] + FastOffsets(t, cache, next);
      if probe.fps.None? {
        assert next.offset > 40.0;
        assert FastOffsets(t, cache, next) == [];
      }
    }
  }

  /**
   * Where a successful last frame comes from: the cache, the slow command at the duration, or a fast
   * command at one of the tried offsets whose stderr did not report an empty output.
   */
  lemma {:induction false} FastResultOrigin(t: Tools, cache: map<LastFrameOptions, Frame>, o: LastFrameOptions)
    requires FpsKnownSane(t.streamDuration(o.src))
    ensures var r := Fast(t, cache, o);
      var probe := t.streamDuration(o.src);
      r.Ok? ==>
        (CacheKey(o) in cache && r.value == cache[CacheKey(o)]) ||
        (probe.duration.Some? &&
         (r == Slow(t, o.src, probe.duration.value, o.imageFormat, o.specialVCodec, o.needsResize) ||
          exists off :: off in FastOffsets(t, cache, o) &&
            var out := t.run(FastCommand(t, o.(offset := off), probe.duration.value));
            !IsEmpty(out) && r.value == out.stdout))
    decreases RetriesLeft(o.offset, Step(t.streamDuration(o.src).fps))
  {
    var probe := t.streamDuration(o.src);
    if CacheKey(o) in cache || probe.duration.None? || o.specialVCodec == SpecialVp8 || o.offset > 40.0 {
    } else if !IsEmpty(t.run(FastCommand(t, o, probe.duration.value))) {
      assert o.(offset := o.offset) == o;
      assert o.offset in FastOffsets(t, cache, o);
    } else if Step(probe.fps).Some? {
      var step := Step(probe.fps).value;
      var next := o.(offset := o.offset + step);
      RetriesDecrease(o.offset, step);
      FastResultOrigin(t, cache, next);
      assert FastOffsets(t, cache, o) == [o.offset] + FastOffsets(t, cache, next);
      assert Fast(t, cache, o) == Fast(t, cache, next);
      assert CacheKey(next) == CacheKey(o);
      forall off ensures next.(offset := off) == o.(offset := off) {
      }
    }
  }

  /** `getLastFrameOfVideo`: the result of the fast lookup is stored in the cache under the options. */
  function LastFrame(t: Tools, cache: map<LastFrameOptions, Frame>, o: LastFrameOptions):
    (r: (Result<Frame>, map<LastFrameOptions, Frame>))
    requires FpsKnownSane(t.streamDuration(o.src))
    ensures r.0 == Fast(t, cache, o)
    ensures r.0.Ok? ==> r.1 == cache[o := r.0.value]
    ensures r.0.Err? ==> r.1 == cache
  {
    var result := Fast(t, cache, o);
    if result.Ok? then (result, cache[o := result.value]) else (result, cache)
  }

  /** Once a last frame has been stored for offset 0, the next lookup answers from the cache without running ffmpeg. */
  lemma LastFrameCached(t: Tools, cache: map<LastFrameOptions, Frame>, o: LastFrameOptions)
    requires FpsKnownSane(t.streamDuration(o.src)) && o.offset == 0.0
    ensures var (r, after) := LastFrame(t, cache, o);
      r.Ok? ==> Fast(t, after, o) == r && FastOffsets(t, after, o) == []
  {
    assert CacheKey(o) == o;
  }

  /** The seeking command of the main path. */
  function SeekCommand(t: Tools, src: string, time: real, f: ImageFormat, info: VideoInfo): seq<string> {
    Truthy(["-ss", t.ffmpegTimestamp(time)] + VcodecFlags(info.specialVcodec) +
           ["-i", src, "-frames:v", "1", "-f", "image2pipe", "-vcodec", ImageCodec(f)] +
           ResizeParams(info.needsResize) + ["-"])
  }

  /** The caches the extraction reads and writes: last frames and the times marked beyond the last frame. */
  datatype Caches = Caches(lastFrames: map<LastFrameOptions, Frame>, beyond: set<(string, real)>)

  function LastFrameOptionsFor(src: string, f: ImageFormat, info: VideoInfo): LastFrameOptions {
    LastFrameOptions(src, f, info.specialVcodec, info.needsResize, 0.0)
  }

  /** The frame-rate assumption the last-frame lookup of a source needs. */
  predicate SaneSource(t: Tools, src: string) {
    FpsKnownSane(t.streamDuration(t.presentationTimestamps(src)))
  }

  /**
   * `extractFrameFromVideoFn`: VP8 sources always take the slow path at the requested time; a time
   * already marked beyond the last frame gets the last frame; otherwise the frame is extracted by
   * seeking, and an empty result marks the time beyond the last frame and returns the last frame.
   */
  function Extract(t: Tools, c: Caches, time: real, src0: string, f: ImageFormat): (r: (Result<Frame>, Caches))
    requires SaneSource(t, src0)
    ensures var src := t.presentationTimestamps(src0);
      var info := t.videoInfo(src);
      var out := t.run(SeekCommand(t, src, time, f, info));
      var opts := LastFrameOptionsFor(src, f, info);
      (info.specialVcodec == SpecialVp8 ==>
         r == (Slow(t, src, time, f, info.specialVcodec, info.needsResize), c)) &&
      (info.specialVcodec != SpecialVp8 && t.isBeyondLastFrame(c.beyond, src, time) ==>
         r == (var (res, lf) := LastFrame(t, c.lastFrames, opts); (res, c.(lastFrames := lf)))) &&
      (info.specialVcodec != SpecialVp8 && !t.isBeyondLastFrame(c.beyond, src, time) && !IsEmpty(out) ==>
         r == (Ok(out.stdout), c)) &&
      (info.specialVcodec != SpecialVp8 && !t.isBeyondLastFrame(c.beyond, src, time) && IsEmpty(out) ==>
         r.1.beyond == c.beyond + {(src, time)} && r.0 == Fast(t, c.lastFrames, opts))
  {
    var src := t.presentationTimestamps(src0);
    var info := t.videoInfo(src);
    var opts := LastFrameOptionsFor(src, f, info);
    if info.specialVcodec == SpecialVp8 then
      (Slow(t, src, time, f, info.specialVcodec, info.needsResize), c)
    else if t.isBeyondLastFrame(c.beyond, src, time) then
      var (res, lf) := LastFrame(t, c.lastFrames, opts);
      (res, c.(lastFrames := lf))
    else
      var out := t.run(SeekCommand(t, src, time, f, info));
      if !IsEmpty(out) then (Ok(out.stdout), c)
      else
        var (res, lf) := LastFrame(t, c.lastFrames, opts);
        (res, Caches(lf, c.beyond + {(src, time)}))
  }

  /** A VP8 source never runs the seeking command nor consults the caches. */
  lemma Vp8NeverSeeks(t: Tools, c: Caches, time: real, src0: string, f: ImageFormat)
    requires SaneSource(t, src0)
    requires t.videoInfo(t.presentationTimestamps(src0)).specialVcodec == SpecialVp8
    ensures Extract(t, c, time, src0, f).1 == c
    ensures Extract(t, c, time, src0, f).0.Ok? <==>
      !IsEmpty(t.run(SlowCommand(t, t.presentationTimestamps(src0), time, f, SpecialVp8,
                                 t.videoInfo(t.presentationTimestamps(src0)).needsResize)))
  {
  }

  /** The beyond-last-frame marks only grow, and the last-frame cache only gains entries. */
  lemma ExtractOnlyAddsToCaches(t: Tools, c: Caches, time: real, src0: string, f: ImageFormat)
    requires SaneSource(t, src0)
    ensures var c2 := Extract(t, c, time, src0, f).1;
      c.beyond <= c2.beyond && c.lastFrames.Keys <= c2.lastFrames.Keys &&
      var opts := LastFrameOptionsFor(t.presentationTimestamps(src0), f, t.videoInfo(t.presentationTimestamps(src0)));
      forall k :: k in c.lastFrames && k != opts ==> c2.lastFrames[k] == c.lastFrames[k]
  {
  }

  /** The extraction state: the caches, updated in place. */
  class FrameExtractor {
    const tools: Tools
    var lastFrames: map<LastFrameOptions, Frame>
    var beyond: set<(string, real)>

    function State(): Caches
      reads this
    {
      Caches(lastFrames, beyond)
    }

    constructor (tools: Tools)
      ensures this.tools == tools && State() == Caches(map[], {})
    {
      this.tools := tools;
      lastFrames := map[];
      beyond := {};
    }

    method GetLastFrameOfVideo(o: LastFrameOptions) returns (r: Result<Frame>)
      requires FpsKnownSane(tools.streamDuration(o.src))
      modifies this
      ensures (r, lastFrames) == LastFrame(tools, old(lastFrames), o) && beyond == old(beyond)
    {
      r := Fast(tools, lastFrames, o);
      if r.Ok? {
        lastFrames := lastFrames[o := r.value];
      }
    }

    method ExtractFrameFromVideo(time: real, src0: string, f: ImageFormat) returns (r: Result<Frame>)
      requires SaneSource(tools, src0)
      modifies this
      ensures (r, State()) == Extract(tools, old(State()), time, src0, f)
    {
      var src := tools.presentationTimestamps(src0);
      var info := tools.videoInfo(src);
      if info.specialVcodec == SpecialVp8 {
        r := Slow(tools, src, time, f, info.specialVcodec, info.needsResize);
        return;
      }
      var opts := LastFrameOptionsFor(src, f, info);
      if tools.isBeyondLastFrame(beyond, src, time) {
        r := GetLastFrameOfVideo(opts);
        return;
      }
      var out := tools.run(SeekCommand(tools, src, time, f, info));
      if IsEmpty(out) {
        beyond := beyond + {(src, time)};
        r := GetLastFrameOfVideo(opts);
        return;
      }
      r := Ok(out.stdout);
    }
  }
}
