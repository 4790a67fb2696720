/**
 * `prespawnFfmpeg` (packages/renderer/src/prespawn-ffmpeg.ts): the defaults, the encoder check, the
 * argument list of the encoder that frames are piped into, and the stderr log it accumulates.
 * Spawning the process is not part of this model, and the validators it calls are parameters.
 */
module PrespawnFfmpeg {

  import opened Wrappers
  import opened Text
  import opened Codecs
  import opened FfmpegArgs

  /** `PreSticherOptions`, without the callbacks, the executable and the verbosity. */
  datatype Options = Options(
    fps: int, width: nat, height: nat, outputLocation: string,
    pixelFormat: Option<string>, codec: Option<Codec>, crf: Option<int>,
    proResProfile: Option<string>, imageFormat: ImageFormat)

  /**
   * The helpers the source imports: `getCodecName`, `getProResProfileName` and
   * `getDefaultCrfForCodec` (none of them is part of this model).
   */
  datatype Helpers = Helpers(
    codecName: Codec -> Option<string>,
    proResProfileName: (Codec, Option<string>) -> Option<string>,
    defaultCrf: Codec -> int)

  /** The settings after defaulting. */
  datatype Settings = Settings(codec: Codec, crf: int, pixelFormat: string)

  /** Codec, CRF and pixel format fall back to their defaults when absent. */
  function Resolve(o: Options, h: Helpers): (s: Settings)
    ensures s.codec == OptionOr(o.codec, DefaultCodec)
    ensures o.crf.Some? ==> s.crf == o.crf.value
    ensures o.crf.None? ==> s.crf == h.defaultCrf(s.codec)
    ensures s.pixelFormat == OptionOr(o.pixelFormat, DefaultPixelFormat)
  {
    var codec := OptionOr(o.codec, DefaultCodec);
    Settings(codec, OptionOr(o.crf, h.defaultCrf(codec)), OptionOr(o.pixelFormat, DefaultPixelFormat))
  }

  /** The CRF option is only given to encoders that support it; ProRes does not. */
  predicate SupportsCrf(c: Codec) {
    c != ProRes
  }

  /** The input side: frame rate, a piped image stream of the given size and its image codec. */
  function InputArgs(o: Options): seq<string> {
    ["-r", IntToString(o.fps), "-f", "image2pipe",
     "-s", NatToString(o.width) + "x" + NatToString(o.height),
     "-vcodec", if o.imageFormat == Jpeg then "mjpeg" else "png",
     "-i", "-"]
  }

  /** The nested argument arrays flattened, with the `null` entries left out. */
  function Flattened(o: Options, s: Settings, encoderName: string, profileName: Option<string>): seq<string> {
    InputArgs(o) + EncoderArgs(s, encoderName, profileName) + ["-b:v", "1M", "-y", o.outputLocation]
  }

  /** The encoder, its profile, the CRF, the pixel format and the alpha setting. */
  function EncoderArgs(s: Settings, encoderName: string, profileName: Option<string>): seq<string> {
    ["-c:v", encoderName] +
    (if profileName.Some? && profileName.value != "" then ["-profile:v", profileName.value] else []) +
    (if SupportsCrf(s.codec) then ["-crf", IntToString(s.crf)] else []) +
    ["-pix_fmt", s.pixelFormat] +
    (if s.pixelFormat == "yuva420p" then ["-auto-alt-ref", "0"] else [])
  }

  /** `ffmpegArgs.flat(2).filter(Boolean)`. */
  function Args(o: Options, s: Settings, encoderName: string, profileName: Option<string>): seq<string> {
    Truthy(Flattened(o, s, encoderName, profileName))
  }

  /**
   * The validators the source calls, none of which is part of this model: `validateDimension`
   * (given the value and the dimension's name), `validateFps`, `validateEvenDimensionsWithCodec`,
   * the result of `validateFfmpeg` for the chosen executable, and the two checks of the CRF and
   * the pixel format against the codec.
   */
  datatype Validators = Validators(
    dimension: (nat, string) -> Outcome,
    fps: int -> Outcome,
    evenDimensions: (nat, nat, Codec) -> Outcome,
    ffmpeg: Outcome,
    crfAndCodec: (int, Codec) -> Outcome,
    pixelFormatAndCodec: (string, Codec) -> Outcome)

  /** The checks made before the encoder name is looked at, in the order they run. */
  function ChecksBefore(o: Options, s: Settings, v: Validators): seq<Outcome> {
    [v.dimension(o.height, "height"), v.dimension(o.width, "width"), v.fps(o.fps),
     v.evenDimensions(o.width, o.height, s.codec), v.ffmpeg]
  }

  /** The checks made after the encoder name was found, in the order they run. */
  function ChecksAfter(s: Settings, v: Validators): seq<Outcome> {
    [v.crfAndCodec(s.crf, s.codec), v.pixelFormatAndCodec(s.pixelFormat, s.codec)]
  }

  /** The error of the first check that fails, if any. */
  function FirstFailure(checks: seq<Outcome>): (r: Option<string>)
    ensures r.None? <==> forall i :: 0 <= i < |checks| ==> checks[i].Pass?
    ensures r.Some? ==>
      exists i :: 0 <= i < |checks| && checks[i] == Fail(r.value) && (forall j :: 0 <= j < i ==> checks[j].Pass?)
  {
    if |checks| == 0 then None
    else if checks[0].Fail? then Some(checks[0].error)
    else
      var r := FirstFailure(checks[1..]);
      assert forall i :: 1 <= i < |checks| ==> checks[i] == checks[1..][i - 1];
      if r.Some? then
        var k :| 0 <= k < |checks[1..]| && checks[1..][k] == Fail(r.value) &&
          forall j :: 0 <= j < k ==> checks[1..][j].Pass?;
        assert checks[k + 1] == Fail(r.value);
        r
      else r
  }

  lemma FirstFailureOfTwo(a: Outcome, b: Outcome)
    ensures FirstFailure([a, b]) == if a.Fail? then Some(a.error) else if b.Fail? then Some(b.error) else None
  {
    assert [a, b][1..] == [b];
    assert [b][1..] == [];
  }

  lemma FirstFailureOfFive(a: Outcome, b: Outcome, c: Outcome, d: Outcome, e: Outcome)
    ensures FirstFailure([a, b, c, d, e]) ==
      if a.Fail? then Some(a.error) else if b.Fail? then Some(b.error) else if c.Fail? then Some(c.error)
      else if d.Fail? then Some(d.error) else if e.Fail? then Some(e.error) else None
  {
    FirstFailureOfTwo(d, e);
    assert [c, d, e][1..] == [d, e];
    assert FirstFailure([c, d, e]) == if c.Fail? then Some(c.error) else FirstFailure([d, e]);
    assert [b, c, d, e][1..] == [c, d, e];
    assert FirstFailure([b, c, d, e]) == if b.Fail? then Some(b.error) else FirstFailure([c, d, e]);
    assert [a, b, c, d, e][1..] == [b, c, d, e];
    assert FirstFailure([a, b, c, d, e]) == if a.Fail? then Some(a.error) else FirstFailure([b, c, d, e]);
  }

  /**
   * The checks before spawning, in the source's order: the dimensions, the frame rate, even
   * dimensions for the codec and the ffmpeg executable; then a codec without an encoder name
   * raises a TypeError; then the CRF and the pixel format must suit the codec. The first check
   * that throws decides the error and nothing is spawned; otherwise the process is started with
   * `Args`.
   */
  function Prespawn(o: Options, h: Helpers, v: Validators, describedOptions: string): (r: Result<seq<string>>)
    ensures var s := Resolve(o, h);
      var before, after := FirstFailure(ChecksBefore(o, s, v)), FirstFailure(ChecksAfter(s, v));
      (r.Ok? <==> before.None? && h.codecName(s.codec).Some? && after.None?) &&
      (before.Some? ==> r == Err(before.value)) &&
      (before.None? && h.codecName(s.codec).None? ==> r == Err("encoderName is null: " + describedOptions)) &&
      (before.None? && h.codecName(s.codec).Some? && after.Some? ==> r == Err(after.value)) &&
      (r.Ok? ==> r.value == Args(o, s, h.codecName(s.codec).value, h.proResProfileName(s.codec, o.proResProfile)))
  {
    var s := Resolve(o, h);
    FirstFailureOfFive(v.dimension(o.height, "height"), v.dimension(o.width, "width"), v.fps(o.fps),
                       v.evenDimensions(o.width, o.height, s.codec), v.ffmpeg);
    FirstFailureOfTwo(v.crfAndCodec(s.crf, s.codec), v.pixelFormatAndCodec(s.pixelFormat, s.codec));
    match v.dimension(o.height, "height")
    case Fail(e) => Err(e)
    case Pass =>
      match v.dimension(o.width, "width")
      case Fail(e) => Err(e)
      case Pass =>
        match v.fps(o.fps)
        case Fail(e) => Err(e)
        case Pass =>
          match v.evenDimensions(o.width, o.height, s.codec)
          case Fail(e) => Err(e)
          case Pass =>
            match v.ffmpeg
            case Fail(e) => Err(e)
            case Pass =>
              match h.codecName(s.codec)
              case None => Err("encoderName is null: " + describedOptions)
              case Some(encoderName) =>
                match v.crfAndCodec(s.crf, s.codec)
                case Fail(e) => Err(e)
                case Pass =>
                  match v.pixelFormatAndCodec(s.pixelFormat, s.codec)
                  case Fail(e) => Err(e)
                  case Pass => Ok(Args(o, s, encoderName, h.proResProfileName(s.codec, o.proResProfile)))
  }

  /** An odd size that the codec rejects stops the encoder from being started, even with a known encoder. */
  lemma OddDimensionsNotSpawned(o: Options, h: Helpers, v: Validators, describedOptions: string)
    requires v.dimension(o.height, "height").Pass? && v.dimension(o.width, "width").Pass? && v.fps(o.fps).Pass?
    requires v.evenDimensions(o.width, o.height, Resolve(o, h).codec).Fail?
    ensures Prespawn(o, h, v, describedOptions) == Err(v.evenDimensions(o.width, o.height, Resolve(o, h).codec).error)
  {
  }

  /**
   * The list begins with the frame rate and the piped input (mjpeg for jpeg frames, png otherwise)
   * and ends with `-y` and the output location.
   */
  lemma ArgsShape(o: Options, s: Settings, encoderName: string, profileName: Option<string>)
    requires o.outputLocation != ""
    ensures var a := Args(o, s, encoderName, profileName);
      |a| >= |InputArgs(o)| + 2 && a[..|InputArgs(o)|] == InputArgs(o) &&
      a[|a| - 2..] == ["-y", o.outputLocation]
  {
    var input, encoder := InputArgs(o), EncoderArgs(s, encoderName, profileName);
    var tail := ["-b:v", "1M", "-y", o.outputLocation];
    TruthyAppend(input + encoder, tail);
    TruthyAppend(input, encoder);
    TruthyKeeps(input);
    TruthyKeeps(tail);
    var a := input + Truthy(encoder) + tail;
    assert a[..|input|] == input;
    assert a[|a| - 2..] == tail[2..];
  }

  /** No entry before the encoder settings can be mistaken for a settings flag. */
  lemma InputArgsHaveNoSettingsFlag(o: Options, flag: string)
    requires flag == "-crf" || flag == "-profile:v" || flag == "-auto-alt-ref"
    ensures flag !in InputArgs(o)
  {
    NumberIsNotFlag(o.fps, flag);
    var size := NatToString(o.width) + "x" + NatToString(o.height);
    assert size[0] == NatToString(o.width)[0];
    assert IsDigit(size[0]);
  }

  /** A settings flag is in the final list exactly when it is among the encoder arguments. */
  lemma SettingsFlagIn(o: Options, s: Settings, encoderName: string, profileName: Option<string>, flag: string)
    requires flag == "-crf" || flag == "-profile:v" || flag == "-auto-alt-ref"
    requires Plain(o.outputLocation)
    ensures flag in Args(o, s, encoderName, profileName) <==> flag in EncoderArgs(s, encoderName, profileName)
  {
    InputArgsHaveNoSettingsFlag(o, flag);
    assert flag !in ["-b:v", "1M", "-y", o.outputLocation];
  }

  /** `-crf` is passed exactly when the codec supports it, i.e. is not ProRes. */
  lemma CrfPresentExactly(o: Options, s: Settings, encoderName: string, profileName: Option<string>)
    requires Plain(encoderName) && Plain(s.pixelFormat) && Plain(o.outputLocation)
    requires profileName.Some? ==> Plain(profileName.value)
    ensures "-crf" in Args(o, s, encoderName, profileName) <==> SupportsCrf(s.codec)
  {
    SettingsFlagIn(o, s, encoderName, profileName, "-crf");
  }

  /** `-profile:v` is passed exactly when a ProRes profile name was resolved. */
  lemma ProfilePresentExactly(o: Options, s: Settings, encoderName: string, profileName: Option<string>)
    requires Plain(encoderName) && Plain(s.pixelFormat) && Plain(o.outputLocation)
    requires profileName.Some? ==> Plain(profileName.value)
    ensures "-profile:v" in Args(o, s, encoderName, profileName) <==> profileName.Some? && profileName.value != ""
  {
    SettingsFlagIn(o, s, encoderName, profileName, "-profile:v");
    NumberIsNotFlag(s.crf, "-profile:v");
  }

  /** `-auto-alt-ref 0` is passed exactly for the pixel format 'yuva420p'. */
  lemma AutoAltRefPresentExactly(o: Options, s: Settings, encoderName: string, profileName: Option<string>)
    requires Plain(encoderName) && Plain(s.pixelFormat) && Plain(o.outputLocation)
    requires profileName.Some? ==> Plain(profileName.value)
    ensures "-auto-alt-ref" in Args(o, s, encoderName, profileName) <==> s.pixelFormat == "yuva420p"
  {
    SettingsFlagIn(o, s, encoderName, profileName, "-auto-alt-ref");
    NumberIsNotFlag(s.crf, "-auto-alt-ref");
  }

  /**
   * The encoder's stderr handler: every chunk is appended to the log, and a chunk that parses as
   * progress is reported.
   */
  class PreStitcher {
    const parse: string -> Option<int>
    var ffmpegOutput: string
    var progress: seq<int>
    ghost var chunks: seq<string>

    ghost predicate Valid()
      reads this
    {
      ffmpegOutput == Concat(chunks) && progress == Reports(parse, chunks)
    }

    constructor (parse: string -> Option<int>)
      ensures Valid() && this.parse == parse && chunks == [] && ffmpegOutput == "" && progress == []
    {
      this.parse := parse;
      ffmpegOutput := "";
      progress := [];
      chunks := [];
    }

    method OnStderr(data: string)
      requires Valid()
      modifies this
      ensures Valid() && chunks == old(chunks) + [data]
      ensures ffmpegOutput == old(ffmpegOutput) + data
      ensures progress == old(progress) + (if parse(data).Some? then [parse(data).value] else [])
    {
      ConcatAppend(chunks, data);
      ReportsAppend(parse, chunks, data);
      chunks := chunks + [data];
      ffmpegOutput := ffmpegOutput + data;
      var parsed := parse(data);
      if parsed.Some? {
        progress := progress + [parsed.value];
      }
    }

    /** `getLogs()`: all stderr chunks received so far, in order. */
    method GetLogs() returns (logs: string)
      requires Valid()
      ensures logs == Concat(chunks)
    {
      logs := ffmpegOutput;
    }
  }
}
