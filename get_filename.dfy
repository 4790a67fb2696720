/**
 * `getOutputFilename` (packages/cli/src/get-filename.ts): the output location the user asked for,
 * checked against the kind of output and completed with the container extension of the codec
 * when it has none. Where the location comes from (`getOutputLocation`) and how its extension is
 * read (`getExtensionOfFilename`) are not part of this model: the location is an input and the
 * extension reader a function parameter.
 */
module GetFilename {

  import opened Wrappers
  import opened Codecs

  const ExtensionError := "The output directory of the image sequence cannot have an extension. Got: "

  /** The extension added to a location that has none: `.mp4`, `.mkv`, `.webm`, `.mov`, or nothing. */
  function DefaultSuffix(codec: Codec): string {
    match codec
    case H264 => ".mp4"
    case H265 => ".mp4"
    case H264Mkv => ".mkv"
    case Vp8 => ".webm"
    case Vp9 => ".webm"
    case ProRes => ".mov"
    case _ => ""
  }

  /** The codecs `getOutputFilename` adds an extension for. */
  predicate HasDefaultExtension(codec: Codec) {
    codec == H264 || codec == H265 || codec == H264Mkv || codec == Vp8 || codec == Vp9 || codec == ProRes
  }

  /**
   * What `getOutputFilename` returns for a location whose extension is `extension`, or the
   * message it exits with.
   */
  function OutputFilename(codec: Codec, imageSequence: bool, filename: string, extension: Option<string>): (r: Result<string>)
    ensures r.Err? <==> imageSequence && extension.Some?
    ensures r.Err? ==> r.error == ExtensionError + extension.value
    ensures r.Ok? ==> filename <= r.value
    ensures r.Ok? && (imageSequence || extension.Some? || !HasDefaultExtension(codec)) ==> r.value == filename
    ensures !imageSequence && extension.None? ==>
      ((codec == H264 || codec == H265) ==> r == Ok(filename + ".mp4")) &&
      (codec == H264Mkv ==> r == Ok(filename + ".mkv")) &&
      ((codec == Vp8 || codec == Vp9) ==> r == Ok(filename + ".webm")) &&
      (codec == ProRes ==> r == Ok(filename + ".mov"))
  {
    if imageSequence then
      if extension.Some? then Err(ExtensionError + extension.value) else Ok(filename)
    else if extension.None? then
      Ok(filename + DefaultSuffix(codec))
    else
      Ok(filename)
  }

  /** `getOutputFilename`: `filename` and `extension` are updated by one `if` per codec group. */
  method GetOutputFilename(codec: Codec, imageSequence: bool, location: string, extensionOf: string -> Option<string>)
    returns (r: Result<string>)
    ensures r == OutputFilename(codec, imageSequence, location, extensionOf(location))
  {
    var filename := location;
    var extension := extensionOf(filename);
    if imageSequence {
      if extension.Some? {
        return Err(ExtensionError + extension.value);
      }
      return Ok(filename);
    }
    if extension.None? && !imageSequence {
      if codec == H264 || codec == H265 {
        filename := filename + ".mp4";
        extension := Some("mp4");
      }
      if codec == H264Mkv {
        filename := filename + ".mkv";
        extension := Some("mkv");
      }
      if codec == Vp8 || codec == Vp9 {
        filename := filename + ".webm";
        extension := Some("webm");
      }
      if codec == ProRes {
        filename := filename + ".mov";
        extension := Some("mov");
      }
    }
    return Ok(filename);
  }

  /**
   * Feeding the result back in changes nothing, as long as the extension reader recognises the
   * extension that was added: a completed name is accepted as it is.
   */
  lemma OutputFilenameIsStable(codec: Codec, imageSequence: bool, filename: string, extensionOf: string -> Option<string>)
    requires HasDefaultExtension(codec) ==> extensionOf(filename + DefaultSuffix(codec)).Some?
    requires OutputFilename(codec, imageSequence, filename, extensionOf(filename)).Ok?
    ensures var r := OutputFilename(codec, imageSequence, filename, extensionOf(filename));
      OutputFilename(codec, imageSequence, r.value, extensionOf(r.value)) == r
  {
    if !imageSequence && extensionOf(filename).None? && !HasDefaultExtension(codec) {
      assert filename + DefaultSuffix(codec) == filename;
    }
  }
}
