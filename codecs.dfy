/** The enumerations the renderer passes around: output codecs and frame image formats. */
module Codecs {

  /** The `Codec` union of the renderer. */
  datatype Codec = H264 | H265 | Vp8 | Vp9 | Mp3 | Aac | Wav | ProRes | H264Mkv | Gif

  /** The `ImageFormat` union: how a frame is captured, or not at all. */
  datatype ImageFormat = Png | Jpeg | NoImage

  function ImageFormatName(f: ImageFormat): (s: string)
    ensures |s| > 0
  {
    match f
    case Png => "png"
    case Jpeg => "jpeg"
    case NoImage => "none"
  }

  /** The codecs whose output is audio only (`isAudioCodec`). */
  predicate IsAudioCodec(c: Codec) {
    c == Mp3 || c == Aac || c == Wav
  }

  /** The codec used when none is given (`DEFAULT_CODEC`). */
  const DefaultCodec: Codec := H264

  /** The pixel format used when none is given (`DEFAULT_PIXEL_FORMAT`). */
  const DefaultPixelFormat: string := "yuv420p"
}
