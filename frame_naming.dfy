/**
 * Frame-index arithmetic and file naming of `renderFrames` (packages/renderer/src/render-frames.ts)
 * and of the legacy renderer (packages/renderer/src/render.ts).
 */
module FrameNaming {

  import opened Wrappers
  import opened Text
  import opened Codecs

  /** `FrameRange`: one frame index, or an inclusive `[first, last]` pair. */
  datatype FrameRange = Single(frame: nat) | Span(first: nat, last: nat)

  /** A frame range that `getRealFrameRange` accepts for a composition of `duration` frames. */
  predicate ValidRange(duration: nat, range: Option<FrameRange>) {
    duration >= 1 &&
    match range
    case None => true
    case Some(Single(f)) => f < duration
    case Some(Span(a, b)) => a <= b < duration
  }

  /**
   * The resolved inclusive range `[first, last]` of a render (`getRealFrameRange`, which is not part
   * of this model, so this is a reference definition): the whole composition without a range, the
   * frame itself for a single frame, the pair for a span. A frame or span outside the composition
   * is rejected with `outOfRange`, the helper's error.
   */
  function RealFrameRange(duration: nat, range: Option<FrameRange>, outOfRange: string): (r: Result<(nat, nat)>)
    ensures r.Ok? <==> ValidRange(duration, range)
    ensures r.Err? ==> r.error == outOfRange
    ensures r.Ok? ==> r.value.0 <= r.value.1 < duration
    ensures r.Ok? && range.None? ==> r.value == (0, duration - 1)
    ensures r.Ok? && range.Some? && range.value.Single? ==> r.value == (range.value.frame, range.value.frame)
    ensures r.Ok? && range.Some? && range.value.Span? ==> r.value == (range.value.first, range.value.last)
  {
    if !ValidRange(duration, range) then Err(outOfRange)
    else
      match range
      case None => Ok((0, duration - 1))
      case Some(Single(f)) => Ok((f, f))
      case Some(Span(a, b)) => Ok((a, b))
  }

  /** Number of frames in a resolved range (`getDurationFromFrameRange`). */
  function FrameCount(r: (nat, nat)): (n: nat)
    requires r.0 <= r.1
    ensures n >= 1 && r.0 + n - 1 == r.1
  {
    r.1 - r.0 + 1
  }

  /** `initialFrame`: the frame a freshly opened tab is set to. */
  function InitialFrame(range: Option<FrameRange>): (f: nat)
    ensures range.None? ==> f == 0
    ensures range.Some? && range.value.Single? ==> f == range.value.frame
    ensures range.Some? && range.value.Span? ==> f == range.value.first
  {
    match range
    case None => 0
    case Some(Single(n)) => n
    case Some(Span(a, _)) => a
  }

  /** Task `index` renders frame `first + index`. */
  function TaskFrame(r: (nat, nat), index: nat): nat {
    r.0 + index
  }

  /** Every task lands inside the range, and every frame of the range is rendered by exactly one task. */
  lemma TaskFramesCoverRange(r: (nat, nat), index: nat, frame: nat)
    requires r.0 <= r.1
    ensures index < FrameCount(r) ==> r.0 <= TaskFrame(r, index) <= r.1
    ensures r.0 <= frame <= r.1 ==>
      frame - r.0 < FrameCount(r) && TaskFrame(r, frame - r.0) == frame &&
      forall j :: 0 <= j < FrameCount(r) && TaskFrame(r, j) == frame ==> j == frame - r.0
  {
  }

  /** `String(lastFrameIndex).length`: the width every file number is padded to. */
  function PadLength(lastFrameIndex: nat): (n: nat)
    ensures n == |NatToString(lastFrameIndex)|
  {
    DigitCount(lastFrameIndex)
  }

  /** `String(frame).padStart(pad, '0')`. */
  function PaddedIndex(frame: nat, pad: nat): string {
    PadStart(NatToString(frame), pad, '0')
  }

  /**
   * Every frame of the range is written with exactly PadLength digits, and those digits read back
   * as the frame index, so distinct frames get distinct names of equal width.
   */
  lemma {:induction false} PaddedIndexInRange(frame: nat, lastFrameIndex: nat)
    requires frame <= lastFrameIndex
    ensures |PaddedIndex(frame, PadLength(lastFrameIndex))| == PadLength(lastFrameIndex)
    ensures AllDigits(PaddedIndex(frame, PadLength(lastFrameIndex)))
    ensures ParseNat(PaddedIndex(frame, PadLength(lastFrameIndex))) == frame
  {
    DigitCountMonotone(frame, lastFrameIndex);
    var digits := NatToString(frame);
    var pad := PadLength(lastFrameIndex);
    var zeros := Repeat('0', if |digits| >= pad then 0 else pad - |digits|);
    assert PaddedIndex(frame, pad) == zeros + digits;
    ParseNatLeadingZeros(zeros, digits);
    ParseNatToString(frame);
  }

  lemma PaddedIndexInjective(f1: nat, f2: nat, lastFrameIndex: nat)
    requires f1 <= lastFrameIndex && f2 <= lastFrameIndex
    requires PaddedIndex(f1, PadLength(lastFrameIndex)) == PaddedIndex(f2, PadLength(lastFrameIndex))
    ensures f1 == f2
  {
    PaddedIndexInRange(f1, lastFrameIndex);
    PaddedIndexInRange(f2, lastFrameIndex);
  }

  /** The name every captured frame file starts with. */
  const FramePrefix := "element-"

  /** `element-<padded>.<format>`: the file a frame is captured to. */
  function FrameFileName(padded: string, format: ImageFormat): string {
    FramePrefix + padded + "." + ImageFormatName(format)
  }

  /** `element-%0<pad>d.<format>`: the image-sequence pattern handed to the stitcher. */
  function ImageSequenceName(pad: nat, format: ImageFormat): string {
    FramePrefix + "%0" + NatToString(pad) + "d." + ImageFormatName(format)
  }

  /**
   * How a `%0<width>d` pattern is expanded for one frame number (the image2 pattern convention of
   * ffmpeg): the text before `%` and after `d` is copied, the number is zero-padded to `width`.
   */
  function ExpandFramePattern(pattern: string, frame: nat): Option<string> {
    if '%' !in pattern then None
    else
      var i := IndexOf(pattern, '%');
      ExpandWidth(pattern[..i], pattern[i + 1..], frame)
  }

  /** The expansion once `prefix%` is read: `0`, the width's digits, `d`, then the text copied. */
  function ExpandWidth(prefix: string, rest: string, frame: nat): Option<string> {
    if |rest| < 2 || rest[0] != '0' || 'd' !in rest then None
    else
      var j := IndexOf(rest, 'd');
      if j < 2 || !AllDigits(rest[1..j]) then None
      else Some(prefix + PadStart(NatToString(frame), ParseNat(rest[1..j]), '0') + rest[j + 1..])
  }

  lemma {:induction false} IndexOfAfter(a: string, c: char, b: string)
    requires c !in a
    ensures c in a + [c] + b && IndexOf(a + [c] + b, c) == |a|
    ensures (a + [c] + b)[..|a|] == a && (a + [c] + b)[|a| + 1..] == b
    decreases |a|
  {
    var s := a + [c] + b;
    assert s[|a|] == c;
    if |a| > 0 {
      assert s[1..] == a[1..] + [c] + b;
      IndexOfAfter(a[1..], c, b);
    }
  }

  /** A pattern `<prefix>%0<digits>d<suffix>` expands to the prefix, the padded number and the suffix. */
  lemma ExpandPatternOf(prefix: string, digits: string, suffix: string, frame: nat)
    requires '%' !in prefix && |digits| >= 1 && AllDigits(digits)
    ensures ExpandFramePattern(prefix + ['%'] + (['0'] + digits + ['d'] + suffix), frame)
      == Some(prefix + PadStart(NatToString(frame), ParseNat(digits), '0') + suffix)
  {
    ExpandAfterPercent(prefix, ['0'] + digits + ['d'] + suffix, frame);
    WidthThenD(prefix, digits, suffix, frame);
  }

  /** The width `0<digits>`, the first `d`, then the suffix, which is copied. */
  lemma WidthThenD(prefix: string, digits: string, suffix: string, frame: nat)
    requires |digits| >= 1 && AllDigits(digits)
    ensures ExpandWidth(prefix, ['0'] + digits + ['d'] + suffix, frame)
      == Some(prefix + PadStart(NatToString(frame), ParseNat(digits), '0') + suffix)
  {
    var head := ['0'] + digits;
    assert 'd' !in head by {
      forall k | 0 <= k < |digits| ensures digits[k] != 'd' { assert IsDigit(digits[k]); }
    }
    IndexOfAfter(head, 'd', suffix);
    var rest := head + ['d'] + suffix;
    assert rest[1..|head|] == digits;
  }

  /** With no `%` before it, the expansion is decided by the text after the first `%`. */
  lemma ExpandAfterPercent(prefix: string, rest: string, frame: nat)
    requires '%' !in prefix
    ensures ExpandFramePattern(prefix + ['%'] + rest, frame) == ExpandWidth(prefix, rest, frame)
  {
    IndexOfAfter(prefix, '%', rest);
  }

  /** The pattern returned by `renderFrames` expands to exactly the names its frames were written to. */
  lemma {:induction false} SequenceNameMatchesFileNames(frame: nat, lastFrameIndex: nat, format: ImageFormat)
    requires frame <= lastFrameIndex
    ensures ExpandFramePattern(ImageSequenceName(PadLength(lastFrameIndex), format), frame)
      == Some(FrameFileName(PaddedIndex(frame, PadLength(lastFrameIndex)), format))
  {
    var pad := PadLength(lastFrameIndex);
    var digits := NatToString(pad);
    var suffix := "." + ImageFormatName(format);
    SequenceNameParts(pad, format);
    assert '%' !in FramePrefix;
    ParseNatToString(pad);
    ExpandPatternOf(FramePrefix, digits, suffix, frame);
  }

  /** The sequence name and a file name, cut where the expansion reads them. */
  lemma SequenceNameParts(pad: nat, format: ImageFormat)
    ensures var suffix := "." + ImageFormatName(format);
      ImageSequenceName(pad, format) == FramePrefix + ['%'] + (['0'] + NatToString(pad) + ['d'] + suffix) &&
      forall padded :: FrameFileName(padded, format) == FramePrefix + padded + suffix
  {
    AroundPercent(FramePrefix, NatToString(pad), ImageFormatName(format));
    forall padded ensures FrameFileName(padded, format) == FramePrefix + padded + ("." + ImageFormatName(format)) {
      AroundDot(FramePrefix, padded, ImageFormatName(format));
    }
  }

  lemma AroundPercent(prefix: string, digits: string, name: string)
    ensures prefix + "%0" + digits + "d." + name == prefix + ['%'] + (['0'] + digits + ['d'] + ("." + name))
  {
    assert "%0" == ['%'] + ['0'] && "d." == ['d'] + ".";
  }

  lemma AroundDot(prefix: string, middle: string, name: string)
    ensures prefix + middle + "." + name == prefix + middle + ("." + name)
  {
  }

  /** `filePadLength` of the legacy renderer: 0 for an empty range, else the digits of `frameCount - 1`. */
  function LegacyPadLength(frameCount: nat): (n: nat)
    ensures frameCount == 0 <==> n == 0
    ensures frameCount > 0 ==> n == |NatToString(frameCount - 1)|
  {
    if frameCount == 0 then 0 else DigitCount(frameCount - 1)
  }

  /**
   * The legacy rule counts the digits of `frameCount - 1` while the frames it names are
   * `first + index`: with the range 95..104 the pad is 1, so frame 95 gets a two-digit and frame 104
   * a three-digit number, and the names are not of one width.
   */
  lemma LegacyPadLengthNotUniform()
    ensures var r := (95, 104);
      var pad := LegacyPadLength(FrameCount(r));
      pad == 1 &&
      |PaddedIndex(TaskFrame(r, 0), pad)| == 2 &&
      |PaddedIndex(TaskFrame(r, FrameCount(r) - 1), pad)| == 3
  {
    assert NatToString(95) == "95";
    assert NatToString(104) == "104";
  }

  /**
   * The legacy pad length as intended: the digits of the last frame the range names, as in
   * `renderFrames`, so that every file of the range gets a number of one width.
   */
  function LegacyPadLengthCorrected(first: nat, frameCount: nat): (n: nat)
    ensures frameCount == 0 <==> n == 0
    ensures frameCount > 0 ==> n == PadLength(first + frameCount - 1)
  {
    if frameCount == 0 then 0 else PadLength(first + frameCount - 1)
  }

  /** With the corrected pad every frame of the range is named with that many digits, reading back as the frame. */
  lemma LegacyNamesUniform(first: nat, frameCount: nat, index: nat)
    requires index < frameCount
    ensures var pad := LegacyPadLengthCorrected(first, frameCount);
      var padded := PaddedIndex(first + index, pad);
      |padded| == pad && AllDigits(padded) && ParseNat(padded) == first + index
  {
    PaddedIndexInRange(first + index, first + frameCount - 1);
  }

  /** `quality` is only accepted together with the 'jpeg' image format. */
  function ValidateQuality(quality: Option<int>, format: ImageFormat): (o: Outcome)
    ensures o.Fail? <==> quality.Some? && format != Jpeg
  {
    if quality.Some? && format != Jpeg then
      Fail("You can only pass the `quality` option if `imageFormat` is 'jpeg'.")
    else Pass
  }
}
