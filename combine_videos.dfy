/**
 * `combineVideos` (packages/renderer/src/combine-videos.ts): the concat list file, the argument
 * list of the concatenating ffmpeg, and the removal of the list directory on success and on
 * failure. Running ffmpeg is not part of this model: its outcome and its stderr are inputs.
 */
module CombineVideos {

  import opened Wrappers
  import opened Text
  import opened Codecs
  import opened FfmpegArgs

  /** One `file '<path>'` line per input, in input order, joined by newlines. */
  function FileList(files: seq<string>): string {
    Join(FileLines(files), "\n")
  }

  function FileLines(files: seq<string>): (r: seq<string>)
    ensures |r| == |files| && forall i :: 0 <= i < |files| ==> r[i] == "file '" + files[i] + "'"
  {
    seq(|files|, i requires 0 <= i < |files| => "file '" + files[i] + "'")
  }

  /** The list names the inputs in order: split at its newlines it gives one line per input. */
  lemma FileListLines(files: seq<string>)
    requires |files| >= 1
    requires forall i :: 0 <= i < |files| ==> '\n' !in files[i]
    ensures Split(FileList(files), '\n') == FileLines(files)
  {
    var lines := FileLines(files);
    forall i | 0 <= i < |lines| ensures '\n' !in lines[i] {
      assert lines[i] == "file '" + files[i] + "'";
    }
    SplitJoin(lines, '\n');
  }

  /** `String(fps)` for the whole frame rates this model admits. */
  function FpsString(fps: nat): string {
    NatToString(fps)
  }

  /** An optional entry as a list of zero or one entries. */
  function OptionalEntry(x: Option<string>): seq<string> {
    if x.Some? then [x.value] else []
  }

  /**
   * The arguments with the `null` entries left out, before `.filter(Internals.truthy)` drops the
   * empty strings. The audio codec name comes from `getAudioCodecName`, which is not part of this
   * model.
   */
  function Entries(codec: Codec, fps: nat, fileListTxt: string, numberOfGifLoops: Option<int>,
                   audioCodecName: Option<string>, output: string): seq<string> {
    InputEntries(codec, fps, fileListTxt, numberOfGifLoops) + VideoCodecEntries(codec) +
    OutputEntries(codec, audioCodecName, output)
  }

  /** Frame rate (not for audio), the concat demuxer reading the list, and the loop count. */
  function InputEntries(codec: Codec, fps: nat, fileListTxt: string, numberOfGifLoops: Option<int>): seq<string> {
    (if IsAudioCodec(codec) then [] else ["-r", FpsString(fps)]) +
    ["-f", "concat", "-safe", "0", "-i", fileListTxt] +
    (if numberOfGifLoops.None? then [] else ["-loop", IntToString(numberOfGifLoops.value)])
  }

  /** The video stream is copied, or re-encoded for gif; audio codecs have none. */
  function VideoCodecEntries(codec: Codec): seq<string> {
    if IsAudioCodec(codec) then [] else ["-c:v", if codec == Gif then "gif" else "copy"]
  }

  /** Audio codec and bitrate, `faststart` for h264, and the output. */
  function OutputEntries(codec: Codec, audioCodecName: Option<string>, output: string): seq<string> {
    ["-c:a"] + OptionalEntry(audioCodecName) + ["-b:a", "512K"] +
    (if codec == H264 then ["-movflags", "faststart"] else []) + ["-shortest", "-y", output]
  }

  function Args(codec: Codec, fps: nat, fileListTxt: string, numberOfGifLoops: Option<int>,
                audioCodecName: Option<string>, output: string): seq<string> {
    Truthy(Entries(codec, fps, fileListTxt, numberOfGifLoops, audioCodecName, output))
  }

  /** The arguments always end with `-shortest`, `-y` and the output. */
  lemma ArgsEnd(codec: Codec, fps: nat, fileListTxt: string, numberOfGifLoops: Option<int>,
                audioCodecName: Option<string>, output: string)
    requires output != ""
    ensures var a := Args(codec, fps, fileListTxt, numberOfGifLoops, audioCodecName, output);
      |a| >= 3 && a[|a| - 3..] == ["-shortest", "-y", output]
  {
    var e := Entries(codec, fps, fileListTxt, numberOfGifLoops, audioCodecName, output);
    var tail := ["-shortest", "-y", output];
    assert e == e[..|e| - 3] + tail;
    TruthyAppend(e[..|e| - 3], tail);
    TruthyKeeps(tail);
  }

  /** The entries split into the parts each flag is looked for in. */
  lemma EntriesParts(codec: Codec, fps: nat, fileListTxt: string, numberOfGifLoops: Option<int>,
                     audioCodecName: Option<string>, output: string)
    ensures var e := Entries(codec, fps, fileListTxt, numberOfGifLoops, audioCodecName, output);
      forall x :: x in e <==>
        (!IsAudioCodec(codec) && x in ["-r", FpsString(fps), "-c:v", if codec == Gif then "gif" else "copy"]) ||
        x in ["-f", "concat", "-safe", "0", "-i", fileListTxt, "-c:a", "-b:a", "512K", "-shortest", "-y", output] ||
        (numberOfGifLoops.Some? && x in ["-loop", IntToString(numberOfGifLoops.value)]) ||
        (x in OptionalEntry(audioCodecName)) ||
        (codec == H264 && x in ["-movflags", "faststart"])
  {
  }

  /** A flag that is none of the caller's strings and none of the fixed entries. */
  predicate OwnFlag(flag: string, fileListTxt: string, audioCodecName: Option<string>, output: string) {
    |flag| >= 2 && flag[0] == '-' && !IsDigit(flag[1]) &&
    flag !in ["-f", "-safe", "-i", "-c:a", "-b:a", "-shortest", "-y"] &&
    flag != fileListTxt && flag != output && flag != "" &&
    (audioCodecName.Some? ==> flag != audioCodecName.value)
  }

  lemma FlagInArgs(codec: Codec, fps: nat, fileListTxt: string, numberOfGifLoops: Option<int>,
                   audioCodecName: Option<string>, output: string, flag: string)
    requires OwnFlag(flag, fileListTxt, audioCodecName, output)
    ensures flag in Args(codec, fps, fileListTxt, numberOfGifLoops, audioCodecName, output) <==>
      (!IsAudioCodec(codec) && (flag == "-r" || flag == "-c:v")) ||
      (numberOfGifLoops.Some? && flag == "-loop") ||
      (codec == H264 && flag == "-movflags")
  {
    EntriesParts(codec, fps, fileListTxt, numberOfGifLoops, audioCodecName, output);
    assert IsDigit(FpsString(fps)[0]);
    if numberOfGifLoops.Some? {
      NumberIsNotFlag(numberOfGifLoops.value, flag);
    }
  }

  /**
   * Audio codecs get neither a frame rate nor a video codec; `-loop` is there exactly when a loop
   * count is given; `-movflags faststart` exactly for h264.
   */
  lemma FlagsPresentExactly(codec: Codec, fps: nat, fileListTxt: string, numberOfGifLoops: Option<int>,
                            audioCodecName: Option<string>, output: string)
    requires Plain(fileListTxt) && Plain(output)
    requires audioCodecName.Some? ==> Plain(audioCodecName.value)
    ensures var a := Args(codec, fps, fileListTxt, numberOfGifLoops, audioCodecName, output);
      ("-r" in a <==> !IsAudioCodec(codec)) &&
      ("-c:v" in a <==> !IsAudioCodec(codec)) &&
      ("-loop" in a <==> numberOfGifLoops.Some?) &&
      ("-movflags" in a <==> codec == H264)
  {
    var parts := (fileListTxt, audioCodecName, output);
    OwnFlagOfPlain("-r", parts);
    FlagInArgs(codec, fps, fileListTxt, numberOfGifLoops, audioCodecName, output, "-r");
    OwnFlagOfPlain("-c:v", parts);
    FlagInArgs(codec, fps, fileListTxt, numberOfGifLoops, audioCodecName, output, "-c:v");
    OwnFlagOfPlain("-loop", parts);
    FlagInArgs(codec, fps, fileListTxt, numberOfGifLoops, audioCodecName, output, "-loop");
    OwnFlagOfPlain("-movflags", parts);
    FlagInArgs(codec, fps, fileListTxt, numberOfGifLoops, audioCodecName, output, "-movflags");
  }

  /** The four flags looked for are none of the fixed entries and, starting with `-`, none of the caller's strings. */
  lemma OwnFlagOfPlain(flag: string, parts: (string, Option<string>, string))
    requires flag == "-r" || flag == "-c:v" || flag == "-loop" || flag == "-movflags"
    requires Plain(parts.0) && Plain(parts.2) && (parts.1.Some? ==> Plain(parts.1.value))
    ensures OwnFlag(flag, parts.0, parts.1, parts.2)
  {
  }

  /** The video codec argument right after `-c:v` is 'gif' for gif output and 'copy' otherwise. */
  lemma VideoCodecArgument(codec: Codec, fps: nat, fileListTxt: string, numberOfGifLoops: Option<int>,
                           audioCodecName: Option<string>, output: string)
    requires !IsAudioCodec(codec)
    ensures var a := Args(codec, fps, fileListTxt, numberOfGifLoops, audioCodecName, output);
      exists k :: 0 <= k < |a| - 1 && a[k] == "-c:v" && a[k + 1] == (if codec == Gif then "gif" else "copy")
  {
    var head := InputEntries(codec, fps, fileListTxt, numberOfGifLoops);
    var pair := VideoCodecEntries(codec);
    var rest := OutputEntries(codec, audioCodecName, output);
    TruthyAppend(head + pair, rest);
    TruthyAppend(head, pair);
    TruthyKeeps(pair);
    var k := |Truthy(head)|;
    var a := Args(codec, fps, fileListTxt, numberOfGifLoops, audioCodecName, output);
    assert a == Truthy(head) + pair + Truthy(rest);
    assert a[k] == "-c:v" && a[k + 1] == pair[1];
  }

  /** A file system as the files it holds, by path. */
  type Files = map<string, string>

  function Below(dir: string, path: string): bool {
    path == dir || StartsWith(path, dir + "/")
  }

  /** `rmSync(dir, {recursive: true})`. */
  function RemoveTree(fs: Files, dir: string): (r: Files)
    ensures forall p :: p in r <==> p in fs && !Below(dir, p)
    ensures forall p :: p in r ==> r[p] == fs[p]
  {
    map p | p in fs && !Below(dir, p) :: fs[p]
  }

  /** What one `combineVideos` call leaves behind. */
  datatype Combined = Combined(fs: Files, progress: seq<int>, outcome: Outcome)

  /**
   * Writes the list, runs ffmpeg (its stderr chunks and its outcome are inputs), reports the parsed
   * progress, and removes the list directory whether ffmpeg succeeded or not; on success the last
   * report is the number of frames, on failure the same error is rethrown.
   */
  function Combine(fs: Files, files: seq<string>, filelistDir: string, numberOfFrames: int,
                   parse: string -> Option<int>, stderr: seq<string>, run: Outcome): (r: Combined)
    ensures r.fs == RemoveTree(fs[filelistDir + "/files.txt" := FileList(files)], filelistDir)
    ensures (filelistDir + "/files.txt") !in r.fs
    ensures r.outcome == run
    ensures run.Pass? ==> r.progress == Reports(parse, stderr) + [numberOfFrames]
    ensures run.Fail? ==> r.progress == Reports(parse, stderr)
  {
    var listFile := filelistDir + "/files.txt";
    var written := fs[listFile := FileList(files)];
    assert StartsWith(listFile, filelistDir + "/");
    var reports := Reports(parse, stderr);
    if run.Pass? then Combined(RemoveTree(written, filelistDir), reports + [numberOfFrames], Pass)
    else Combined(RemoveTree(written, filelistDir), reports, run)
  }
}
