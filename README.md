# A verified model of Remotion's rendering core

Remotion renders videos from React compositions. It captures every frame of a composition in a
headless browser, pipes the frames into ffmpeg and stitches them with the audio. This project
models in Dafny the bookkeeping that drives that pipeline, and proves what the code promises about
it. The modelled parts are:

- **Renderer** (`packages/renderer`). This covers:
  - the choice between pre-encoding and a temporary frame directory in `renderMedia`;
  - the in-order hand-off of frames to the pre-spawned encoder;
  - the progress state, the cancel-on-failure path and the cleanup;
  - frame-index arithmetic and file naming in `renderFrames` and in the legacy renderer;
  - the ffmpeg argument lists of `prespawnFfmpeg` and `combineVideos`;
  - the frame extraction behind `<OffthreadVideo>` and its HTTP routing;
  - the chunked asset conversion;
  - the browser check and download of `ensureBrowser`.
- **Media parser** (`packages/media-parser`). This covers the in-memory buffer writer, the Matroska
  cluster builder and the m3u parser state.
- **WebCodecs** (`packages/webcodecs`). This covers the video-encoder and audio-decoder wrappers over
  an abstract platform codec queue.
- **Shapes** (`packages/shapes`). This covers the SVG path serialiser and `makeCircle`.
- **Bundler** (`packages/bundler`). This covers the slash-trimming helpers and the `publicDir`
  of `bundle`.
- **Command line** (`packages/cli`). This covers:
  - output-filename defaulting;
  - the `compositions` table;
  - the `upgrade` command;
  - the bundle-cache decisions;
  - the entry-point classification.

There is one module per source file. Code that is made of expressions is modelled as datatypes,
functions and lemmas. Code that updates state is modelled as classes whose methods are proved
against a step function on a value state, with lemmas about that function.

Browsers, ffmpeg, the file system, the network and the helpers these files import are not part of
this model. Each one becomes an input or a function-valued parameter with a stated contract.
These include `isServeUrl`, `getExtensionOfFilename`, `canUseParallelEncoding`, `parseFfmpegProgress`,
`ensureFramesInOrder`, `cacheExists`, the package-manager detection and the registry lookup.

## Model

| member | source | states |
|---|---|---|
| RenderMedia.ChoosePlaces | packages/renderer/src/render-media.ts:140-152 | exactly one of the pre-encode file and the temporary frame directory is set; the pre-encode file `<tmpdir>/pre-encode.<ext>` is chosen exactly when the codec allows parallel encoding |
| RenderMedia.ActualImageFormat | packages/renderer/src/render-media.ts:141 | the image format is the one given, `jpeg` when none is |
| RenderMedia.Initial | packages/renderer/src/render-media.ts:129-136 | a render starts in the `encoding` stage with both counters 0, not cancelled and nothing reported |
| RenderMedia.Assign | packages/renderer/src/render-media.ts:198-311 | each reporting callback sets exactly its own variables and nothing else: pre-encoder progress the encoded count, the render start the rendered count to 0, a frame update the rendered count, the end of rendering its done flag, stitcher progress the stage to `muxing` and the encoded count |
| RenderMedia.Step | packages/renderer/src/render-media.ts:161-311 | every callback but the caller's cancel reports exactly one snapshot of the state it leaves; the cancel only cancels frame rendering |
| RenderMedia.StageOnlyMovesToMuxing | packages/renderer/src/render-media.ts:129-311 | after any sequence of callbacks the stage is `muxing` exactly when it was before or some stitcher progress fired: it never goes back to `encoding` |
| RenderMedia.ReplayReports | packages/renderer/src/render-media.ts:161-182 | callbacks never reset `cancelled`, and the number of reports grows by the number of callbacks other than the cancel signal |
| RenderMedia.WaitForPrestitcher | packages/renderer/src/render-media.ts:214-224 | without a pre-encoder there is nothing to wait for; a failing pre-encoder fails with its captured log as the message, a succeeding one passes |
| RenderMedia.Succeed | packages/renderer/src/render-media.ts:323-330 | on success `encodedFrames` becomes the range duration and that state is the last report; stage, rendered count and `cancelled` are unchanged |
| RenderMedia.Failed | packages/renderer/src/render-media.ts:332-354 | a failure sets `cancelled`, fires all three cancel signals and kills a pre-encoder that has not exited; nothing is reported |
| RenderMedia.Cleanup | packages/renderer/src/render-media.ts:356-363 | the pre-encoded file is removed if there is one; no other file is touched |
| RenderMedia.HappyPath | packages/renderer/src/render-media.ts:226-331 | stages run in order and the first rejection (pre-spawn, frame rendering, the pre-encoder's log, stitching) is the result; success exactly when every stage succeeds, with the stitcher's output |
| RenderMedia.Settle | packages/renderer/src/render-media.ts:116-372 | for a pre-encoder that exists exactly when a pre-encode file was chosen and spawning it resolved: a failing upfront check, the frame range's resolution included, throws its error with nothing reported, cancelled or cleaned up; otherwise the result is the happy path's, the same error rethrown, unless the caller's cancel wins with `renderMedia() got cancelled`; success runs the success step, failure the cancel path, and cleanup always runs |
| RenderMedia.UpfrontOrder | packages/renderer/src/render-media.ts:116-174 | the upfront checks decide in the source's order and the first failing one is the error: quality, the CRF only when one is given, the output file name only when an output location is given, the scale, the even dimensions, then the frame range |
| RenderMedia.RangeCheck | packages/renderer/src/render-media.ts:171-174 | resolving the frame range throws exactly when it does not fit the composition, with `getRealFrameRange`'s error |
| RenderMedia.BadFrameRangeThrows | packages/renderer/src/render-media.ts:171-174 | when the other checks pass, a frame range outside the composition makes the call throw that error before any stage runs, whatever the stages would do |
| RenderMedia.OddDimensionsThrowFirst | packages/renderer/src/render-media.ts:154-159 | when the earlier checks pass, odd dimensions the codec rejects make the call throw that error before any stage runs, whatever the stages would do |
| RenderMedia.SettleCleansUp | packages/renderer/src/render-media.ts:323-363 | once the upfront checks pass, whatever the stages do the pre-encoded file is gone; a failure leaves every cancel signal fired; a success reports the range duration last |
| RenderMedia.RenderState.constructor | packages/renderer/src/render-media.ts:129-136 | the `let` variables start as the initial state |
| RenderMedia.RenderState.Report | packages/renderer/src/render-media.ts:161-169 | `callUpdate` appends a snapshot of the current variables |
| RenderMedia.CallUpdate | packages/renderer/src/render-media.ts:161-169 | `callUpdate` appends a snapshot of the reported variables; ReplayReports counts the snapshots |
| RenderMedia.RenderState.EncoderSpawned | packages/renderer/src/render-media.ts:210 | spawning the pre-encoder changes only `stitcherFfmpeg` |
| RenderMedia.RenderState.OnEvent | packages/renderer/src/render-media.ts:180-311 | a callback updates the variables as the step function says |
| RenderMedia.RenderState.AssignFor | packages/renderer/src/render-media.ts:198-311 | the assignment part of a callback, before its report |
| RenderMedia.RenderState.OnSuccess | packages/renderer/src/render-media.ts:323-330 | the success continuation, as the success step says |
| RenderMedia.RenderState.OnFailure | packages/renderer/src/render-media.ts:332-354 | the `.catch` cancels everything and rethrows the same error |
| OrderedDelivery.Start | packages/renderer/src/render-media.ts:184-185 | the hand-off starts with the turn at the first frame of the range, nothing piped |
| OrderedDelivery.Drain | packages/renderer/src/render-media.ts:248-259 | resuming waiters pipes the waiting frame whose turn it is, unless cancelled, and moves the turn on; range and `cancelled` unchanged |
| OrderedDelivery.Arrive | packages/renderer/src/render-media.ts:248-259 | a frame that finished rendering waits for its turn, then is piped unless cancelled, and hands the turn to the next frame |
| OrderedDelivery.Cancelled | packages/renderer/src/render-media.ts:337 | the failure path sets `cancelled` and changes nothing that was piped |
| OrderedDelivery.StartInv | packages/renderer/src/render-media.ts:184-185 | the hand-off invariant holds at the start |
| OrderedDelivery.DrainInv | packages/renderer/src/render-media.ts:249-258 | resuming keeps every piped frame's bytes and leaves no frame waiting on its turn |
| OrderedDelivery.PipedHasArrived | packages/renderer/src/render-media.ts:249-258 | a frame before the turn has been piped, so it has arrived: no frame is piped before its turn |
| OrderedDelivery.ArriveInv | packages/renderer/src/render-media.ts:248-259 | an arrival keeps the invariant: the piped frames are exactly the gap-free ascending run from the first frame up to the turn, each with its own bytes |
| OrderedDelivery.CancelInv | packages/renderer/src/render-media.ts:337 | cancelling keeps the invariant |
| OrderedDelivery.ArriveAfterCancel | packages/renderer/src/render-media.ts:250-337 | after cancellation an arriving frame pipes nothing and hands no turn onward |
| OrderedDelivery.ArriveAllInv | packages/renderer/src/render-media.ts:248-259 | any arrival order of distinct frames of the range keeps the invariant |
| OrderedDelivery.EveryOrderPipesTheRangeInOrder | packages/renderer/src/render-media.ts:248-259 | whatever order the frames finish in, once all have arrived without cancellation every frame was piped exactly once, in ascending order, with its own bytes |
| OrderedDelivery.FrameStitcher.constructor | packages/renderer/src/render-media.ts:184-185 | the shared fields start as the start state |
| OrderedDelivery.FrameStitcher.OnFrameBuffer | packages/renderer/src/render-media.ts:248-259 | the callback's effect on the shared fields and the encoder's stdin is that of one arrival |
| OrderedDelivery.FrameStitcher.Cancel | packages/renderer/src/render-media.ts:337 | `cancelled = true`, nothing else changes |
| OrderedDelivery.FrameStitcher.IsFinished | packages/renderer/src/render-media.ts:216 | the hand-off is finished exactly when the turn has passed the last frame |
| FrameNaming.RealFrameRange | packages/renderer/src/render-frames.ts:142-145 | a range is resolved exactly when it fits a non-empty composition, and otherwise is the out-of-range error; the resolved range is inclusive and inside the composition: the whole composition without a range, the frame itself for a single frame, the pair for a span |
| FrameNaming.FrameCount | packages/renderer/src/render-frames.ts:147-150 | a resolved range holds at least one frame, and the last frame is `first + count - 1` |
| FrameNaming.InitialFrame | packages/renderer/src/render-frames.ts:174-179 | a fresh tab starts at frame 0 without a range, at the frame for a single frame, at the first frame of a span |
| FrameNaming.TaskFramesCoverRange | packages/renderer/src/render-frames.ts:224-230 | task `index` renders a frame inside the range, and every frame of the range is rendered by exactly the task `frame - first` |
| FrameNaming.PadLength | packages/renderer/src/render-frames.ts:210 | file numbers are padded to the number of digits of the last frame index |
| FrameNaming.TaskFrame | packages/renderer/src/render-frames.ts:229 | task `index` renders frame `first + index`; TaskFramesCoverRange states that the tasks cover the range once each |
| FrameNaming.PaddedIndex | packages/renderer/src/render-frames.ts:236 | the frame number padded with zeros; PaddedIndexInRange and PaddedIndexInjective state its width, its digits and that it reads back |
| FrameNaming.ImageSequenceName | packages/renderer/src/render-frames.ts:333 | the `element-%0<pad>d.<format>` pattern; SequenceNameMatchesFileNames states that it expands to every written file name |
| FrameNaming.PaddedIndexInRange | packages/renderer/src/render-frames.ts:210-236 | every frame of the range gets exactly that many characters, all digits, which read back as the frame index |
| FrameNaming.PaddedIndexInjective | packages/renderer/src/render-frames.ts:210-236 | two frames of the range with the same padded number are the same frame |
| FrameNaming.SequenceNameMatchesFileNames | packages/renderer/src/render-frames.ts:272-333 | the `element-%0<pad>d.<format>` pattern returned to the stitcher expands, for every frame of the range, to the very file name that frame was written to |
| FrameNaming.LegacyPadLength | packages/renderer/src/render.ts:109-112 | the legacy pad is 0 for an empty range and otherwise the number of digits of `frameCount - 1` |
| FrameNaming.LegacyPadLengthNotUniform | packages/renderer/src/render.ts:109-126 | for the range 95..104 that pad is 1, and the first and last frame numbers come out two and three characters wide |
| FrameNaming.ValidateQuality | packages/renderer/src/render-frames.ts:385-389 | `quality` fails exactly when it is given and the image format is not `jpeg` |
| RenderFrames.Configure | packages/renderer/src/render-frames.ts:147-210 | the tasks cover `[first, last]` exactly and pad to the digits of `last` |
| RenderFrames.Start | packages/renderer/src/render-frames.ts:211-221 | before any task, nothing is stopped, the counter is 0 and every `assets` slot is empty |
| RenderFrames.Schedule | packages/renderer/src/render-frames.ts:302-316 | each of a task's assets is appended, unsettled and in order, to the downloads |
| RenderFrames.Task | packages/renderer/src/render-frames.ts:232-319 | a stopped render throws `Render was stopped`; without a frame-buffer callback or an output directory for an image format the task throws the missing-destination error; a throwing task changes nothing but rejects the returned promise unless it was rejected already; otherwise the frame is piped or written to its file (or neither for `none`), its slot gets its assets, and the counter rises by one and is reported |
| RenderFrames.TaskKeepsConsistent | packages/renderer/src/render-frames.ts:302-319 | after a task the counter still equals the number of finished tasks, and the reports are still 1, 2, ... each naming a frame of the range |
| RenderFrames.Settle | packages/renderer/src/render-frames.ts:302-316 | a settled download changes only its own flag; a failure reports `Error while downloading asset: <stack trace>` to `onError`, which rejects the returned promise with it unless it was rejected already |
| RenderFrames.Resolve | packages/renderer/src/render-frames.ts:327-351 | the first rejection, from `onError`, a throwing task or the cancel signal, is the result as soon as it happens; without one the result is there exactly when every task finished and every download settled, and carries the slots' assets, the first frame, the image-sequence pattern and the frame count |
| RenderFrames.Reject | packages/renderer/src/render-frames.ts:340-351 | a rejection is recorded only when the returned promise has not settled yet: neither rejected before nor resolved by the happy path |
| RenderFrames.OnError | packages/renderer/src/render-frames.ts:413-417 | `onError` reports the error and rejects the returned promise with it under the same rule |
| RenderFrames.PageError | packages/renderer/src/render-frames.ts:238-247 | an error of a page held by a task is reported and becomes the rejection unless there was one before |
| RenderFrames.Cancel | packages/renderer/src/render-frames.ts:220-223 | the cancel signal sets `stopped`, changes nothing else but the rejection, and rejects with `renderFrames() got cancelled` exactly when the result had not settled |
| RenderFrames.FailingTaskRejects | packages/renderer/src/render-frames.ts:224-345 | a task that throws settles the result with the first rejection at once, pending tasks and downloads notwithstanding |
| RenderFrames.StoppedRenderRejects | packages/renderer/src/render-frames.ts:231-234 | after a cancel, a task that still gets a tab throws `Render was stopped` and renders nothing, but the result stays the cancel's rejection |
| RenderFrames.FailedDownloadRejects | packages/renderer/src/render-frames.ts:303-316 | a failed download settles the result with the first rejection at once, which is its own prefixed stack trace when nothing rejected before |
| RenderFrames.CancelRejects | packages/renderer/src/render-frames.ts:346-350 | a cancel before the result settled rejects it with `renderFrames() got cancelled` |
| RenderFrames.ResultIsFinal | packages/renderer/src/render-frames.ts:340-351 | once the result settled, a cancel, a task or a download settling leaves it as it is |
| RenderFrames.RunAll | packages/renderer/src/render-frames.ts:224-230 | running the tasks in the order they get a tab keeps the counter equal to the finished tasks |
| RenderFrames.RunAllFillsSlots | packages/renderer/src/render-frames.ts:224-319 | in any order of distinct indices, exactly the slots of the tasks run so far are filled, each with its own assets, and the counter equals their number |
| RenderFrames.EveryTaskFillsItsSlot | packages/renderer/src/render-frames.ts:224-301 | once every index ran, every slot is filled and `framesRendered == frameCount` |
| RenderFrames.FramePathsDistinct | packages/renderer/src/render-frames.ts:236-275 | distinct frames of the range are written to distinct files |
| RenderFrames.FramePathShape | packages/renderer/src/render-frames.ts:272-275 | a frame is written to `<dir>/element-<padded>.<format>`, the directory and the name joined by one `/` |
| RenderFrames.FrameRenderer.constructor | packages/renderer/src/render-frames.ts:211-221 | the closure's variables start in the `Start` state |
| RenderFrames.FrameRenderer.OnCancelSignal | packages/renderer/src/render-frames.ts:220-223 | the cancel signal updates the closure's variables exactly as `Cancel` says |
| RenderFrames.FrameRenderer.OnPageError | packages/renderer/src/render-frames.ts:238-247 | a page error updates the variables exactly as `PageError` says |
| RenderFrames.FrameRenderer.RejectWith | packages/renderer/src/render-frames.ts:340-351 | a rejection updates the variables exactly as `Reject` says |
| RenderFrames.FrameRenderer.Complete | packages/renderer/src/render-frames.ts:302-320 | the end of a task fills its slot, schedules its downloads and reports the next count, as `Task` does on success |
| RenderFrames.FramePath | packages/renderer/src/render-frames.ts:272-275 | the file a written frame goes to; FramePathShape and FramePathsDistinct state its form and that distinct frames get distinct files |
| RenderFrames.FrameRenderer.RunTask | packages/renderer/src/render-frames.ts:230-321 | the task updates the closure's variables exactly as `Task` says and returns its outcome |
| RenderFrames.FrameRenderer.SettleDownload | packages/renderer/src/render-frames.ts:302-316 | a download settling updates the variables exactly as `Settle` says |
| FrameNaming.LegacyPadLengthCorrected | packages/renderer/src/render.ts:106-112 | the corrected legacy pad: 0 for an empty range, else the number of digits of the last frame of the range |
| FrameNaming.LegacyNamesUniform | packages/renderer/src/render.ts:109-126 | with the corrected pad every frame of the range is written with exactly that many digits, which read back as the frame |
| LegacyRender.Begin | packages/renderer/src/render.ts:61-118 | a `quality` with a format other than `jpeg` is rejected before anything starts; otherwise the pad is the corrected pad, the digits of the last frame of the range, `onStart` gets the frame count once, and no frame is rendered yet |
| LegacyRender.Fresh | packages/renderer/src/render.ts:114-120 | after `onStart` the counter is 0, no file is written and no index has its assets |
| LegacyRender.Task | packages/renderer/src/render.ts:122-150 | task `index` captures frame `first + index` to `element-<padded>.<format>` unless the format is `none`, fills slot `index` with its assets, and raises the counter by one and reports it |
| LegacyRender.RunAll | packages/renderer/src/render.ts:119-151 | running tasks in the order tabs free up keeps the reports equal to 1, 2, ..., the counter |
| LegacyRender.Assets | packages/renderer/src/render.ts:119-176 | the result exists exactly when every slot is filled, and then lists each index's assets in index order |
| LegacyRender.RunAllFills | packages/renderer/src/render.ts:119-151 | in any order of distinct indices, exactly the slots run so far are filled, each with its own assets |
| LegacyRender.EveryOrderGivesAssetsInIndexOrder | packages/renderer/src/render.ts:119-176 | whatever order the tabs free up in, the counter ends at the frame count after reporting 1..frameCount, and the result lists index `i`'s assets at position `i` |
| LegacyRender.LegacyRenderer.constructor | packages/renderer/src/render.ts:114-120 | the closure starts from a counted state |
| LegacyRender.LegacyRenderer.RunTask | packages/renderer/src/render.ts:122-150 | one task updates the closure exactly as `Task` says |
| LegacyRender.LegacyPath | packages/renderer/src/render.ts:136-139 | the file a frame is captured to, the output directory and `element-<padded>.<format>` joined by one `/` |
| FfmpegArgs.Truthy | packages/renderer/src/prespawn-ffmpeg.ts:113 | filtering keeps exactly the non-empty entries and never lengthens the list |
| FfmpegArgs.TruthyAppend | packages/renderer/src/prespawn-ffmpeg.ts:113 | filtering a concatenation concatenates the filtered parts, so the order of the entries is kept |
| FfmpegArgs.TruthyKeeps | packages/renderer/src/prespawn-ffmpeg.ts:113 | a list without empty entries comes through unchanged |
| FfmpegArgs.Reports | packages/renderer/src/prespawn-ffmpeg.ts:122-131 | every progress value reported comes from a stderr chunk that parsed to it, at most one per chunk |
| FfmpegArgs.ReportsAppend | packages/renderer/src/prespawn-ffmpeg.ts:125-130 | a new chunk adds its parsed value at the end, or nothing when it does not parse |
| PrespawnFfmpeg.Resolve | packages/renderer/src/prespawn-ffmpeg.ts:45-53 | codec, CRF and pixel format are the given ones, else the default codec, the codec's default CRF and the default pixel format |
| PrespawnFfmpeg.Prespawn | packages/renderer/src/prespawn-ffmpeg.ts:33-115 | the height, width, frame-rate, even-dimension and ffmpeg checks run first and the first that fails is the error; then a codec without an encoder name throws `encoderName is null: <options>`; then the CRF and pixel-format checks against the codec; the encoder is started, with exactly the flattened argument list, exactly when all of them pass |
| PrespawnFfmpeg.FirstFailure | packages/renderer/src/prespawn-ffmpeg.ts:34-81 | no error exactly when every check passes; otherwise the error of a failing check all of whose predecessors pass |
| PrespawnFfmpeg.OddDimensionsNotSpawned | packages/renderer/src/prespawn-ffmpeg.ts:46-51 | when the even-dimension check rejects the size for the codec, its error is the result and nothing is started, whatever encoder the codec has |
| PrespawnFfmpeg.InputArgs | packages/renderer/src/prespawn-ffmpeg.ts:84-92 | the input arguments: the frame rate, a piped image stream of the given size, and `mjpeg` or `png`; ArgsShape and InputArgsHaveNoSettingsFlag state their place and that they hold no settings flag |
| PrespawnFfmpeg.EncoderArgs | packages/renderer/src/prespawn-ffmpeg.ts:95-102 | the encoder settings; the `PresentExactly` lemmas state when each optional flag is among them |
| PrespawnFfmpeg.Args | packages/renderer/src/prespawn-ffmpeg.ts:83-113 | the flattened list without `null` entries; ArgsShape and the `PresentExactly` lemmas state its shape and its flags |
| PrespawnFfmpeg.ArgsShape | packages/renderer/src/prespawn-ffmpeg.ts:83-113 | the arguments start with the frame rate and the piped image input and end with `-y` and the output location |
| PrespawnFfmpeg.InputArgsHaveNoSettingsFlag | packages/renderer/src/prespawn-ffmpeg.ts:84-92 | no input argument is one of the encoder-settings flags |
| PrespawnFfmpeg.CrfPresentExactly | packages/renderer/src/prespawn-ffmpeg.ts:63-113 | `-crf` is among the arguments exactly when the codec is not ProRes |
| PrespawnFfmpeg.ProfilePresentExactly | packages/renderer/src/prespawn-ffmpeg.ts:57-113 | `-profile:v` is among the arguments exactly when a non-empty ProRes profile name was resolved |
| PrespawnFfmpeg.AutoAltRefPresentExactly | packages/renderer/src/prespawn-ffmpeg.ts:102-113 | `-auto-alt-ref` is among the arguments exactly for the pixel format `yuva420p` |
| FfmpegArgs.NumberIsNotFlag | packages/renderer/src/prespawn-ffmpeg.ts:84-97 | a number written out by `String` is never a flag like `-crf` |
| PrespawnFfmpeg.PreStitcher.constructor | packages/renderer/src/prespawn-ffmpeg.ts:121 | the log starts empty and nothing is reported |
| PrespawnFfmpeg.PreStitcher.OnStderr | packages/renderer/src/prespawn-ffmpeg.ts:122-131 | a chunk is appended to the log, and reported when it parses as progress |
| PrespawnFfmpeg.PreStitcher.GetLogs | packages/renderer/src/prespawn-ffmpeg.ts:132 | the logs are all chunks received so far, concatenated in order |
| CombineVideos.FileListLines | packages/renderer/src/combine-videos.ts:30 | the list file, split at its newlines, is one `file '<path>'` line per input, in input order |
| CombineVideos.ArgsEnd | packages/renderer/src/combine-videos.ts:36-65 | the arguments always end with `-shortest`, `-y` and the output |
| CombineVideos.FlagsPresentExactly | packages/renderer/src/combine-videos.ts:39-65 | `-r` and `-c:v` are there exactly for a video codec, `-loop` exactly when a loop count is given, `-movflags` exactly for h264 |
| CombineVideos.VideoCodecArgument | packages/renderer/src/combine-videos.ts:53-54 | for a video codec, `-c:v` is followed by `gif` for gif and by `copy` otherwise |
| CombineVideos.RemoveTree | packages/renderer/src/combine-videos.ts:78-80 | the recursive removal keeps exactly the files outside the directory, with their contents |
| CombineVideos.Combine | packages/renderer/src/combine-videos.ts:30-82 | the list file is written and gone again afterwards with its whole directory, on success and on failure; the parsed progress is reported in order, followed by the frame count only on success; a failure is rethrown as it is |
| CombineVideos.FileList | packages/renderer/src/combine-videos.ts:30 | the list file's text; FileListLines states that it is one `file '<path>'` line per input |
| CombineVideos.Args | packages/renderer/src/combine-videos.ts:36-65 | the ffmpeg arguments without the `null` entries; ArgsEnd, FlagsPresentExactly and VideoCodecArgument state their end and their flags |
| ExtractFrame.VcodecFlags | packages/renderer/src/extract-frame-from-video.ts:25-34 | `-vcodec libvpx-vp9` for a VP9 source, `-vcodec libvpx` for VP8, nothing otherwise |
| ExtractFrame.ResizeParams | packages/renderer/src/extract-frame-from-video.ts:36-44 | no arguments without a resize, else `-s <w>x<h>` |
| ExtractFrame.SlowCommand | packages/renderer/src/extract-frame-from-video.ts:67-82 | the slow command: `-itsoffset -<ms>ms`, the codec flags, the input, one frame in the image codec and the resize arguments; Slow names it in its error |
| ExtractFrame.FastCommand | packages/renderer/src/extract-frame-from-video.ts:159-177 | the fast command seeking to `<duration - offset>ms`; FastOffsetsBounded states the offsets it is run at |
| ExtractFrame.SeekCommand | packages/renderer/src/extract-frame-from-video.ts:295-314 | the seeking command at the frame's ffmpeg timestamp; Extract states when it is run |
| ExtractFrame.RetriesLeft | packages/renderer/src/extract-frame-from-video.ts:147-217 | how many retries are left before the 40 ms limit; RetriesDecrease and FastAttemptsBound state that it falls with each retry and bounds the attempts |
| ExtractFrame.Slow | packages/renderer/src/extract-frame-from-video.ts:48-123 | the slow command fails, with the corrupted-video message naming the command, exactly when ffmpeg reports an empty output, and otherwise returns its stdout |
| ExtractFrame.Step | packages/renderer/src/extract-frame-from-video.ts:216-217 | a retry moves 100 ms further back for an unknown frame rate, and always a positive amount when it is finite |
| ExtractFrame.RetriesDecrease | packages/renderer/src/extract-frame-from-video.ts:147-218 | each retry brings the offset closer to the 40 ms limit, so the retries end |
| ExtractFrame.CacheKey | packages/renderer/src/extract-frame-from-video.ts:130 | the cache is looked up with the options at offset 0 |
| ExtractFrame.Fast | packages/renderer/src/extract-frame-from-video.ts:125-230 | a cached last frame is returned as it is; an unknown duration is the "Could not determine the duration" error |
| ExtractFrame.FastOffsetsBounded | packages/renderer/src/extract-frame-from-video.ts:147-218 | the fast command runs only at offsets of at most 40 ms, starting at the given offset and each retry one step further back |
| ExtractFrame.FastAttemptsBound | packages/renderer/src/extract-frame-from-video.ts:147-218 | the number of fast attempts is bounded by the retries left before 40 ms, and is at most one for an unknown frame rate |
| ExtractFrame.FastResultOrigin | packages/renderer/src/extract-frame-from-video.ts:130-229 | a last frame comes from the cache, from the slow command at the duration, or from a fast command at a tried offset that did not report an empty output |
| ExtractFrame.LastFrame | packages/renderer/src/extract-frame-from-video.ts:232-242 | the result of the fast lookup is returned, and stored under the options when it succeeded |
| ExtractFrame.LastFrameCached | packages/renderer/src/extract-frame-from-video.ts:130-239 | once a last frame was stored for offset 0, the next lookup returns it from the cache without running ffmpeg |
| ExtractFrame.Extract | packages/renderer/src/extract-frame-from-video.ts:253-365 | VP8 takes the slow path at the requested time; a time marked beyond the last frame gets the last frame; otherwise the seeking command's frame is returned, and an empty result marks the time and returns the last frame |
| ExtractFrame.Vp8NeverSeeks | packages/renderer/src/extract-frame-from-video.ts:270-279 | a VP8 source leaves the caches alone and succeeds exactly when the slow command produced a frame |
| ExtractFrame.ExtractOnlyAddsToCaches | packages/renderer/src/extract-frame-from-video.ts:239-349 | the beyond-last-frame marks only grow and the last-frame cache only gains or updates the entry of the source's options |
| ExtractFrame.FrameExtractor.constructor | packages/renderer/src/extract-frame-from-video.ts:239-349 | both caches start empty |
| ExtractFrame.FrameExtractor.GetLastFrameOfVideo | packages/renderer/src/extract-frame-from-video.ts:232-242 | the lookup updates the last-frame cache exactly as `LastFrame` says and leaves the marks alone |
| ExtractFrame.FrameExtractor.ExtractFrameFromVideo | packages/renderer/src/extract-frame-from-video.ts:253-365 | the extraction updates both caches exactly as `Extract` says |
| OffthreadServer.ExtractUrlAndSource | packages/renderer/src/offthread-video-server.ts:9-42 | a request is accepted exactly when the query is not blank, `src`, `time` and `imageFormat` are given and the format passes validation; a blank query is `Expected query from <url>`; an accepted request carries `src`, the parsed time and the format |
| OffthreadServer.CheckOrder | packages/renderer/src/offthread-video-server.ts:12-33 | the first missing parameter, in the order `src`, `time`, `imageFormat`, decides the message whatever the later ones hold |
| OffthreadServer.Handle | packages/renderer/src/offthread-video-server.ts:57-66 | a request without URL throws `Request came in without URL`; a path outside `/proxy` gets an empty 404 with no headers and no download |
| OffthreadServer.ContentTypeFollowsFormat | packages/renderer/src/offthread-video-server.ts:69-73 | a valid proxy request is answered with CORS open and `image/jpg` exactly for `jpeg`, `image/png` otherwise |
| OffthreadServer.BadQueryThrows | packages/renderer/src/offthread-video-server.ts:68 | a bad query on a proxy path throws its message and nothing is downloaded or answered |
| OffthreadServer.ProxyOutcome | packages/renderer/src/offthread-video-server.ts:75-99 | a valid proxy request downloads its source once; it is answered 200 with the frame exactly when the download and the extraction succeed with a frame; otherwise 500 with an empty body, and the failure is reported to `onError` |
| AssetChunks.Chunk | packages/renderer/src/assets/convert-assets-to-file-urls.ts:6-12 | the reduce produces no chunk exactly for an empty input |
| AssetChunks.ChunkShape | packages/renderer/src/assets/convert-assets-to-file-urls.ts:6-12 | for `m` items there are `(m - 1) / size + 1` chunks, all but the last of `size` items, the last of `(m - 1) % size + 1`, and together they are the items in order |
| AssetChunks.ChunkProperties | packages/renderer/src/assets/convert-assets-to-file-urls.ts:6-12 | the chunks concatenate back to the input, there are `ceil(n / size)` of them, each non-empty and at most `size`, all but the last exactly `size` |
| AssetChunks.ResolveFrame | packages/renderer/src/assets/convert-assets-to-file-urls.ts:29-36 | one frame's downloads all resolve exactly when the frame resolves, to the resolutions in order; otherwise the error is that of a download that rejects |
| AssetChunks.MapFramesMeaning | packages/renderer/src/assets/convert-assets-to-file-urls.ts:27-39 | the frames resolve exactly when every download does, keeping frames and assets in shape with each asset replaced by its resolution; otherwise the error is that of a rejecting download |
| AssetChunks.MapFramesAppend | packages/renderer/src/assets/convert-assets-to-file-urls.ts:26-43 | resolving a concatenation of frames rejects with the first part's error, else the second part's, and otherwise concatenates the resolved parts |
| AssetChunks.NextChunk | packages/renderer/src/assets/convert-assets-to-file-urls.ts:26-43 | processing the next chunk extends the flattened results by exactly that chunk's frames, resolved, or, when the chunk rejects, makes everything so far reject with its error; its assets are the next requested |
| AssetChunks.RejectionOfPrefix | packages/renderer/src/assets/convert-assets-to-file-urls.ts:26-41 | a rejection among the chunks processed so far is the rejection of the whole input |
| AssetChunks.ConvertAssetsToFileUrls | packages/renderer/src/assets/convert-assets-to-file-urls.ts:14-44 | the call succeeds exactly when every download does; then the result has the input's frames in order and shape with every asset resolved, and every asset is requested exactly once, frame by frame, in order; otherwise it rejects with a download's error after requesting every chunk up to the rejecting one and none after it |
| EnsureBrowser.GetBrowserStatus | packages/renderer/src/ensure-browser.ts:65-89 | a given executable is used as it is when it exists, and is the "path doesn't exist" error otherwise |
| EnsureBrowser.StatusPrecedence | packages/renderer/src/ensure-browser.ts:65-89 | a given executable wins over the local browser, which wins over the pinned revision when it is installed and its executable exists, which wins over no browser: each kind is chosen exactly when it is available and every kind above it is not |
| EnsureBrowser.PuppeteerNeedsInstalledRevision | packages/renderer/src/ensure-browser.ts:83-86 | the pinned browser is only reported when its revision is local and its executable exists |
| EnsureBrowser.Uncapped | packages/renderer/src/ensure-browser.ts:39-54 | the download starts only when the first evaluation found no browser, and the outcome is the status evaluated again afterwards, or the first error |
| EnsureBrowser.DownloadOnlyWithoutBrowser | packages/renderer/src/ensure-browser.ts:45-50 | at most one download, and one exactly when there was no browser |
| EnsureBrowser.Defaults | packages/renderer/src/ensure-browser.ts:95-110 | no indent; log level `info` and no executable unless given; the `ensureBrowser()` progress bar unless a download callback is given |
| EnsureBrowser.EnsureQueue.constructor | packages/renderer/src/ensure-browser.ts:37 | the chain starts resolved, with nothing run and nothing downloaded |
| EnsureBrowser.EnsureQueue.InternalEnsureBrowser | packages/renderer/src/ensure-browser.ts:56-63 | once an operation failed, every later one fails with the same error without running; otherwise it runs after the previous ones and its failure poisons the chain |
| EnsureBrowser.EnsureQueue.Ensure | packages/renderer/src/ensure-browser.ts:95-111 | the public entry point runs the chained operation with the defaults filled in |
| BufferWriter.Created | packages/media-parser/src/writers/buffer.ts:3-31 | a new writer holds no bytes, is not removed and its chain has not rejected |
| BufferWriter.WriteStep | packages/media-parser/src/writers/buffer.ts:14-37 | after a rejection nothing changes; a write past 100,000,000 bytes rejects the chain with the resize `RangeError`; otherwise the bytes are appended and the data views the whole buffer |
| BufferWriter.Overwrite | packages/media-parser/src/writers/buffer.ts:23-27 | the bytes before `position` and after the patch stay, and the patch sits at `position`, without changing the length |
| BufferWriter.UpdateStep | packages/media-parser/src/writers/buffer.ts:23-57 | an update that does not fit inside the written bytes rejects the chain with the offset `RangeError`; one that fits overwrites in place; the length never changes |
| BufferWriter.RemoveStep | packages/media-parser/src/writers/buffer.ts:48-52 | `remove` marks the writer removed and keeps the buffer and the chain as they are |
| BufferWriter.SaveResult | packages/media-parser/src/writers/buffer.ts:38-47 | `save` rejects with `Already called .remove() on the result` exactly when `remove` was called |
| BufferWriter.SaveAfterRemove | packages/media-parser/src/writers/buffer.ts:38-53 | `save` after `remove` always rejects, and `remove` leaves the written byte count unchanged |
| BufferWriter.WritesInOrder | packages/media-parser/src/writers/buffer.ts:14-37 | two chained writes have the effect of one write of both, in call order |
| BufferWriter.UpdateAfterWrite | packages/media-parser/src/writers/buffer.ts:14-27 | an update of earlier bytes after a write overwrites them and leaves the appended bytes where they are |
| BufferWriter.PoisonedChain | packages/media-parser/src/writers/buffer.ts:29-60 | once the chain rejected, no sequence of later writes and updates changes anything, and each settles with that same error |
| BufferWriter.Writer.constructor | packages/media-parser/src/writers/buffer.ts:3-12 | the writer starts in the `Created` state over a fresh buffer |
| BufferWriter.Writer.Write | packages/media-parser/src/writers/buffer.ts:14-37 | the buffer and flags change exactly as `WriteStep` says, and the returned promise settles as the chain does |
| BufferWriter.Writer.UpdateDataAt | packages/media-parser/src/writers/buffer.ts:23-57 | the buffer and flags change exactly as `UpdateStep` says, and the returned promise settles as the chain does |
| BufferWriter.Writer.Save | packages/media-parser/src/writers/buffer.ts:38-47 | `save` answers as `SaveResult` of the current state |
| BufferWriter.Writer.Remove | packages/media-parser/src/writers/buffer.ts:48-52 | the state changes exactly as `RemoveStep` says |
| BufferWriter.Writer.GetWrittenByteCount | packages/media-parser/src/writers/buffer.ts:53 | the count is the number of bytes in the buffer |
| BufferWriter.Writer.WaitForFinish | packages/media-parser/src/writers/buffer.ts:58-60 | waiting settles as the write chain does |
| Cluster.CheckTimecodeAsWritten | packages/media-parser/src/create/cluster.ts:12-55 | the check as written accepts exactly the relative timecodes from 0 to 2^15 |
| Cluster.CheckTimecode | packages/media-parser/src/create/cluster.ts:42-55 | the corrected check accepts exactly 0 to 32767, and a negative timecode fails with `timecodeRelativeToCluster is negative (track <n>)` |
| Cluster.EncodeInt16 | packages/media-parser/src/create/cluster.ts:58-65 | a SimpleBlock timecode is written as two bytes |
| Cluster.Int16RoundTrip | packages/media-parser/src/create/cluster.ts:58-65 | every value of a signed 16-bit integer reads back unchanged from its two bytes |
| Cluster.AsWrittenAcceptsUnencodable | packages/media-parser/src/create/cluster.ts:12-55 | the check as written lets 32768 through, which reads back from the block as -32768 |
| Cluster.AcceptedTimecodesRoundTrip | packages/media-parser/src/create/cluster.ts:42-65 | every timecode the corrected check accepts reads back unchanged from the block |
| Cluster.ShouldMakeNewCluster | packages/media-parser/src/create/cluster.ts:75-80 | a new cluster is started exactly for a keyframe at least 2000 cluster time units after the cluster's start |
| Cluster.MakeCluster | packages/media-parser/src/create/cluster.ts:26-37 | the size field sits at the byte count before the header plus the Cluster element's offset plus the length of its ID; the size starts as the header less the ID and the size field; the header is written |
| Cluster.AddSampleStep | packages/media-parser/src/create/cluster.ts:39-73 | a rejected sample leaves the writer and the size alone; an accepted one grows the size by the block's length, rewrites the size field and only then appends the block, and a failed rewrite leaves the block unwritten |
| Cluster.AcceptedSampleLayout | packages/media-parser/src/create/cluster.ts:58-72 | when nothing fails, the bytes after an accepted sample are the old bytes with the new size field at its position, then the block, and the length grows by the block's length |
| Cluster.AddAll | packages/media-parser/src/create/cluster.ts:39-73 | adding samples one after another keeps the writer's content within its bounds |
| Cluster.ClusterSizeCountsAcceptedBlocks | packages/media-parser/src/create/cluster.ts:33-67 | after any run of samples the size is its start value plus the block lengths of the accepted samples; rejected samples count for nothing |
| Cluster.ClusterBuilder.constructor | packages/media-parser/src/create/cluster.ts:26-37 | opening a cluster changes the writer and fixes the size field's position and the size as `MakeCluster` says; the awaited header write's outcome is kept, a rejection when the chain had already failed, a success when it had not and the header fits |
| Cluster.ClusterBuilder.AddSample | packages/media-parser/src/create/cluster.ts:39-73 | one sample changes the writer and the size exactly as `AddSampleStep` says |
| M3uState.Initial | packages/media-parser/src/state/m3u-state.ts:14-23 | the state starts with no selected stream, neither track announced, every flag false and the last chunk at -1 |
| M3uState.Apply | packages/media-parser/src/state/m3u-state.ts:26-57 | each setter overwrites its own variable and no other, and the four flag setters only ever write `true` |
| M3uState.FlagsNeverReset | packages/media-parser/src/state/m3u-state.ts:38-57 | no sequence of calls turns a set flag back to false |
| M3uState.GettersReturnLastSet | packages/media-parser/src/state/m3u-state.ts:14-57 | after any calls from the initial state, each getter returns the value last passed to its setter, or the initial value when it was never called; a flag is true exactly when its setter was called |
| M3uState.NeverSetDiffersFromNull | packages/media-parser/src/state/m3u-state.ts:16-33 | a track getter still says `false` exactly when its setter was never called, and says `null` after it was called with `null` |
| M3uState.M3uStateHolder.constructor | packages/media-parser/src/state/m3u-state.ts:14-23 | the eight variables start as `Initial` says |
| M3uState.M3uStateHolder.SetSelectedStream | packages/media-parser/src/state/m3u-state.ts:26-28 | changes the state exactly as `Apply` of the call |
| M3uState.M3uStateHolder.GetSelectedStream | packages/media-parser/src/state/m3u-state.ts:29 | returns the selected stream |
| M3uState.M3uStateHolder.SetHasEmittedVideoTrack | packages/media-parser/src/state/m3u-state.ts:30-32 | changes the state exactly as `Apply` of the call |
| M3uState.M3uStateHolder.HasEmittedVideoTrack | packages/media-parser/src/state/m3u-state.ts:33 | returns the video-track variable |
| M3uState.M3uStateHolder.SetHasEmittedAudioTrack | packages/media-parser/src/state/m3u-state.ts:34-36 | changes the state exactly as `Apply` of the call |
| M3uState.M3uStateHolder.HasEmittedAudioTrack | packages/media-parser/src/state/m3u-state.ts:37 | returns the audio-track variable |
| M3uState.M3uStateHolder.SetHasEmittedDoneWithTracks | packages/media-parser/src/state/m3u-state.ts:38-40 | changes the state exactly as `Apply` of the call |
| M3uState.M3uStateHolder.HasEmittedDoneWithTracks | packages/media-parser/src/state/m3u-state.ts:41 | returns the done-with-tracks flag |
| M3uState.M3uStateHolder.SetReadyToIterateOverM3u | packages/media-parser/src/state/m3u-state.ts:42-44 | changes the state exactly as `Apply` of the call |
| M3uState.M3uStateHolder.IsReadyToIterateOverM3u | packages/media-parser/src/state/m3u-state.ts:45 | returns the ready-to-iterate flag |
| M3uState.M3uStateHolder.SetLastChunkProcessed | packages/media-parser/src/state/m3u-state.ts:46-48 | changes the state exactly as `Apply` of the call |
| M3uState.M3uStateHolder.GetLastChunkProcessed | packages/media-parser/src/state/m3u-state.ts:49 | returns the last chunk processed |
| M3uState.M3uStateHolder.GetAllChunksProcessed | packages/media-parser/src/state/m3u-state.ts:50 | returns the all-chunks flag |
| M3uState.M3uStateHolder.SetAllChunksProcessed | packages/media-parser/src/state/m3u-state.ts:51-53 | changes the state exactly as `Apply` of the call |
| M3uState.M3uStateHolder.SetHasFinishedManifest | packages/media-parser/src/state/m3u-state.ts:54-56 | changes the state exactly as `Apply` of the call |
| M3uState.M3uStateHolder.HasFinishedManifest | packages/media-parser/src/state/m3u-state.ts:57 | returns the finished-manifest flag |
| CodecQueue.Configured | packages/webcodecs/src/video-encoder.ts:24-64 | a freshly configured codec is open with nothing queued and nothing accepted |
| CodecQueue.Close | packages/webcodecs/src/video-encoder.ts:44-52 | closing leaves the codec closed, keeps what was accepted, delivered and handed on, and changes nothing when it was already closed |
| CodecQueue.CloseIsIdempotent | packages/webcodecs/src/video-encoder.ts:44-56 | closing twice is closing once, and the platform's `close()` is reached exactly once |
| CodecQueue.Submit | packages/webcodecs/src/video-encoder.ts:60-97 | handing an input to an open codec appends it to the accepted inputs and raises the queue size by one |
| CodecQueue.Step | packages/webcodecs/src/video-encoder.ts:32-56 | each platform event moves the oldest input to the outputs, delivers the oldest output, or closes the codec, and brings the queues closer to empty |
| CodecQueue.WaitBelow | packages/webcodecs/src/video-encoder.ts:68-90 | waiting ends with the queue size at most the limit, keeps the accepted inputs and only adds deliveries, and returns at once when the queue is already short enough |
| CodecQueue.DeliveredInCallOrder | packages/webcodecs/src/video-encoder.ts:32-41 | what was delivered, followed by what waits to be handed on, is a prefix of the accepted inputs in call order |
| CodecQueue.Flush | packages/webcodecs/src/video-encoder.ts:117-119 | `flush` on a closed codec rejects with `InvalidStateError` and changes nothing; otherwise it resolves exactly when the codec finished every input without being closed, and rejects with `AbortError` when it was closed first |
| CodecQueue.FlushSteps | packages/webcodecs/src/video-encoder.ts:117-119 | the platform runs until nothing is left in the codec's own queue, keeping every accepted input |
| CodecQueue.DrainKeepsOutputs | packages/webcodecs/src/video-encoder.ts:77-81 | once the codec's own queue is empty, waiting only hands outputs on: delivered and waiting outputs together stay the same |
| CodecQueue.Finish | packages/webcodecs/src/video-encoder.ts:110-114 | `waitForFinish` settles as its flush does; when it succeeds nothing is queued and every input ever accepted was delivered, in order, even if the codec is closed during the final wait |
| CodecQueue.FinishDeliversAll | packages/webcodecs/src/video-encoder.ts:77-81 | waiting for an empty queue empties it, and on a codec still open every accepted input was delivered, in order |
| VideoEncoder.Created | packages/webcodecs/src/video-encoder.ts:24-66 | a new wrapper has an open, empty encoder and no frames processed |
| VideoEncoder.Encodings | packages/webcodecs/src/video-encoder.ts:97-100 | the submissions of a run of frames are the frames in order, frame `i` a keyframe exactly when `i` is a multiple of 40 |
| VideoEncoder.EncodeStep | packages/webcodecs/src/video-encoder.ts:83-101 | a closed encoder ignores the frame; otherwise the frame is submitted as the next one, a keyframe when the frames before it are a multiple of 40, after the queue dropped to at most 10, unless the encoder closed while waiting |
| VideoEncoder.EncodeAll | packages/webcodecs/src/video-encoder.ts:103-109 | frames chained one after another keep the frame counter equal to the frames submitted |
| VideoEncoder.KeyframeCadence | packages/webcodecs/src/video-encoder.ts:83-109 | from a fresh encoder the frames submitted are the first k frames in call order, frame `i` a keyframe exactly when `i` is a multiple of 40, and k is all of them unless the encoder closed |
| VideoEncoder.VideoEncoderWrapper.constructor | packages/webcodecs/src/video-encoder.ts:24-66 | the closure starts in the `Created` state |
| VideoEncoder.VideoEncoderWrapper.EncodeFrame | packages/webcodecs/src/video-encoder.ts:83-101 | one frame changes the closure exactly as `EncodeStep` says |
| VideoEncoder.VideoEncoderWrapper.Close | packages/webcodecs/src/video-encoder.ts:44-56 | closing changes only the encoder, as `Close` says |
| VideoEncoder.VideoEncoderWrapper.GetQueueSize | packages/webcodecs/src/video-encoder.ts:60-62 | the size is the encoder's queue plus the outputs not yet handed on |
| VideoEncoder.VideoEncoderWrapper.WaitForFinish | packages/webcodecs/src/video-encoder.ts:77-114 | flushes, then waits as `Finish` says: on a closed encoder it rejects with `InvalidStateError` and changes nothing; on success nothing is queued and every frame accepted was delivered; the frame counter is unchanged |
| VideoEncoder.VideoEncoderWrapper.Flush | packages/webcodecs/src/video-encoder.ts:117-119 | the encoder's `flush`, as `CodecQueue.Flush` says |
| VideoEncoder.CreateVideoEncoder | packages/webcodecs/src/video-encoder.ts:20-22 | an already aborted signal is the `Not creating video encoder, already aborted` error; otherwise a fresh wrapper in the `Created` state |
| AudioDecoder.Created | packages/webcodecs/src/audio-decoder.ts:26-100 | a new wrapper has an open, empty decoder and a chain that has not rejected |
| AudioDecoder.ProcessStep | packages/webcodecs/src/audio-decoder.ts:85-106 | after a rejection or on a closed decoder nothing happens; otherwise the sample is decoded after the queue dropped to at most 10, or, when the decoder closed during the wait, `decode` throws `InvalidStateError` and the chain rejects |
| AudioDecoder.ProcessAll | packages/webcodecs/src/audio-decoder.ts:100-106 | samples chained one after another keep the state well formed |
| AudioDecoder.PoisonedChain | packages/webcodecs/src/audio-decoder.ts:100-106 | once the chain rejected, no later sample reaches the decoder and each call rejects with the same error |
| AudioDecoder.SamplesInCallOrder | packages/webcodecs/src/audio-decoder.ts:85-106 | from a fresh decoder the samples decoded are the first k samples in call order, all of them unless the decoder closed, and a rejection is always `InvalidStateError` |
| AudioDecoder.AudioDecoderWrapper.constructor | packages/webcodecs/src/audio-decoder.ts:26-67 | the closure starts in the `Created` state |
| AudioDecoder.AudioDecoderWrapper.ProcessSample | packages/webcodecs/src/audio-decoder.ts:85-106 | one sample changes the closure exactly as `ProcessStep` says, and the call settles as the chain does |
| AudioDecoder.AudioDecoderWrapper.Close | packages/webcodecs/src/audio-decoder.ts:46-59 | closing changes only the decoder, as `Close` says |
| AudioDecoder.AudioDecoderWrapper.GetQueueSize | packages/webcodecs/src/audio-decoder.ts:63-65 | the size is the decoder's queue plus the outputs not yet handed on |
| AudioDecoder.AudioDecoderWrapper.WaitForFinish | packages/webcodecs/src/audio-decoder.ts:79-111 | flushes, then waits as `Finish` says: on a closed decoder it rejects with `InvalidStateError` and changes nothing; on success nothing is queued and every sample accepted was delivered; the chain's state is unchanged |
| AudioDecoder.AudioDecoderWrapper.Flush | packages/webcodecs/src/audio-decoder.ts:114-116 | the decoder's `flush`, as `CodecQueue.Flush` says |
| AudioDecoder.CreateAudioDecoder | packages/webcodecs/src/audio-decoder.ts:22-24 | an already aborted signal is the `Not creating audio decoder, already aborted` error; otherwise a fresh wrapper in the `Created` state |
| SvgPath.Serialized | packages/shapes/src/utils/instructions.ts:37-39 | the `map` gives one serialised string per instruction, in order |
| SvgPath.Tokens | packages/shapes/src/utils/instructions.ts:41-65 | an instruction has a fixed number of tokens for its type, the first being its letter |
| SvgPath.InstructionRoundTrip | packages/shapes/src/utils/instructions.ts:41-65 | each instruction serialises to its letter and its parameters separated by single spaces (3 tokens for `M`, `L` and `m`, 7 for `C`, 8 for `a`), and those tokens read back as the same instruction |
| SvgPath.TokensParseBack | packages/shapes/src/utils/instructions.ts:41-65 | the tokens of any instruction read back as that instruction |
| SvgPath.StreamIsJoinOfTokens | packages/shapes/src/utils/instructions.ts:37-39 | the serialised path is all the instructions' tokens joined with single spaces, none of which holds a space |
| SvgPath.ParseAllTokens | packages/shapes/src/utils/instructions.ts:37-65 | the tokens of a sequence of instructions read back as those instructions, in order |
| SvgPath.PathRoundTrip | packages/shapes/src/utils/instructions.ts:37-65 | the path string reads back as exactly the instructions it was made from, and it is empty exactly for no instructions |
| SvgPath.SerializeInstruction | packages/shapes/src/utils/instructions.ts:41-65 | one instruction as its letter and its numbers, the arc flags as 0 or 1, separated by single spaces; InstructionRoundTrip parses it back |
| SvgPath.SerializeInstructions | packages/shapes/src/utils/instructions.ts:37-39 | the instructions serialised and joined with single spaces; PathRoundTrip parses the whole path back |
| SvgPath.MakeCircle | packages/shapes/src/utils/make-circle.ts:9-52 | the circle is `2r` wide and high, its path is the serialisation of its instructions and its transform origin is `r r` |
| SvgPath.CircleShape | packages/shapes/src/utils/make-circle.ts:10-43 | the circle moves to (r, r), then by (-r, 0) to the left edge, then draws two arcs of radius r, large-arc set and sweep clear, of +2r and -2r, ending back at the left edge; its path reads back as those four instructions |
| BundlePaths.TrimLeadingSlash | packages/bundler/src/bundle.ts:24-30 | the result does not start with `/`, and the input is the result behind some slashes |
| BundlePaths.TrimTrailingSlash | packages/bundler/src/bundle.ts:32-38 | the result does not end with `/`, and the input is the result followed by some slashes |
| BundlePaths.TrimsAreIdempotent | packages/bundler/src/bundle.ts:24-38 | trimming a second time changes nothing |
| BundlePaths.AllSlashesTrimToEmpty | packages/bundler/src/bundle.ts:24-38 | a string of slashes only trims to the empty string from either end |
| BundlePaths.TrimLeadingKeepsRest | packages/bundler/src/bundle.ts:24-30 | only the leading slashes are removed: what follows them comes through unchanged |
| BundlePaths.PublicDir | packages/bundler/src/bundle.ts:77-82 | the public directory starts with `/` and ends with `public`: `/public` for a base that trims to nothing, else `/<trimmed base>/public` |
| BundlePaths.PublicDirDefault | packages/bundler/src/bundle.ts:77-82 | without a `publicPath` the directory is `/public` |
| BundlePaths.PublicDirOfPlainBase | packages/bundler/src/bundle.ts:77-82 | a base without slashes at its ends is used as it is, and wrapping it in slashes changes nothing |
| GetFilename.OutputFilename | packages/cli/src/get-filename.ts:26-65 | an image-sequence location with an extension is an error naming that extension and one without is returned as it is; a location with an extension is returned unchanged; otherwise h264/h265 add `.mp4`, h264-mkv `.mkv`, vp8/vp9 `.webm`, prores `.mov`, and other codecs nothing; any result has the location as a prefix |
| GetFilename.GetOutputFilename | packages/cli/src/get-filename.ts:19-66 | the if-chain that updates `filename` and `extension` returns exactly what `OutputFilename` describes for the location and its extension |
| GetFilename.OutputFilenameIsStable | packages/cli/src/get-filename.ts:39-65 | once the extension reader recognises the added extension, feeding an accepted result back in returns it unchanged |
| Compositions.Largest | packages/cli/src/compositions.ts:13-21 | the value `max` computes for a non-empty array: an element of it that is at least every element |
| Compositions.Max | packages/cli/src/compositions.ts:8-22 | an empty array throws `Array of 0 length`; otherwise the loop returns an element of the array that is at least every element |
| Compositions.IdLengths | packages/cli/src/compositions.ts:67 | one id length per composition, in order |
| Compositions.FirstColumnLength | packages/cli/src/compositions.ts:67 | no compositions is the `max` error; otherwise the width is some id's length plus 4 and every id's length plus 4 fits in it |
| Compositions.Rows | packages/cli/src/compositions.ts:76-92 | one formatted row per composition, in order |
| Compositions.Listing | packages/cli/src/compositions.ts:67-94 | the table is produced exactly when there is at least one composition, and the error is `max`'s otherwise |
| Compositions.RowLayout | packages/cli/src/compositions.ts:79-91 | a row is the id padded with spaces to the first column, the frame rate padded to 8, the dimensions padded to 15 and then the duration, at those offsets |
| Compositions.StillRow | packages/cli/src/compositions.ts:79-85 | a composition one frame long shows 8 spaces for the frame rate and `Still` for the duration |
| Compositions.HeaderLayout | packages/cli/src/compositions.ts:71-75 | the header's `Duration` starts at the first column width plus 23 when that width is at least 11; with a narrower first column `Composition` is not cut and the header is 42 characters long |
| Compositions.Header | packages/cli/src/compositions.ts:71-75 | the header line; HeaderLayout states its column offsets |
| Compositions.Row | packages/cli/src/compositions.ts:78-91 | one row, its four cells joined with nothing between them; RowLayout and StillRow state its layout |
| Compositions.ListingOneLinePerComposition | packages/cli/src/compositions.ts:67-94 | the body splits at line breaks into exactly the rows, one per composition in order, with the id column wide enough for every id plus four |
| Upgrade.Present | packages/cli/src/upgrade.ts:56-68 | the filter keeps exactly the candidates that are dependencies and never lengthens the list |
| Upgrade.PresentKeepsOrder | packages/cli/src/upgrade.ts:56-68 | filtering a concatenation is the concatenation of the filtered parts, so the candidates' order is kept |
| Upgrade.PresentHasNoRepeats | packages/cli/src/upgrade.ts:56-68 | a candidate list without repeats filters to one without repeats |
| Upgrade.ToUpgrade | packages/cli/src/upgrade.ts:56-68 | the packages to upgrade are exactly the eleven upgradable ones the project depends on, each once |
| Upgrade.FullProjectUpgradesAll | packages/cli/src/upgrade.ts:56-68 | a project that depends on every upgradable package upgrades all of them in the fixed order |
| Upgrade.Versioned | packages/cli/src/upgrade.ts:22 | each package becomes `<name>@^<version>`, in order |
| Upgrade.UpgradeCommand | packages/cli/src/upgrade.ts:13-31 | the command is `i` for npm and pnpm and `add` for yarn, followed by the versioned packages; its length is the package count plus one |
| Upgrade.UpgradeCommandNamesPackages | packages/cli/src/upgrade.ts:22-30 | every argument after the verb ends in `@^<version>`, and cutting that off gives back the package at the same position |
| Upgrade.Run | packages/cli/src/upgrade.ts:33-90 | the first failure in source order decides, before anything runs: a missing `package.json` exits with its message, then an unreadable file or missing `dependencies` field throws, then a failed registry lookup, then a missing lockfile throws the lockfile message; otherwise the detected manager runs with the upgrade command for the packages to upgrade at the registry's version, and the call succeeds exactly when the manager exits successfully |
| Upgrade.NoLockfileError | packages/cli/src/upgrade.ts:47-53 | the lock-file paths joined with `, ` inside the fixed text; Run states when it is thrown |
| SetupCache.BundleOnCliCases | packages/cli/src/setup-cache.ts:75-124 | the effects of one run for each cache state and caching setting: the clear that applies, then the bundling, then the cached-bundle message when a new cache appeared |
| SetupCache.BundleOnCli | packages/cli/src/setup-cache.ts:40-127 | the effects of one run, never none; BundleOnCliCases, ClearsAtMostOnce and ClearsBeforeBundling state them case by case |
| SetupCache.ClearsAtMostOnce | packages/cli/src/setup-cache.ts:80-124 | the cache is cleared at most once, exactly when a cache exists with caching off or another config's cache exists with caching on; the project is bundled once; each message appears exactly under its condition |
| SetupCache.ClearsBeforeBundling | packages/cli/src/setup-cache.ts:80-124 | every clear comes before the bundling and the cached-bundle message after it |
| SetupCache.BundleOnCliOrTakeServeUrl | packages/cli/src/setup-cache.ts:13-38 | a serve URL is returned as it is with a no-op cleanup and no effects; otherwise the bundle is returned, cleanup deletes the bundle directory, and the project is bundled exactly when it is not a serve URL |
| PrepareEntryPoint.Prepare | packages/cli/src/prepare-entry-point.ts:24-47 | a serve URL passes through with the steps unchanged; an existing directory passes through resolved; a missing path is the error naming it; a file is bundled with `bundling` put in front of the steps; none of the first two is deleted afterwards and the bundle is |
| PrepareEntryPoint.ShouldDeleteIffBundled | packages/cli/src/prepare-entry-point.ts:24-47 | `shouldDelete` holds exactly when a file was bundled, exactly when the steps gained the `bundling` step, and otherwise the steps are unchanged |
| PrepareEntryPoint.AgreesWithBundleOrServeUrl | packages/cli/src/prepare-entry-point.ts:24-47 | for a serve URL or a file this agrees with `bundleOnCliOrTakeServeUrl` on what is rendered from and on whether the bundle is deleted |

## Left out

- Browser control is not modelled. This covers page creation, `setPropsAndEnv`, seeking, screenshots, tab cycling and `getBrowserInstance`, which are calls into Puppeteer. A rendered frame is an input.
- Concurrency is modelled as sequential interleavings. OrderedDelivery.Drain resumes all the frames waiting behind a piped one in a single step, so a cancel that lands between those chained resumptions is not expressed. `Pool`, `Promise.all`, `Promise.race`, `pLimit` and the promise-chain queues are stated by their contracts, and an arbitrary order of completions is an input. Two operations are never modelled as running at the same instant.
- Timing is not modelled. This covers the kill timeout, `Date.now()` durations, `Internals.perf` and progress-bar rendering; only the values passed to the callbacks are modelled.
- Subprocesses are not modelled. Spawning ffmpeg, ffprobe or the package manager, and streaming their stdin, stdout and stderr, are foreign I/O. Their outcome, stderr text and stdout bytes are inputs.
- The file system is not modelled. `mkdtemp`, `unlink`, `rm`, writing the concat list, `existsSync` and `stat` are effects recorded in the state or answers given as inputs.
- The network is not modelled. The download behind the offthread server and the browser download are parameters. The HTTP response is modelled only by its status, headers and body.
- Helpers these files import are not part of this model and appear as parameters. They include `compressAsset`, `getCodecName`, `getProResProfileName`, `isBeyondLastFrame`, `createClusterSegment`, `makeSimpleBlock`, `getVariableInt`, `getOutputLocation`, `getPackageManager`, `lockFilePaths`, `getLatestRemotionVersion`, the option validators of `prespawnFfmpeg` and the Webpack configuration hash.
- Floating point is not modelled. `timestampToClusterTimestamp` rounding is a parameter. Durations in the extraction code are exact reals. In the extraction code, how JavaScript prints a number is a parameter. `toFixed(2)` in the `compositions` table is a parameter too. Frame rates and composition sizes in the CLI are natural numbers. SVG coordinates are integers.
- PrespawnFfmpeg and CombineVideos: the frame rate is an integer, printed as its decimal digits. A non-integer frame rate such as 29.97 is outside the model, and so is how JavaScript prints one.
- RenderFrames.FramePath, LegacyRender.LegacyPath, CombineVideos.Combine and RenderMedia.ChoosePlaces: the directory and the file name are joined with one `/`. For RenderMedia.ChoosePlaces the directory is a fresh `mkdtemp` directory, which is normalised and has no trailing slash, so the path agrees with `path.join`; for CombineVideos.Combine that is the concat list `filelistDir + "/files.txt"`. The normalisation of Node's `path.join` is not modelled, so the paths agree with the source only for a normalised directory without a trailing slash.
- RenderFrames.PageError: a page error is modelled only while a task holds the page, before every task finished. An error of a page after the result settled cannot change the result in the source either.
- BufferWriter.Writer.Save and BufferWriter.Writer.GetWrittenByteCount: reads are modelled as a caller sees them after awaiting every earlier `write` and `updateDataAt`. In the source those calls are queued on a promise chain (`writPromise`), and a `save` or a byte count taken before the queue drains sees the older contents.
- ExtractFrame.Step: a negative frame rate is excluded. In the source it makes the retry offset shrink forever, which the model cannot express as a terminating function.
- FrameNaming.RealFrameRange: the body of `getRealFrameRange` is not part of this model. The reference definition here rejects a frame or span outside the composition, and any range of an empty composition, with an error whose text is a parameter.
- AssetChunks.ConvertAssetsToFileUrls: when several downloads of one chunk reject, `Promise.all` rejects with whichever settles first; the model names one of the rejecting downloads (the first in frame order) and does not model the timing that picks it. Downloads still running when the chunk rejects are not modelled either.
- AssetChunks.Chunk: a chunk size of 0 is excluded. `convertAssetsToFileUrls` always passes 1000. With size 0 and a non-empty input, `chunk` throws a `TypeError` in JavaScript.
- Upgrade.Run: the texts of the errors that `require`, `Object.keys`, the registry lookup and the manager throw are inputs. The "upgraded" message and the piping of the manager's output are log output and are left out.
- Compositions.Listing: the surrounding command is not modelled. This covers the missing-root-file error, loading the config, `getCompositions`, the "available" banner and the deletion of the bundle directory afterwards, which is the shouldDelete flag of PrepareEntryPoint. The header is misaligned for ids shorter than 7 characters: HeaderLayout states this as the code writes it.
- BufferWriter: the "Could not create buffer writer" error for runtimes without resizable array buffers is left out. The model assumes `ArrayBuffer.prototype.resize` exists.
- ExtractFrame: the errors thrown when the spawned process has no stdout or stderr stream are left out, because a spawned process always has both here.
- CodecQueue.FinishDeliversAll: a delivery callback (`onChunk`, `onFrame`) that rejects is not modelled; delivery always succeeds. In the source a rejection poisons the output chain, so the output queue size never drops back: a wait for the queue to shrink then never ends, and the final wait either rejects or never ends as below.
- VideoEncoder.VideoEncoderWrapper.WaitForFinish: a rejecting `onChunk` is not modelled. In the source `waitForFinish` would reject with that error at its `await outputQueue`, after the flush.
- AudioDecoder.AudioDecoderWrapper.WaitForFinish: a rejecting `onFrame` is not modelled. In the source the output queue size then never reaches 0 and `waitForFinish` waits forever, which a terminating model cannot express.
- VideoEncoder and AudioDecoder: the platform codec is an abstract queue driven by a schedule parameter. How `flush` works inside the platform (beyond finishing every queued input), its `error` callback and the real codec work are left out.
- The bundler's Webpack run, `prepareOutDir` and the copying of `public/` are left out. Only the path arithmetic of `bundle` is modelled.
- LegacyRender.Begin uses the corrected pad length described under Findings, not the one `render.ts` computes. FrameNaming.LegacyPadLength models the code as written.
- Cluster.AddSampleStep and Cluster.ClusterBuilder.AddSample use the corrected 32767 bound described under Findings. Cluster.CheckTimecodeAsWritten models the code as written.

## Findings

| source | as written | input that shows it | evidently intended | confidence | as-written member | corrected member |
|---|---|---|---|---|---|---|
| packages/renderer/src/render.ts:109-112 | the file numbers are padded to the digits of `frameCount - 1`, but the numbers written are the frames `first + index` of the range | the frame range 95..104: the pad is 1, so frame 95 is named `element-95` and frame 104 `element-104` | pad to the digits of the last frame of the range, as `render-frames.ts` does, so that every name has one width | medium, not executed | FrameNaming.LegacyPadLengthNotUniform | FrameNaming.LegacyNamesUniform |
| packages/media-parser/src/create/cluster.ts:12, 51-55 | a relative timecode up to and including 2^15 = 32768 is accepted | a sample 32768 ms after its cluster's timestamp: it is accepted, and the signed 16-bit Block timestamp of section 10 of RFC 9559 reads back as -32768 | reject relative timecodes above 32767, the largest a signed 16-bit value holds | high, not executed | Cluster.AsWrittenAcceptsUnencodable | Cluster.AcceptedTimecodesRoundTrip |
