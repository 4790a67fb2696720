/**
 * The m3u parser state (packages/media-parser/src/state/m3u-state.ts): eight variables behind
 * setters and getters. The selected stream, the two track callbacks and the WebCodecs sample
 * callbacks are not inspected here, so they are type parameters.
 */
module M3uState {

  import opened Wrappers

  /** `M3uStreamOrInitialUrl`. */
  datatype Selection<S> = SelectedStream(stream: S) | InitialUrl(url: string)

  /**
   * The value of `hasEmittedVideoTrack` / `hasEmittedAudioTrack`: `false` until the setter runs,
   * then whatever it was given, a callback or `null`.
   */
  datatype Emission<C> = NotEmitted | EmittedWith(callback: Option<C>)

  datatype Status<S, V, A> = Status(
    selectedStream: Option<Selection<S>>,
    videoTrack: Emission<V>,
    audioTrack: Emission<A>,
    doneWithTracks: bool,
    finishedManifest: bool,
    readyToIterate: bool,
    lastChunkProcessed: int,
    allChunksProcessed: bool)

  /** The calls that change the state. */
  datatype Op<S, V, A> =
    | SetSelectedStream(selection: Selection<S>)
    | SetHasEmittedVideoTrack(video: Option<V>)
    | SetHasEmittedAudioTrack(audio: Option<A>)
    | SetHasEmittedDoneWithTracks
    | SetReadyToIterateOverM3u
    | SetLastChunkProcessed(chunk: int)
    | SetAllChunksProcessed
    | SetHasFinishedManifest

  /** What `m3uState()` starts with. */
  function Initial<S, V, A>(): (s: Status<S, V, A>)
    ensures s.selectedStream.None? && s.videoTrack.NotEmitted? && s.audioTrack.NotEmitted?
    ensures !s.doneWithTracks && !s.finishedManifest && !s.readyToIterate && !s.allChunksProcessed
    ensures s.lastChunkProcessed == -1
  {
    Status(None, NotEmitted, NotEmitted, false, false, false, -1, false)
  }

  /** One setter: it overwrites its own variable and no other; the flag setters only ever write `true`. */
  function Apply<S, V, A>(s: Status<S, V, A>, op: Op<S, V, A>): (r: Status<S, V, A>)
    ensures op.SetSelectedStream? ==> r == s.(selectedStream := Some(op.selection))
    ensures op.SetHasEmittedVideoTrack? ==> r == s.(videoTrack := EmittedWith(op.video))
    ensures op.SetHasEmittedAudioTrack? ==> r == s.(audioTrack := EmittedWith(op.audio))
    ensures op.SetHasEmittedDoneWithTracks? ==> r == s.(doneWithTracks := true)
    ensures op.SetReadyToIterateOverM3u? ==> r == s.(readyToIterate := true)
    ensures op.SetLastChunkProcessed? ==> r == s.(lastChunkProcessed := op.chunk)
    ensures op.SetAllChunksProcessed? ==> r == s.(allChunksProcessed := true)
    ensures op.SetHasFinishedManifest? ==> r == s.(finishedManifest := true)
  {
    match op
    case SetSelectedStream(sel) => s.(selectedStream := Some(sel))
    case SetHasEmittedVideoTrack(v) => s.(videoTrack := EmittedWith(v))
    case SetHasEmittedAudioTrack(a) => s.(audioTrack := EmittedWith(a))
    case SetHasEmittedDoneWithTracks => s.(doneWithTracks := true)
    case SetReadyToIterateOverM3u => s.(readyToIterate := true)
    case SetLastChunkProcessed(c) => s.(lastChunkProcessed := c)
    case SetAllChunksProcessed => s.(allChunksProcessed := true)
    case SetHasFinishedManifest => s.(finishedManifest := true)
  }

  /** The state after a sequence of calls, in call order. */
  function ApplyAll<S, V, A>(s: Status<S, V, A>, ops: seq<Op<S, V, A>>): Status<S, V, A>
    decreases |ops|
  {
    if |ops| == 0 then s else Apply(ApplyAll(s, ops[..|ops| - 1]), ops[|ops| - 1])
  }

  /** `a` implies `b`: a flag that was set is still set. */
  predicate Kept(a: bool, b: bool) {
    a ==> b
  }

  /** No sequence of calls resets a flag: there is no setter that writes `false`. */
  lemma {:induction false} FlagsNeverReset<S, V, A>(s: Status<S, V, A>, ops: seq<Op<S, V, A>>)
    ensures var r := ApplyAll(s, ops);
      Kept(s.doneWithTracks, r.doneWithTracks) && Kept(s.finishedManifest, r.finishedManifest) &&
      Kept(s.readyToIterate, r.readyToIterate) && Kept(s.allChunksProcessed, r.allChunksProcessed)
    decreases |ops|
  {
    if |ops| > 0 {
      FlagsNeverReset(s, ops[..|ops| - 1]);
    }
  }

  /** The reference for what a getter returns: the last value given to its setter, if any. */
  function LastChunk<S, V, A>(ops: seq<Op<S, V, A>>, initial: int): int
    decreases |ops|
  {
    if |ops| == 0 then initial
    else if ops[|ops| - 1].SetLastChunkProcessed? then ops[|ops| - 1].chunk
    else LastChunk(ops[..|ops| - 1], initial)
  }

  function LastSelection<S, V, A>(ops: seq<Op<S, V, A>>): Option<Selection<S>>
    decreases |ops|
  {
    if |ops| == 0 then None
    else if ops[|ops| - 1].SetSelectedStream? then Some(ops[|ops| - 1].selection)
    else LastSelection(ops[..|ops| - 1])
  }

  function LastVideo<S, V, A>(ops: seq<Op<S, V, A>>): Emission<V>
    decreases |ops|
  {
    if |ops| == 0 then NotEmitted
    else if ops[|ops| - 1].SetHasEmittedVideoTrack? then EmittedWith(ops[|ops| - 1].video)
    else LastVideo(ops[..|ops| - 1])
  }

  function LastAudio<S, V, A>(ops: seq<Op<S, V, A>>): Emission<A>
    decreases |ops|
  {
    if |ops| == 0 then NotEmitted
    else if ops[|ops| - 1].SetHasEmittedAudioTrack? then EmittedWith(ops[|ops| - 1].audio)
    else LastAudio(ops[..|ops| - 1])
  }

  /** The four boolean flags. */
  datatype Flag = DoneWithTracks | ReadyToIterate | AllChunks | FinishedManifest

  predicate Sets<S, V, A>(op: Op<S, V, A>, flag: Flag) {
    match flag
    case DoneWithTracks => op.SetHasEmittedDoneWithTracks?
    case ReadyToIterate => op.SetReadyToIterateOverM3u?
    case AllChunks => op.SetAllChunksProcessed?
    case FinishedManifest => op.SetHasFinishedManifest?
  }

  /** Whether some call in `ops` is the setter of `flag`. */
  predicate Called<S, V, A>(ops: seq<Op<S, V, A>>, flag: Flag) {
    exists i :: 0 <= i < |ops| && Sets(ops[i], flag)
  }

  /**
   * From the initial state, every getter returns the value last passed to its setter, and the
   * initial value when its setter was never called; a flag is true exactly when its setter was called.
   */
  lemma {:induction false} GettersReturnLastSet<S, V, A>(ops: seq<Op<S, V, A>>)
    ensures var r := ApplyAll(Initial(), ops);
      r.selectedStream == LastSelection(ops) && r.videoTrack == LastVideo(ops) &&
      r.audioTrack == LastAudio(ops) && r.lastChunkProcessed == LastChunk(ops, -1) &&
      (r.doneWithTracks <==> Called(ops, DoneWithTracks)) &&
      (r.readyToIterate <==> Called(ops, ReadyToIterate)) &&
      (r.allChunksProcessed <==> Called(ops, AllChunks)) &&
      (r.finishedManifest <==> Called(ops, FinishedManifest))
  {
    LastValues(ops);
    FlagIsCalled(ops, DoneWithTracks);
    FlagIsCalled(ops, ReadyToIterate);
    FlagIsCalled(ops, AllChunks);
    FlagIsCalled(ops, FinishedManifest);
  }

  /** The four getters of values return the value last set. */
  lemma LastValues<S, V, A>(ops: seq<Op<S, V, A>>)
    ensures var r := ApplyAll(Initial(), ops);
      r.selectedStream == LastSelection(ops) && r.videoTrack == LastVideo(ops) &&
      r.audioTrack == LastAudio(ops) && r.lastChunkProcessed == LastChunk(ops, -1)
  {
    SelectionIsLastSet(ops);
    VideoIsLastSet(ops);
    AudioIsLastSet(ops);
    ChunkIsLastSet(ops);
  }

  lemma {:induction false} SelectionIsLastSet<S, V, A>(ops: seq<Op<S, V, A>>)
    ensures ApplyAll(Initial(), ops).selectedStream == LastSelection(ops)
    decreases |ops|
  {
    if |ops| > 0 {
      SelectionIsLastSet(ops[..|ops| - 1]);
    }
  }

  lemma {:induction false} VideoIsLastSet<S, V, A>(ops: seq<Op<S, V, A>>)
    ensures ApplyAll(Initial(), ops).videoTrack == LastVideo(ops)
    decreases |ops|
  {
    if |ops| > 0 {
      VideoIsLastSet(ops[..|ops| - 1]);
    }
  }

  lemma {:induction false} AudioIsLastSet<S, V, A>(ops: seq<Op<S, V, A>>)
    ensures ApplyAll(Initial(), ops).audioTrack == LastAudio(ops)
    decreases |ops|
  {
    if |ops| > 0 {
      AudioIsLastSet(ops[..|ops| - 1]);
    }
  }

  lemma {:induction false} ChunkIsLastSet<S, V, A>(ops: seq<Op<S, V, A>>)
    ensures ApplyAll(Initial(), ops).lastChunkProcessed == LastChunk(ops, -1)
    decreases |ops|
  {
    if |ops| > 0 {
      ChunkIsLastSet(ops[..|ops| - 1]);
    }
  }

  /** The value of a flag in a state. */
  function FlagOf<S, V, A>(s: Status<S, V, A>, flag: Flag): bool {
    match flag
    case DoneWithTracks => s.doneWithTracks
    case ReadyToIterate => s.readyToIterate
    case AllChunks => s.allChunksProcessed
    case FinishedManifest => s.finishedManifest
  }

  /** A flag is true exactly when its setter was called. */
  lemma {:induction false} FlagIsCalled<S, V, A>(ops: seq<Op<S, V, A>>, flag: Flag)
    ensures FlagOf(ApplyAll(Initial(), ops), flag) <==> Called(ops, flag)
    decreases |ops|
  {
    if |ops| > 0 {
      var init := ops[..|ops| - 1];
      FlagIsCalled(init, flag);
      CalledAppend(init, ops[|ops| - 1], flag);
      assert init + [ops[|ops| - 1]] == ops;
    }
  }

  lemma CalledAppend<S, V, A>(ops: seq<Op<S, V, A>>, last: Op<S, V, A>, flag: Flag)
    ensures Called(ops + [last], flag) <==> Called(ops, flag) || Sets(last, flag)
  {
    if Called(ops, flag) {
      var i :| 0 <= i < |ops| && Sets(ops[i], flag);
      assert (ops + [last])[i] == ops[i];
    }
    if Sets(last, flag) {
      assert (ops + [last])[|ops|] == last;
    }
    if Called(ops + [last], flag) && !Sets(last, flag) {
      var i :| 0 <= i < |ops + [last]| && Sets((ops + [last])[i], flag);
      assert i < |ops| && (ops + [last])[i] == ops[i];
    }
  }

  /** A track getter tells a track never announced from one announced with `null`. */
  lemma {:induction false} NeverSetDiffersFromNull<S, V, A>(ops: seq<Op<S, V, A>>)
    ensures LastVideo(ops).NotEmitted? <==> forall i :: 0 <= i < |ops| ==> !ops[i].SetHasEmittedVideoTrack?
    ensures LastVideo(ops + [SetHasEmittedVideoTrack(None)]) == EmittedWith(None)
    decreases |ops|
  {
    if |ops| > 0 {
      NeverSetDiffersFromNull(ops[..|ops| - 1]);
      if !ops[|ops| - 1].SetHasEmittedVideoTrack? {
        assert forall i :: 0 <= i < |ops| - 1 ==> ops[..|ops| - 1][i] == ops[i];
      }
    }
    var extended := ops + [SetHasEmittedVideoTrack(None)];
    assert extended[..|extended| - 1] == ops;
  }

  /** The state holder: the eight variables of the closure. */
  class M3uStateHolder<S, V, A> {
    var selectedStream: Option<Selection<S>>
    var hasEmittedVideoTrack: Emission<V>
    var hasEmittedAudioTrack: Emission<A>
    var hasEmittedDoneWithTracks: bool
    var hasFinishedManifest: bool
    var readyToIterateOverM3u: bool
    var lastChunkProcessed: int
    var allChunksProcessed: bool

    function State(): Status<S, V, A>
      reads this
    {
      Status(selectedStream, hasEmittedVideoTrack, hasEmittedAudioTrack, hasEmittedDoneWithTracks,
             hasFinishedManifest, readyToIterateOverM3u, lastChunkProcessed, allChunksProcessed)
    }

    /** `m3uState()`. */
    constructor ()
      ensures State() == Initial()
    {
      selectedStream := None;
      hasEmittedVideoTrack := NotEmitted;
      hasEmittedAudioTrack := NotEmitted;
      hasEmittedDoneWithTracks := false;
      hasFinishedManifest := false;
      readyToIterateOverM3u := false;
      lastChunkProcessed := -1;
      allChunksProcessed := false;
    }

    method SetSelectedStream(stream: Selection<S>)
      modifies this
      ensures State() == Apply(old(State()), Op.SetSelectedStream(stream))
    {
      selectedStream := Some(stream);
    }

    method GetSelectedStream() returns (r: Option<Selection<S>>)
      ensures r == State().selectedStream
    {
      r := selectedStream;
    }

    method SetHasEmittedVideoTrack(callback: Option<V>)
      modifies this
      ensures State() == Apply(old(State()), Op.SetHasEmittedVideoTrack(callback))
    {
      hasEmittedVideoTrack := EmittedWith(callback);
    }

    method HasEmittedVideoTrack() returns (r: Emission<V>)
      ensures r == State().videoTrack
    {
      r := hasEmittedVideoTrack;
    }

    method SetHasEmittedAudioTrack(callback: Option<A>)
      modifies this
      ensures State() == Apply(old(State()), Op.SetHasEmittedAudioTrack(callback))
    {
      hasEmittedAudioTrack := EmittedWith(callback);
    }

    method HasEmittedAudioTrack() returns (r: Emission<A>)
      ensures r == State().audioTrack
    {
      r := hasEmittedAudioTrack;
    }

    method SetHasEmittedDoneWithTracks()
      modifies this
      ensures State() == Apply(old(State()), Op.SetHasEmittedDoneWithTracks)
    {
      hasEmittedDoneWithTracks := true;
    }

    method HasEmittedDoneWithTracks() returns (r: bool)
      ensures r == State().doneWithTracks
    {
      r := hasEmittedDoneWithTracks;
    }

    method SetReadyToIterateOverM3u()
      modifies this
      ensures State() == Apply(old(State()), Op.SetReadyToIterateOverM3u)
    {
      readyToIterateOverM3u := true;
    }

    method IsReadyToIterateOverM3u() returns (r: bool)
      ensures r == State().readyToIterate
    {
      r := readyToIterateOverM3u;
    }

    method SetLastChunkProcessed(chunk: int)
      modifies this
      ensures State() == Apply(old(State()), Op.SetLastChunkProcessed(chunk))
    {
      lastChunkProcessed := chunk;
    }

    method GetLastChunkProcessed() returns (r: int)
      ensures r == State().lastChunkProcessed
    {
      r := lastChunkProcessed;
    }

    method GetAllChunksProcessed() returns (r: bool)
      ensures r == State().allChunksProcessed
    {
      r := allChunksProcessed;
    }

    method SetAllChunksProcessed()
      modifies this
      ensures State() == Apply(old(State()), Op.SetAllChunksProcessed)
    {
      allChunksProcessed := true;
    }

    method SetHasFinishedManifest()
      modifies this
      ensures State() == Apply(old(State()), Op.SetHasFinishedManifest)
    {
      hasFinishedManifest := true;
    }

    method HasFinishedManifest() returns (r: bool)
      ensures r == State().finishedManifest
    {
      r := hasFinishedManifest;
    }
  }
}
