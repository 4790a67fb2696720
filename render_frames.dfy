/**
 * The per-frame tasks of `innerRenderFrames` (packages/renderer/src/render-frames.ts, lines
 * 208-351): the stopped check, where a frame's image goes, the `assets` slots, the
 * `framesRendered` counter and its reports, the asset downloads, and when the returned promise
 * resolves or rejects.
 * Tabs, seeking and screenshots are not part of this model; a task's collected (and compressed)
 * assets are an input.
 */
module RenderFrames {

  import opened Wrappers
  import opened Text
  import opened Codecs
  import opened FrameNaming

  const DownloadErrorPrefix := "Error while downloading asset: "

  /** An asset a frame uses, as its source URL. */
  type Asset = string

  /** What every task of one render shares and does not change. */
  datatype Config = Config(
    first: nat, frameCount: nat, pad: nat,
    format: ImageFormat, outputDir: Option<string>, hasFrameBuffer: bool)

  /** The configuration for the resolved range `[first, last]`: pad to the digits of the last frame. */
  function Configure(range: (nat, nat), format: ImageFormat, outputDir: Option<string>, hasFrameBuffer: bool): (c: Config)
    requires range.0 <= range.1
    ensures c.first == range.0 && c.first + c.frameCount - 1 == range.1 && c.frameCount >= 1
    ensures c.pad == PadLength(range.1)
  {
    Config(range.0, FrameCount(range), PadLength(range.1), format, outputDir, hasFrameBuffer)
  }

  /** A download of one asset, and whether its promise has settled. */
  datatype Download = Download(asset: Asset, settled: bool)

  /**
   * What the tasks mutate: `stopped`, `framesRendered`, the `assets` slots (one per task index,
   * unset until the task finishes), the `onFrameUpdate` reports, the frames handed to
   * `onFrameBuffer`, the image files written, the scheduled downloads, the `onError` reports, and
   * the error the returned promise was rejected with, if it was.
   */
  datatype Tasks = Tasks(
    stopped: bool, framesRendered: nat,
    assets: seq<Option<seq<Asset>>>,
    updates: seq<(nat, nat)>,
    piped: seq<nat>, files: seq<string>,
    downloads: seq<Download>, errors: seq<string>,
    rejection: Option<string>)

  function Start(c: Config): (s: Tasks)
    ensures Consistent(c, s) && s.framesRendered == 0 && !s.stopped && s.rejection.None?
    ensures forall i :: 0 <= i < c.frameCount ==> s.assets[i].None?
  {
    var s := Tasks(false, 0, seq(c.frameCount, _ => None), [], [], [], [], [], None);
    assert Completed(s) == {};
    s
  }

  /** The task indices that have finished. */
  function Completed(s: Tasks): set<nat> {
    set i: nat | i < |s.assets| && s.assets[i].Some?
  }

  /**
   * The counter counts the finished tasks: report k says k + 1 frames are done, and names a frame
   * of the range.
   */
  ghost predicate Consistent(c: Config, s: Tasks) {
    |s.assets| == c.frameCount &&
    s.framesRendered == |s.updates| == |Completed(s)| &&
    forall k :: 0 <= k < |s.updates| ==>
      s.updates[k].0 == k + 1 && c.first <= s.updates[k].1 < c.first + c.frameCount
  }

  /**
   * Where frame `frame` is captured to when it is written to the output directory: the directory
   * and the file name joined with one `/` (the normalisation `path.join` adds is not modelled).
   */
  function FramePath(c: Config, dir: string, frame: nat): string {
    dir + "/" + FrameFileName(PaddedIndex(frame, c.pad), c.format)
  }

  /** Appends the scheduled downloads of one task's assets. */
  function Schedule(downloads: seq<Download>, assets: seq<Asset>): (r: seq<Download>)
    ensures |r| == |downloads| + |assets| && r[..|downloads|] == downloads
    ensures forall k :: 0 <= k < |assets| ==> r[|downloads| + k] == Download(assets[k], false)
  {
    downloads + seq(|assets|, k requires 0 <= k < |assets| => Download(assets[k], false))
  }

  const StoppedError := "Render was stopped"
  const NoDestinationError := "Called renderFrames() without specifying either `outputDir` or `onFrameBuffer`"
  const CancelledError := "renderFrames() got cancelled"

  /** Every task finished and every scheduled download settled: the happy path of the race resolves. */
  predicate Finished(s: Tasks) {
    (forall i :: 0 <= i < |s.assets| ==> s.assets[i].Some?) &&
    (forall i :: 0 <= i < |s.downloads| ==> s.downloads[i].settled)
  }

  /**
   * The returned promise is rejected with `error`. A promise settles once: after an earlier
   * rejection, or once the happy path resolved, a rejection changes nothing.
   */
  function Reject(s: Tasks, error: string): (r: Tasks)
    ensures s.rejection.None? && !Finished(s) ==> r == s.(rejection := Some(error))
    ensures s.rejection.Some? || Finished(s) ==> r == s
  {
    if s.rejection.None? && !Finished(s) then s.(rejection := Some(error)) else s
  }

  /** What every task that does not throw records: its slot, its downloads and the next count. */
  function Done(c: Config, s: Tasks, index: nat, collected: seq<Asset>): Tasks
    requires index < |s.assets|
  {
    s.(framesRendered := s.framesRendered + 1, assets := s.assets[index := Some(collected)],
       updates := s.updates + [(s.framesRendered + 1, c.first + index)],
       downloads := Schedule(s.downloads, collected))
  }

  /**
   * Task `index`, once it holds a tab: a stopped render throws 'Render was stopped', which rejects
   * `Promise.all` and so the returned promise, and nothing else happens; so does the missing
   * destination for an image format. Otherwise frame `first + index` is piped or written (unless
   * the format is 'none'), its assets fill its slot and are scheduled for download, and the counter
   * rises by one and is reported.
   */
  function Task(c: Config, s: Tasks, index: nat, collected: seq<Asset>): (r: (Tasks, Result<seq<Asset>>))
    requires |s.assets| == c.frameCount && index < c.frameCount && s.assets[index].None?
    ensures s.stopped ==> r.1 == Err(StoppedError)
    ensures r.1.Err? ==> r.0 == s.(rejection := if s.rejection.None? then Some(r.1.error) else s.rejection)
    ensures r.0.stopped == s.stopped
    ensures r.1.Ok? <==> !s.stopped && (c.format == NoImage || c.hasFrameBuffer || c.outputDir.Some?)
    ensures r.1.Err? && !s.stopped ==> r.1.error == NoDestinationError
    ensures r.1.Ok? ==>
      r.1.value == collected && r.0.assets == s.assets[index := Some(collected)] &&
      r.0.framesRendered == s.framesRendered + 1 &&
      r.0.updates == s.updates + [(s.framesRendered + 1, c.first + index)] &&
      r.0.downloads == Schedule(s.downloads, collected) &&
      r.0.errors == s.errors && r.0.rejection == s.rejection
    ensures r.1.Ok? && c.format != NoImage && c.hasFrameBuffer ==>
      r.0.piped == s.piped + [c.first + index] && r.0.files == s.files
    ensures r.1.Ok? && c.format != NoImage && !c.hasFrameBuffer ==>
      r.0.files == s.files + [FramePath(c, c.outputDir.value, c.first + index)] && r.0.piped == s.piped
    ensures r.1.Ok? && c.format == NoImage ==> r.0.files == s.files && r.0.piped == s.piped
  {
    var frame := c.first + index;
    if s.stopped then (Reject(s, StoppedError), Err(StoppedError))
    else if c.format != NoImage && !c.hasFrameBuffer && c.outputDir.None? then
      (Reject(s, NoDestinationError), Err(NoDestinationError))
    else
      var done := Done(c, s, index, collected);
      if c.format == NoImage then (done, Ok(collected))
      else if c.hasFrameBuffer then (done.(piped := s.piped + [frame]), Ok(collected))
      else (done.(files := s.files + [FramePath(c, c.outputDir.value, frame)]), Ok(collected))
  }

  /** A task keeps the counter counting the finished tasks. */
  lemma TaskKeepsConsistent(c: Config, s: Tasks, index: nat, collected: seq<Asset>)
    requires Consistent(c, s) && index < c.frameCount && s.assets[index].None?
    ensures Consistent(c, Task(c, s, index, collected).0)
  {
    var r := Task(c, s, index, collected);
    if r.1.Ok? {
      AdvanceKeepsConsistent(c, s, r.0, index);
    }
  }

  /** Filling the slot of a task not run yet and reporting the next count keeps the counter right. */
  lemma AdvanceKeepsConsistent(c: Config, s: Tasks, r: Tasks, index: nat)
    requires Consistent(c, s) && index < c.frameCount && s.assets[index].None?
    requires |r.assets| == |s.assets| && r.assets[index].Some?
    requires forall i :: 0 <= i < |s.assets| && i != index ==> r.assets[i] == s.assets[i]
    requires r.framesRendered == s.framesRendered + 1
    requires r.updates == s.updates + [(s.framesRendered + 1, c.first + index)]
    ensures Consistent(c, r)
  {
    FillOneSlot(s, r, index);
  }

  /** Filling one empty slot adds exactly that index to the finished ones. */
  lemma FillOneSlot(s: Tasks, r: Tasks, index: nat)
    requires index < |s.assets| && s.assets[index].None?
    requires |r.assets| == |s.assets| && r.assets[index].Some?
    requires forall i :: 0 <= i < |s.assets| && i != index ==> r.assets[i] == s.assets[i]
    ensures Completed(r) == Completed(s) + {index} && |Completed(r)| == |Completed(s)| + 1
  {
    assert Completed(r) == Completed(s) + {index};
  }

  /**
   * The download of asset `i` settles. A failure is caught and handed to `onError` with the
   * prefixed stack trace of its error, `stack` here, which rejects the returned promise.
   */
  function Settle(s: Tasks, i: nat, stack: Option<string>): (r: Tasks)
    requires i < |s.downloads| && !s.downloads[i].settled
    ensures r.downloads == s.downloads[i := s.downloads[i].(settled := true)]
    ensures stack.None? ==> r.errors == s.errors && r.rejection == s.rejection
    ensures stack.Some? ==> r.errors == s.errors + [DownloadErrorPrefix + stack.value]
    ensures stack.Some? ==>
      r.rejection == if s.rejection.None? then Some(DownloadErrorPrefix + stack.value) else s.rejection
    ensures r.assets == s.assets && r.updates == s.updates && r.framesRendered == s.framesRendered && r.stopped == s.stopped
    ensures r.piped == s.piped && r.files == s.files
  {
    var reported := if stack.Some? then OnError(s, DownloadErrorPrefix + stack.value) else s;
    reported.(downloads := s.downloads[i := s.downloads[i].(settled := true)])
  }

  /** `onError`: the error is reported and rejects the returned promise. */
  function OnError(s: Tasks, error: string): (r: Tasks)
    ensures r == Reject(s.(errors := s.errors + [error]), error)
  {
    Reject(s.(errors := s.errors + [error]), error)
  }

  /**
   * An error of the page a task holds goes to `onError`. A page only reports errors while a task
   * holds it, so before every task finished.
   */
  function PageError(s: Tasks, error: string): (r: Tasks)
    requires !Finished(s)
    ensures r == s.(errors := s.errors + [error],
                    rejection := if s.rejection.None? then Some(error) else s.rejection)
  {
    OnError(s, error)
  }

  /**
   * The cancel signal runs both callbacks registered on it: `stopped` is set, and the race's second
   * promise rejects with 'renderFrames() got cancelled' unless the race already settled.
   */
  function Cancel(s: Tasks): (r: Tasks)
    ensures r.stopped
    ensures r == s.(stopped := true, rejection := r.rejection)
    ensures s.rejection.None? && !Finished(s) ==> r.rejection == Some(CancelledError)
    ensures s.rejection.Some? || Finished(s) ==> r.rejection == s.rejection
  {
    Reject(s.(stopped := true), CancelledError)
  }

  /** What a finished `renderFrames` resolves with. */
  datatype Output = Output(assets: seq<seq<Asset>>, firstFrameIndex: nat, imageSequenceName: string, frameCount: nat)

  /**
   * The settled result of the returned promise, if it settled: the first rejection, whichever of
   * `onError`, a throwing task or the cancel signal it came from; otherwise it resolves once every
   * task finished and every download settled, with the slots' assets.
   */
  function Resolve(c: Config, s: Tasks): (r: Option<Result<Output>>)
    ensures s.rejection.Some? ==> r == Some(Err(s.rejection.value))
    ensures s.rejection.None? ==> (r.Some? <==> Finished(s))
    ensures r.Some? && s.rejection.None? ==>
      r.value.Ok? && |r.value.value.assets| == |s.assets| &&
      (forall i :: 0 <= i < |s.assets| ==> r.value.value.assets[i] == s.assets[i].value) &&
      r.value.value.imageSequenceName == ImageSequenceName(c.pad, c.format) &&
      r.value.value.firstFrameIndex == c.first && r.value.value.frameCount == c.frameCount
  {
    if s.rejection.Some? then Some(Err(s.rejection.value))
    else if !Finished(s) then None
    else
      var assets := seq(|s.assets|, i requires 0 <= i < |s.assets| => s.assets[i].value);
      Some(Ok(Output(assets, c.first, ImageSequenceName(c.pad, c.format), c.frameCount)))
  }

  /** A task that throws settles the result with the first rejection, not later. */
  lemma FailingTaskRejects(c: Config, s: Tasks, index: nat, collected: seq<Asset>)
    requires |s.assets| == c.frameCount && index < c.frameCount && s.assets[index].None?
    requires Task(c, s, index, collected).1.Err?
    ensures var r := Task(c, s, index, collected);
      Resolve(c, r.0) == Some(Err(if s.rejection.Some? then s.rejection.value else r.1.error))
  {
  }

  /**
   * After the cancel signal, a task that still gets a tab throws 'Render was stopped' and renders
   * nothing, but the result stays the cancel's own rejection, whatever else is pending.
   */
  lemma StoppedRenderRejects(c: Config, s: Tasks, index: nat, collected: seq<Asset>)
    requires |s.assets| == c.frameCount && index < c.frameCount && s.assets[index].None?
    requires s.rejection.None?
    ensures var r := Task(c, Cancel(s), index, collected);
      r.1 == Err(StoppedError) && r.0.assets == s.assets && r.0.piped == s.piped && r.0.files == s.files &&
      Resolve(c, r.0) == Some(Err(CancelledError))
  {
    assert !Finished(s);
  }

  /** A failed download rejects the result at once, even with tasks and downloads still pending. */
  lemma FailedDownloadRejects(c: Config, s: Tasks, i: nat, stack: string)
    requires i < |s.downloads| && !s.downloads[i].settled
    ensures Resolve(c, Settle(s, i, Some(stack))) ==
      Some(Err(if s.rejection.Some? then s.rejection.value else DownloadErrorPrefix + stack))
  {
  }

  /** The cancel signal rejects a result that has not settled yet. */
  lemma CancelRejects(c: Config, s: Tasks)
    requires s.rejection.None? && !Finished(s)
    ensures Resolve(c, Cancel(s)) == Some(Err(CancelledError))
  {
  }

  /** Once the result settled, nothing that can still happen changes it. */
  lemma ResultIsFinal(c: Config, s: Tasks, index: nat, collected: seq<Asset>, i: nat, stack: Option<string>)
    requires Resolve(c, s).Some?
    ensures Resolve(c, Cancel(s)) == Resolve(c, s)
    ensures |s.assets| == c.frameCount && index < c.frameCount && s.assets[index].None? ==>
      Resolve(c, Task(c, s, index, collected).0) == Resolve(c, s)
    ensures i < |s.downloads| && !s.downloads[i].settled ==> Resolve(c, Settle(s, i, stack)) == Resolve(c, s)
  {
    if s.rejection.None? {
      assert Finished(s);
      if |s.assets| == c.frameCount && index < c.frameCount && s.assets[index].None? {
        assert false;
      }
    }
  }

  /** Runs the tasks in the order they get a tab, each with its collected assets. */
  function RunAll(c: Config, s: Tasks, order: seq<nat>, collected: nat -> seq<Asset>): (r: Tasks)
    requires Consistent(c, s)
    ensures Consistent(c, r)
    decreases |order|
  {
    if |order| == 0 then s
    else
      var before := RunAll(c, s, order[..|order| - 1], collected);
      var index := order[|order| - 1];
      if index < c.frameCount && before.assets[index].None? then
        TaskKeepsConsistent(c, before, index, collected(index));
        Task(c, before, index, collected(index)).0
      else before
  }

  /** The order in which tabs become free is some order of the task indices. */
  ghost predicate IsOrderOfTasks(order: seq<nat>, frameCount: nat) {
    |order| == frameCount &&
    (forall i :: 0 <= i < |order| ==> order[i] < frameCount) &&
    (forall i, j :: 0 <= i < j < |order| ==> order[i] != order[j])
  }

  /**
   * Without a stop and with a place for every frame, running the tasks in any order of the indices
   * fills the slots of exactly the indices run so far, each with its own assets, and the counter
   * equals the number of finished tasks.
   */
  lemma {:induction false} RunAllFillsSlots(c: Config, order: seq<nat>, collected: nat -> seq<Asset>)
    requires c.format == NoImage || c.hasFrameBuffer || c.outputDir.Some?
    requires (forall i :: 0 <= i < |order| ==> order[i] < c.frameCount)
    requires (forall i, j :: 0 <= i < j < |order| ==> order[i] != order[j])
    ensures var r := RunAll(c, Start(c), order, collected);
      r.framesRendered == |order| && !r.stopped &&
      forall i :: 0 <= i < c.frameCount ==>
        (r.assets[i].Some? <==> i in order) && (r.assets[i].Some? ==> r.assets[i].value == collected(i))
    decreases |order|
  {
    if |order| > 0 {
      var prefix := order[..|order| - 1];
      var index := order[|order| - 1];
      assert forall i :: 0 <= i < |prefix| ==> prefix[i] == order[i];
      RunAllFillsSlots(c, prefix, collected);
      var before := RunAll(c, Start(c), prefix, collected);
      assert index !in prefix by {
        forall i | 0 <= i < |prefix| ensures prefix[i] != index {
          assert order[i] != order[|order| - 1];
        }
      }
      assert order == prefix + [index];
      TaskFillsSlot(c, before, prefix, index, collected);
    }
  }

  /** One more task, for an index not run yet, fills exactly its own slot. */
  lemma TaskFillsSlot(c: Config, before: Tasks, prefix: seq<nat>, index: nat, collected: nat -> seq<Asset>)
    requires Consistent(c, before) && index < c.frameCount && index !in prefix
    requires c.format == NoImage || c.hasFrameBuffer || c.outputDir.Some?
    requires !before.stopped && before.framesRendered == |prefix|
    requires forall i :: 0 <= i < c.frameCount ==>
      (before.assets[i].Some? <==> i in prefix) && (before.assets[i].Some? ==> before.assets[i].value == collected(i))
    ensures before.assets[index].None?
    ensures var after := Task(c, before, index, collected(index)).0;
      after.framesRendered == |prefix| + 1 && !after.stopped &&
      forall i :: 0 <= i < c.frameCount ==>
        (after.assets[i].Some? <==> i in prefix + [index]) &&
        (after.assets[i].Some? ==> after.assets[i].value == collected(i))
  {
    var step := Task(c, before, index, collected(index));
    assert step.1.Ok?;
    forall i | 0 <= i < c.frameCount
      ensures (step.0.assets[i].Some? <==> i in prefix + [index]) &&
              (step.0.assets[i].Some? ==> step.0.assets[i].value == collected(i))
    {
      assert i in prefix + [index] <==> i in prefix || i == index;
    }
  }

  /** Every frame of the range is rendered exactly once: after all tasks, every slot is filled. */
  lemma EveryTaskFillsItsSlot(c: Config, order: seq<nat>, collected: nat -> seq<Asset>)
    requires c.format == NoImage || c.hasFrameBuffer || c.outputDir.Some?
    requires IsOrderOfTasks(order, c.frameCount)
    ensures var r := RunAll(c, Start(c), order, collected);
      r.framesRendered == c.frameCount &&
      forall i :: 0 <= i < c.frameCount ==> r.assets[i] == Some(collected(i))
  {
    RunAllFillsSlots(c, order, collected);
    var r := RunAll(c, Start(c), order, collected);
    forall i | 0 <= i < c.frameCount ensures r.assets[i] == Some(collected(i)) {
      if r.assets[i].None? {
        assert Completed(r) <= NatsBelow(c.frameCount) - {i};
        SubsetSize(Completed(r), NatsBelow(c.frameCount) - {i});
        assert false;
      }
    }
  }

  function NatsBelow(n: nat): (r: set<nat>)
    ensures forall i: nat :: i in r <==> i < n
    ensures |r| == n
  {
    if n == 0 then {} else NatsBelow(n - 1) + {n - 1}
  }

  lemma SameMiddle(pre: string, p1: string, p2: string, suf: string)
    requires |p1| == |p2| && pre + p1 + suf == pre + p2 + suf
    ensures p1 == p2
  {
    assert p1 == (pre + p1 + suf)[|pre|..|pre| + |p1|];
    assert p2 == (pre + p2 + suf)[|pre|..|pre| + |p2|];
  }

  /** Distinct frames of the range are written to distinct files. */
  lemma FramePathsDistinct(c: Config, dir: string, f1: nat, f2: nat)
    requires c.frameCount >= 1 && c.pad == PadLength(c.first + c.frameCount - 1)
    requires c.first <= f1 < c.first + c.frameCount && c.first <= f2 < c.first + c.frameCount
    requires FramePath(c, dir, f1) == FramePath(c, dir, f2)
    ensures f1 == f2
  {
    var last := c.first + c.frameCount - 1;
    PaddedIndexInRange(f1, last);
    PaddedIndexInRange(f2, last);
    FramePathShape(c, dir, f1);
    FramePathShape(c, dir, f2);
    SameMiddle(dir + "/" + FramePrefix, PaddedIndex(f1, c.pad), PaddedIndex(f2, c.pad), "." + ImageFormatName(c.format));
    PaddedIndexInjective(f1, f2, last);
  }

  lemma FramePathShape(c: Config, dir: string, f: nat)
    ensures FramePath(c, dir, f) == dir + "/" + FramePrefix + PaddedIndex(f, c.pad) + ("." + ImageFormatName(c.format))
  {
    var p := PaddedIndex(f, c.pad);
    var n := ImageFormatName(c.format);
    assert FrameFileName(p, c.format) == FramePrefix + p + "." + n;
    assert dir + "/" + (FramePrefix + p + "." + n) == dir + "/" + FramePrefix + p + ("." + n);
  }

  /** The state `innerRenderFrames` keeps in its closure while tasks run. */
  class FrameRenderer {
    const config: Config
    var stopped: bool
    var framesRendered: nat
    var assets: seq<Option<seq<Asset>>>
    var updates: seq<(nat, nat)>
    var piped: seq<nat>
    var files: seq<string>
    var downloads: seq<Download>
    var errors: seq<string>
    var rejection: Option<string>

    function State(): Tasks
      reads this
    {
      Tasks(stopped, framesRendered, assets, updates, piped, files, downloads, errors, rejection)
    }

    ghost predicate Valid()
      reads this
    {
      Consistent(config, State())
    }

    constructor (c: Config)
      ensures config == c && State() == Start(c) && Valid()
    {
      config := c;
      stopped := false;
      framesRendered := 0;
      assets := seq(c.frameCount, _ => None);
      updates := [];
      piped := [];
      files := [];
      downloads := [];
      errors := [];
      rejection := None;
    }

    /** The cancel signal sets `stopped` and rejects the race unless it settled. */
    method OnCancelSignal()
      modifies this
      ensures State() == Cancel(old(State()))
    {
      stopped := true;
      if rejection.None? && !Finished(State()) {
        rejection := Some(CancelledError);
      }
    }

    /** An error of a page held by a task goes to `onError`. */
    method OnPageError(error: string)
      requires !Finished(State())
      modifies this
      ensures State() == PageError(old(State()), error)
    {
      errors := errors + [error];
      if rejection.None? {
        rejection := Some(error);
      }
    }

    /** Task `index` after it acquired a tab. */
    method RunTask(index: nat, collected: seq<Asset>) returns (result: Result<seq<Asset>>)
      requires Valid() && index < config.frameCount && assets[index].None?
      modifies this
      ensures Valid()
      ensures (State(), result) == Task(config, old(State()), index, collected)
    {
      ghost var before := State();
      assert !Finished(before) by { assert before.assets[index].None?; }
      if stopped {
        RejectWith(StoppedError);
        return Err(StoppedError);
      }
      var frame := config.first + index;
      if config.format != NoImage {
        if config.hasFrameBuffer {
          piped := piped + [frame];
        } else {
          if config.outputDir.None? {
            RejectWith(NoDestinationError);
            return Err(NoDestinationError);
          }
          files := files + [FramePath(config, config.outputDir.value, frame)];
        }
      }
      Complete(index, collected);
      result := Ok(collected);
      TaskKeepsConsistent(config, before, index, collected);
    }

    /** The returned promise rejects with `error`, unless it already settled. */
    method RejectWith(error: string)
      modifies this
      ensures State() == Reject(old(State()), error)
    {
      if rejection.None? && !Finished(State()) {
        rejection := Some(error);
      }
    }

    /** The end of a task: its slot is filled, its downloads scheduled and the counter reported. */
    method Complete(index: nat, collected: seq<Asset>)
      requires index < |assets|
      modifies this
      ensures State() == Done(config, old(State()), index, collected)
    {
      assets := assets[index := Some(collected)];
      downloads := Schedule(downloads, collected);
      framesRendered := framesRendered + 1;
      updates := updates + [(framesRendered, config.first + index)];
    }

    /** A scheduled download settles. */
    method SettleDownload(i: nat, stack: Option<string>)
      requires Valid() && i < |downloads| && !downloads[i].settled
      modifies this
      ensures Valid() && State() == Settle(old(State()), i, stack)
    {
      if stack.Some? {
        var error := DownloadErrorPrefix + stack.value;
        errors := errors + [error];
        if rejection.None? {
          rejection := Some(error);
        }
      }
      downloads := downloads[i := downloads[i].(settled := true)];
    }
  }
}
