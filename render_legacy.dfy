/**
 * The legacy `renderFrames` (packages/renderer/src/render.ts): the quality check before anything
 * starts, the start report, the per-frame file names, the counter and the per-index asset list.
 * The file numbers are padded to the digits of the last frame of the range, the corrected form of
 * the legacy rule (FrameNaming.LegacyPadLengthNotUniform shows the rule as written). Serving the bundle, tabs and screenshots are not part of this model.
 */
module LegacyRender {

  import opened Wrappers
  import opened Codecs
  import opened FrameNaming
  import RenderFrames

  type Asset = string

  /** What the tasks of one legacy render share. */
  datatype Setup = Setup(outputDir: string, format: ImageFormat, first: nat, frameCount: nat, pad: nat)

  /** The state the tasks mutate: the `onStart` report, the counter and its reports, the files and the results. */
  datatype Legacy = Legacy(
    started: seq<nat>, framesRendered: nat, updates: seq<nat>,
    files: seq<string>, assets: seq<Option<seq<Asset>>>)

  /**
   * The checks and set-up before any frame: `quality` with a format other than 'jpeg' is rejected
   * before the server or the browser starts; otherwise the (corrected) pad length is fixed and `onStart`
   * receives the frame count while no frame has been rendered yet.
   */
  function Begin(quality: Option<int>, outputDir: string, format: ImageFormat, first: nat, frameCount: nat):
    (r: Result<(Setup, Legacy)>)
    ensures r.Err? <==> quality.Some? && format != Jpeg
    ensures r.Ok? ==>
      r.value.0 == Setup(outputDir, format, first, frameCount, LegacyPadLengthCorrected(first, frameCount)) &&
      r.value.1.started == [frameCount] && r.value.1.framesRendered == 0 && r.value.1.files == [] &&
      |r.value.1.assets| == frameCount && forall i :: 0 <= i < frameCount ==> r.value.1.assets[i].None?
  {
    var check := ValidateQuality(quality, format);
    if check.Fail? then Err(check.error)
    else
      var setup := Setup(outputDir, format, first, frameCount, LegacyPadLengthCorrected(first, frameCount));
      Ok((setup, Fresh(setup)))
  }

  /** The state once `onStart` has been called and before any task ran. */
  function Fresh(s: Setup): (l: Legacy)
    ensures Counted(s, l) && l.started == [s.frameCount] && l.framesRendered == 0 && l.files == []
    ensures forall i :: 0 <= i < s.frameCount ==> l.assets[i].None?
  {
    var l := Legacy([s.frameCount], 0, [], [], seq(s.frameCount, _ => None));
    assert FilledSlots(l) == {};
    l
  }

  /**
   * `path.join(outputDir, element-<padded frame>.<format>)`, with the two parts joined by one `/`
   * (the normalisation `path.join` adds is not modelled).
   */
  function LegacyPath(s: Setup, frame: nat): string {
    s.outputDir + "/" + FrameFileName(PaddedIndex(frame, s.pad), s.format)
  }

  /** The counter's reports so far are 1, 2, ..., and the start report came first. */
  ghost predicate Counted(s: Setup, l: Legacy) {
    l.started == [s.frameCount] && |l.assets| == s.frameCount &&
    l.framesRendered == |l.updates| == |FilledSlots(l)| &&
    forall k :: 0 <= k < |l.updates| ==> l.updates[k] == k + 1
  }

  function FilledSlots(l: Legacy): set<nat> {
    set i: nat | i < |l.assets| && l.assets[i].Some?
  }

  /**
   * Task `index`: frame `first + index` is captured to its file unless the format is 'none', its
   * assets become entry `index` of the result, and after the tab is released the counter rises by
   * one and is reported.
   */
  function Task(s: Setup, l: Legacy, index: nat, collected: seq<Asset>): (r: Legacy)
    requires Counted(s, l) && index < s.frameCount && l.assets[index].None?
    ensures Counted(s, r)
    ensures r.assets == l.assets[index := Some(collected)]
    ensures r.framesRendered == l.framesRendered + 1 && r.updates == l.updates + [l.framesRendered + 1]
    ensures s.format == NoImage ==> r.files == l.files
    ensures s.format != NoImage ==> r.files == l.files + [LegacyPath(s, s.first + index)]
  {
    var files := if s.format != NoImage then l.files + [LegacyPath(s, s.first + index)] else l.files;
    var r := Legacy(l.started, l.framesRendered + 1, l.updates + [l.framesRendered + 1], files,
                    l.assets[index := Some(collected)]);
    assert FilledSlots(r) == FilledSlots(l) + {index};
    r
  }

  /** Runs the tasks in the order they get a tab. */
  function RunAll(s: Setup, l: Legacy, order: seq<nat>, collected: nat -> seq<Asset>): (r: Legacy)
    requires Counted(s, l)
    ensures Counted(s, r)
    decreases |order|
  {
    if |order| == 0 then l
    else
      var before := RunAll(s, l, order[..|order| - 1], collected);
      var index := order[|order| - 1];
      if index < s.frameCount && before.assets[index].None? then Task(s, before, index, collected(index))
      else before
  }

  /** The result: one entry per range index, in index order. */
  function Assets(l: Legacy): (r: Option<seq<seq<Asset>>>)
    ensures r.Some? <==> forall i :: 0 <= i < |l.assets| ==> l.assets[i].Some?
    ensures r.Some? ==> |r.value| == |l.assets| && forall i :: 0 <= i < |l.assets| ==> r.value[i] == l.assets[i].value
  {
    if forall i :: 0 <= i < |l.assets| ==> l.assets[i].Some? then
      Some(seq(|l.assets|, i requires 0 <= i < |l.assets| => l.assets[i].value))
    else None
  }

  /**
   * Whatever order the tabs free up in, once every task has run the counter equals the frame count,
   * it was reported as 1, 2, ..., frameCount, and the result lists each index's own assets in index order.
   */
  lemma {:induction false} EveryOrderGivesAssetsInIndexOrder(s: Setup, order: seq<nat>, collected: nat -> seq<Asset>)
    requires RenderFrames.IsOrderOfTasks(order, s.frameCount)
    ensures var r := RunAll(s, Fresh(s), order, collected);
      r.framesRendered == s.frameCount && r.started == [s.frameCount] &&
      (forall k :: 0 <= k < s.frameCount ==> r.updates[k] == k + 1) &&
      Assets(r) == Some(seq(s.frameCount, i requires 0 <= i < s.frameCount => collected(i)))
  {
    RunAllFills(s, order, collected);
    var r := RunAll(s, Fresh(s), order, collected);
    forall i | 0 <= i < s.frameCount ensures r.assets[i] == Some(collected(i)) {
      if r.assets[i].None? {
        var filled := FilledSlots(r);
        assert filled <= RenderFrames.NatsBelow(s.frameCount) - {i};
        SubsetSize(filled, RenderFrames.NatsBelow(s.frameCount) - {i});
        assert false;
      }
    }
    var expected := seq(s.frameCount, i requires 0 <= i < s.frameCount => collected(i));
    assert Assets(r).value == expected;
  }

  lemma {:induction false} RunAllFills(s: Setup, order: seq<nat>, collected: nat -> seq<Asset>)
    requires (forall i :: 0 <= i < |order| ==> order[i] < s.frameCount)
    requires (forall i, j :: 0 <= i < j < |order| ==> order[i] != order[j])
    ensures var r := RunAll(s, Fresh(s), order, collected);
      r.framesRendered == |order| &&
      forall i :: 0 <= i < s.frameCount ==>
        (r.assets[i].Some? <==> i in order) && (r.assets[i].Some? ==> r.assets[i].value == collected(i))
    decreases |order|
  {
    if |order| > 0 {
      var prefix := order[..|order| - 1];
      var index := order[|order| - 1];
      RunAllFills(s, prefix, collected);
      var before := RunAll(s, Fresh(s), prefix, collected);
      assert index !in prefix;
      assert before.assets[index].None?;
      assert RunAll(s, Fresh(s), order, collected) == Task(s, before, index, collected(index));
      assert order == prefix + [index];
      forall i | 0 <= i < s.frameCount
        ensures i in order <==> i in prefix || i == index
      {
      }
    }
  }

  /** The closure state of one legacy render. */
  class LegacyRenderer {
    const setup: Setup
    var started: seq<nat>
    var framesRendered: nat
    var updates: seq<nat>
    var files: seq<string>
    var assets: seq<Option<seq<Asset>>>

    function State(): Legacy
      reads this
    {
      Legacy(started, framesRendered, updates, files, assets)
    }

    ghost predicate Valid()
      reads this
    {
      Counted(setup, State())
    }

    constructor (s: Setup, l: Legacy)
      requires Counted(s, l)
      ensures setup == s && State() == l && Valid()
    {
      setup := s;
      started := l.started;
      framesRendered := l.framesRendered;
      updates := l.updates;
      files := l.files;
      assets := l.assets;
    }

    /** One task, after its tab was acquired. */
    method RunTask(index: nat, collected: seq<Asset>)
      requires Valid() && index < setup.frameCount && assets[index].None?
      modifies this
      ensures Valid() && State() == Task(setup, old(State()), index, collected)
    {
      ghost var spec := Task(setup, State(), index, collected);
      if setup.format != NoImage {
        files := files + [LegacyPath(setup, setup.first + index)];
      }
      assets := assets[index := Some(collected)];
      framesRendered := framesRendered + 1;
      updates := updates + [framesRendered];
    }
  }
}
