/**
 * `convertAssetsToFileUrls` (packages/renderer/src/assets/convert-assets-to-file-urls.ts): the
 * per-frame asset lists are cut into chunks of 1000 frames, the chunks are processed one after
 * another, and every asset is replaced by what `downloadAndMapAssetsToFileUrl` (not part of this
 * model; the parameter `resolve`) gives for it.
 */
module AssetChunks {

  import opened Wrappers

  /** One step of the `reduce` in `chunk`: item `idx` opens a new chunk when `idx % size == 0`. */
  function ChunkStep<T>(arr: seq<seq<T>>, item: T, idx: nat, size: nat): seq<seq<T>>
    requires size > 0 && (idx % size != 0 ==> |arr| > 0)
  {
    if idx % size == 0 then arr + [[item]]
    else arr[..|arr| - 1] + [arr[|arr| - 1] + [item]]
  }

  /** `chunk(input, size)`: the reduce, item by item from the left. */
  function Chunk<T>(input: seq<T>, size: nat): (r: seq<seq<T>>)
    requires size > 0
    ensures |input| == 0 <==> |r| == 0
    decreases |input|
  {
    if |input| == 0 then []
    else
      var idx := |input| - 1;
      var arr := Chunk(input[..idx], size);
      assert idx % size != 0 ==> idx > 0;
      ChunkStep(arr, input[idx], idx, size)
  }

  /** How the quotient and remainder of `idx - 1` relate to those of `idx`. */
  lemma DivStep(idx: nat, n: nat)
    requires idx > 0 && n > 0
    ensures idx % n != 0 ==> (idx - 1) / n == idx / n && (idx - 1) % n + 1 == idx % n
    ensures idx % n == 0 ==> (idx - 1) / n + 1 == idx / n && (idx - 1) % n == n - 1
  {
    var q, r := idx / n, idx % n;
    assert idx == n * q + r && 0 <= r < n;
    if r != 0 {
      DivModUnique(idx - 1, n, q, r - 1);
    } else {
      assert q >= 1;
      assert idx - 1 == n * (q - 1) + (n - 1);
      DivModUnique(idx - 1, n, q - 1, n - 1);
    }
  }

  lemma DivModUnique(a: int, n: nat, q: int, r: int)
    requires n > 0 && a == n * q + r && 0 <= r < n
    ensures a / n == q && a % n == r
  {
    var q', r' := a / n, a % n;
    assert a == n * q' + r' && 0 <= r' < n;
    assert n * (q' - q) == r - r';
    if q' > q {
      MulAtLeast(n, q' - q);
    } else if q' < q {
      MulAtLeast(n, q - q');
    }
  }

  lemma MulAtLeast(n: nat, k: int)
    requires k >= 1
    ensures n * k >= n
  {
  }

  /**
   * The chunks of a non-empty prefix of `m` items: there are `(m - 1) / size + 1` of them, all but
   * the last hold exactly `size` items, the last holds `(m - 1) % size + 1`, and together they are
   * the items in order.
   */
  ghost predicate ChunksOf<T>(r: seq<seq<T>>, input: seq<T>, size: nat)
    requires size > 0 && |input| > 0
  {
    |r| == (|input| - 1) / size + 1 &&
    (forall i :: 0 <= i < |r| - 1 ==> |r[i]| == size) &&
    |r[|r| - 1]| == (|input| - 1) % size + 1 &&
    Concat(r) == input
  }

  lemma {:induction false} ChunkShape<T>(input: seq<T>, size: nat)
    requires size > 0 && |input| > 0
    ensures ChunksOf(Chunk(input, size), input, size)
    decreases |input|
  {
    var idx := |input| - 1;
    var prefix := input[..idx];
    var arr := Chunk(prefix, size);
    assert input == prefix + [input[idx]];
    if idx == 0 {
      var r := Chunk(input, size);
      assert r == [[input[0]]];
      assert Concat(r) == Concat([]) + [input[0]];
    } else {
      ChunkShape(prefix, size);
      if idx % size == 0 {
        ChunkOpens(arr, prefix, input[idx], size);
      } else {
        ChunkExtends(arr, prefix, input[idx], size);
      }
    }
  }

  /** An item whose index is a multiple of `size` opens a new chunk. */
  lemma ChunkOpens<T>(arr: seq<seq<T>>, prefix: seq<T>, item: T, size: nat)
    requires size > 0 && |prefix| > 0 && |prefix| % size == 0
    requires ChunksOf(arr, prefix, size)
    ensures ChunksOf(arr + [[item]], prefix + [item], size)
  {
    DivStep(|prefix|, size);
    ConcatAppend(arr, [item]);
    var r := arr + [[item]];
    assert forall i :: 0 <= i < |r| - 1 ==> r[i] == arr[i];
  }

  /** Any other item joins the last chunk. */
  lemma ChunkExtends<T>(arr: seq<seq<T>>, prefix: seq<T>, item: T, size: nat)
    requires size > 0 && |prefix| > 0 && |prefix| % size != 0
    requires ChunksOf(arr, prefix, size)
    ensures ChunksOf(arr[..|arr| - 1] + [arr[|arr| - 1] + [item]], prefix + [item], size)
  {
    DivStep(|prefix|, size);
    var init := arr[..|arr| - 1];
    var last := arr[|arr| - 1];
    assert arr == init + [last];
    var r := init + [last + [item]];
    ConcatAppend(init, last);
    ConcatAppend(init, last + [item]);
    assert forall i :: 0 <= i < |r| - 1 ==> r[i] == arr[i];
  }

  /**
   * The chunk properties: joined back together the chunks are the input; every chunk is non-empty
   * and holds at most `size` items, all but the last exactly `size`; there are `ceil(|input| / size)`
   * of them, and none for an empty input.
   */
  lemma ChunkProperties<T>(input: seq<T>, size: nat)
    requires size > 0
    ensures var r := Chunk(input, size);
      Concat(r) == input &&
      |r| == (|input| + size - 1) / size &&
      (forall i :: 0 <= i < |r| ==> 0 < |r[i]| <= size) &&
      (forall i :: 0 <= i < |r| - 1 ==> |r[i]| == size)
  {
    var r := Chunk(input, size);
    if |input| > 0 {
      ChunkShape(input, size);
      var m := |input| - 1;
      DivModUnique(|input| + size - 1, size, m / size + 1, m % size);
    } else {
      DivModUnique(size - 1, size, 0, size - 1);
    }
  }

  /**
   * The inner `Promise.all` over one frame's assets: all of them resolved, in order, or the error of
   * a download that rejects (the first in the frame's order).
   */
  function ResolveFrame<A>(frame: seq<A>, resolve: A -> Result<A>): (r: Result<seq<A>>)
    ensures r.Ok? <==> forall j :: 0 <= j < |frame| ==> resolve(frame[j]).Ok?
    ensures r.Ok? ==> |r.value| == |frame| && forall j :: 0 <= j < |frame| ==> r.value[j] == resolve(frame[j]).value
    ensures r.Err? ==> exists j :: 0 <= j < |frame| && resolve(frame[j]) == Err(r.error)
    decreases |frame|
  {
    if |frame| == 0 then Ok([])
    else
      assert forall j :: 1 <= j < |frame| ==> frame[j] == frame[1..][j - 1];
      match resolve(frame[0])
      case Err(e) => Err(e)
      case Ok(v) =>
        match ResolveFrame(frame[1..], resolve)
        case Err(e) =>
          var k :| 0 <= k < |frame[1..]| && resolve(frame[1..][k]) == Err(e);
          assert resolve(frame[k + 1]) == Err(e);
          Err(e)
        case Ok(vs) => Ok([v] + vs)
  }

  /** Every asset of every frame resolves. */
  predicate AllResolve<A>(frames: seq<seq<A>>, resolve: A -> Result<A>) {
    forall i, j :: 0 <= i < |frames| && 0 <= j < |frames[i]| ==> resolve(frames[i][j]).Ok?
  }

  /**
   * The outer `Promise.all` over the frames: the error of the first frame with a rejecting download,
   * or every frame resolved; MapFramesMeaning states what it gives.
   */
  function MapFrames<A>(frames: seq<seq<A>>, resolve: A -> Result<A>): Result<seq<seq<A>>>
    decreases |frames|
  {
    if |frames| == 0 then Ok([])
    else
      match ResolveFrame(frames[0], resolve)
      case Err(e) => Err(e)
      case Ok(f) =>
        match MapFrames(frames[1..], resolve)
        case Err(e) => Err(e)
        case Ok(rest) => Ok([f] + rest)
  }

  /**
   * When every download succeeds, the frames keep their shape with each asset replaced by its
   * resolution; otherwise the error is that of a download that rejects.
   */
  lemma {:induction false} MapFramesMeaning<A>(frames: seq<seq<A>>, resolve: A -> Result<A>)
    ensures var r := MapFrames(frames, resolve);
      (r.Ok? <==> AllResolve(frames, resolve)) &&
      (r.Ok? ==> |r.value| == |frames| && forall i :: 0 <= i < |frames| ==>
         |r.value[i]| == |frames[i]| && forall j :: 0 <= j < |frames[i]| ==> r.value[i][j] == resolve(frames[i][j]).value) &&
      (r.Err? ==> exists i, j :: 0 <= i < |frames| && 0 <= j < |frames[i]| && resolve(frames[i][j]) == Err(r.error))
    decreases |frames|
  {
    if |frames| > 0 {
      var tail := frames[1..];
      MapFramesMeaning(tail, resolve);
      assert forall i :: 1 <= i < |frames| ==> frames[i] == tail[i - 1];
      var first, rest := ResolveFrame(frames[0], resolve), MapFrames(tail, resolve);
      if first.Err? {
        var j :| 0 <= j < |frames[0]| && resolve(frames[0][j]) == Err(first.error);
      } else if rest.Err? {
        var i, j :| 0 <= i < |tail| && 0 <= j < |tail[i]| && resolve(tail[i][j]) == Err(rest.error);
        assert resolve(frames[i + 1][j]) == Err(rest.error);
      } else {
        var r := [first.value] + rest.value;
        assert forall i :: 1 <= i < |frames| ==> r[i] == rest.value[i - 1];
      }
    }
  }

  /** How `MapFrames` treats the first frame: its error, else the rest's error, else the two joined. */
  lemma MapFramesCons<A>(frames: seq<seq<A>>, resolve: A -> Result<A>)
    requires |frames| > 0
    ensures var first, rest := ResolveFrame(frames[0], resolve), MapFrames(frames[1..], resolve);
      MapFrames(frames, resolve) ==
        if first.Err? then Err(first.error) else if rest.Err? then rest else Ok([first.value] + rest.value)
  {
  }

  /**
   * Resolving a concatenation of frames: the first part's error if it has one, else the second
   * part's error if it has one, else the two resolved parts joined.
   */
  lemma {:induction false} MapFramesAppend<A>(a: seq<seq<A>>, b: seq<seq<A>>, resolve: A -> Result<A>)
    ensures MapFrames(a + b, resolve) ==
      if MapFrames(a, resolve).Err? then MapFrames(a, resolve)
      else if MapFrames(b, resolve).Err? then MapFrames(b, resolve)
      else Ok(MapFrames(a, resolve).value + MapFrames(b, resolve).value)
    decreases |a|
  {
    if |a| == 0 {
      assert a + b == b;
      assert MapFrames(a, resolve) == Ok([]);
      if MapFrames(b, resolve).Ok? {
        assert [] + MapFrames(b, resolve).value == MapFrames(b, resolve).value;
      }
    } else {
      var tail := a[1..];
      assert (a + b)[0] == a[0];
      assert (a + b)[1..] == tail + b;
      var first, t, u := ResolveFrame(a[0], resolve), MapFrames(tail, resolve), MapFrames(b, resolve);
      var tu := MapFrames(tail + b, resolve);
      MapFramesAppend(tail, b, resolve);
      MapFramesCons(a, resolve);
      MapFramesCons(a + b, resolve);
      if first.Err? {
      } else if t.Err? {
        assert tu == t;
      } else if u.Err? {
        assert tu == u;
      } else {
        assert tu == Ok(t.value + u.value);
        assert [first.value] + (t.value + u.value) == ([first.value] + t.value) + u.value;
      }
    }
  }

  /**
   * Processing chunk `k` after the earlier ones all resolved: when it resolves, the flattened
   * results grow by exactly its resolved frames; when it rejects, so does everything up to it, with
   * its error; either way its assets are the next ones requested.
   */
  lemma NextChunk<A>(chunks: seq<seq<seq<A>>>, k: nat, results: seq<seq<seq<A>>>, resolve: A -> Result<A>)
    requires k < |chunks| && MapFrames(Concat(chunks[..k]), resolve) == Ok(Concat(results))
    ensures MapFrames(chunks[k], resolve).Ok? ==>
      MapFrames(Concat(chunks[..k + 1]), resolve) == Ok(Concat(results + [MapFrames(chunks[k], resolve).value]))
    ensures MapFrames(chunks[k], resolve).Err? ==>
      MapFrames(Concat(chunks[..k + 1]), resolve) == MapFrames(chunks[k], resolve)
    ensures Concat(Concat(chunks[..k + 1])) == Concat(Concat(chunks[..k])) + Concat(chunks[k])
  {
    assert chunks[..k + 1] == chunks[..k] + [chunks[k]];
    ConcatAppend(chunks[..k], chunks[k]);
    MapFramesAppend(Concat(chunks[..k]), chunks[k], resolve);
    if MapFrames(chunks[k], resolve).Ok? {
      ConcatAppend(results, MapFrames(chunks[k], resolve).value);
    }
    ConcatJoin(Concat(chunks[..k]), chunks[k]);
  }

  /** A rejection in the chunks processed so far is the rejection of the whole input. */
  lemma RejectionOfPrefix<A>(chunks: seq<seq<seq<A>>>, k: nat, resolve: A -> Result<A>)
    requires k <= |chunks| && MapFrames(Concat(chunks[..k]), resolve).Err?
    ensures MapFrames(Concat(chunks), resolve) == MapFrames(Concat(chunks[..k]), resolve)
  {
    assert chunks == chunks[..k] + chunks[k..];
    ConcatJoin(chunks[..k], chunks[k..]);
    MapFramesAppend(Concat(chunks[..k]), Concat(chunks[k..]), resolve);
  }

  /** The number of frames per chunk. */
  const ChunkSize := 1000

  /**
   * `convertAssetsToFileUrls`: the chunks are processed one after another. When every download
   * succeeds, the flattened results have the input's frames in order and shape, each asset replaced
   * by its resolution, and every asset was requested exactly once, frame by frame. When a download
   * rejects, the call rejects with a download's error once the chunk holding it has been requested
   * in full; every earlier chunk resolved, and no later chunk is started.
   */
  method ConvertAssetsToFileUrls<A>(assets: seq<seq<A>>, resolve: A -> Result<A>)
    returns (r: Result<seq<seq<A>>>, requested: seq<A>)
    ensures r == MapFrames(assets, resolve)
    ensures r.Ok? <==> forall i, j :: 0 <= i < |assets| && 0 <= j < |assets[i]| ==> resolve(assets[i][j]).Ok?
    ensures r.Ok? ==> |r.value| == |assets| && forall i :: 0 <= i < |assets| ==>
      |r.value[i]| == |assets[i]| && forall j :: 0 <= j < |assets[i]| ==> r.value[i][j] == resolve(assets[i][j]).value
    ensures r.Err? ==> exists i, j :: 0 <= i < |assets| && 0 <= j < |assets[i]| && resolve(assets[i][j]) == Err(r.error)
    ensures r.Ok? ==> requested == Concat(assets)
    ensures var chunks := Chunk(assets, ChunkSize);
      r.Err? ==> (exists k :: 0 <= k < |chunks| && MapFrames(Concat(chunks[..k]), resolve).Ok? &&
                    MapFrames(chunks[k], resolve).Err? && requested == Concat(Concat(chunks[..k + 1])))
  {
    var chunks := Chunk(assets, ChunkSize);
    ChunkProperties(assets, ChunkSize);
    var results: seq<seq<seq<A>>> := [];
    requested := [];
    for k := 0 to |chunks|
      invariant MapFrames(Concat(chunks[..k]), resolve) == Ok(Concat(results))
      invariant requested == Concat(Concat(chunks[..k]))
    {
      var result := MapFrames(chunks[k], resolve);
      NextChunk(chunks, k, results, resolve);
      requested := requested + Concat(chunks[k]);
      if result.Err? {
        RejectionOfPrefix(chunks, k + 1, resolve);
        MapFramesMeaning(assets, resolve);
        return Err(result.error), requested;
      }
      results := results + [result.value];
    }
    assert chunks[..|chunks|] == chunks;
    r := Ok(Concat(results));
    MapFramesMeaning(assets, resolve);
  }
}
