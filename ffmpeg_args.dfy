/**
 * What the ffmpeg argument builders of the renderer share: dropping the falsy entries of an
 * argument list (`.filter(Boolean)`, `.filter(Internals.truthy)`), and the progress values that
 * `parseFfmpegProgress` (not part of this model; a parameter here) reads off stderr chunks.
 */
module FfmpegArgs {

  import opened Wrappers
  import opened Text

  /** The entries that survive `.filter(Boolean)`: every string but the empty one, in order. */
  function Truthy(xs: seq<string>): (r: seq<string>)
    ensures |r| <= |xs|
    ensures forall x :: x in r <==> x in xs && x != ""
    decreases |xs|
  {
    if |xs| == 0 then []
    else
      var init := Truthy(xs[..|xs| - 1]);
      var last := xs[|xs| - 1];
      assert xs == xs[..|xs| - 1] + [last];
      if last == "" then init else init + [last]
  }

  lemma {:induction false} TruthyAppend(a: seq<string>, b: seq<string>)
    ensures Truthy(a + b) == Truthy(a) + Truthy(b)
    decreases |b|
  {
    if |b| > 0 {
      var init := b[..|b| - 1];
      assert (a + b)[..|a + b| - 1] == a + init;
      assert (a + b)[|a + b| - 1] == b[|b| - 1];
      TruthyAppend(a, init);
    } else {
      assert a + b == a;
    }
  }

  /** A list without empty strings is left as it is. */
  lemma {:induction false} TruthyKeeps(xs: seq<string>)
    requires forall i :: 0 <= i < |xs| ==> xs[i] != ""
    ensures Truthy(xs) == xs
    decreases |xs|
  {
    if |xs| > 0 {
      TruthyKeeps(xs[..|xs| - 1]);
      assert xs[..|xs| - 1] + [xs[|xs| - 1]] == xs;
    }
  }

  /**
   * The progress values reported for a run of stderr chunks: each chunk that parses contributes its
   * value, in the order the chunks arrived; a chunk that does not parse is not reported.
   */
  function Reports(parse: string -> Option<int>, chunks: seq<string>): (r: seq<int>)
    ensures |r| <= |chunks|
    ensures forall v :: v in r ==> exists c :: c in chunks && parse(c) == Some(v)
    decreases |chunks|
  {
    if |chunks| == 0 then []
    else
      var init := Reports(parse, chunks[..|chunks| - 1]);
      var last := chunks[|chunks| - 1];
      assert forall c :: c in chunks[..|chunks| - 1] ==> c in chunks;
      match parse(last)
      case Some(v) => init + [v]
      case None => init
  }

  lemma ReportsAppend(parse: string -> Option<int>, chunks: seq<string>, data: string)
    ensures Reports(parse, chunks + [data]) ==
      Reports(parse, chunks) + (if parse(data).Some? then [parse(data).value] else [])
  {
    assert (chunks + [data])[..|chunks|] == chunks;
  }

  /** A caller-supplied string that cannot be mistaken for a flag. */
  predicate Plain(x: string) {
    |x| == 0 || x[0] != '-'
  }

  /** A number written by `String(i)` is never one of the flags. */
  lemma NumberIsNotFlag(i: int, flag: string)
    requires |flag| >= 2 && flag[0] == '-' && !IsDigit(flag[1])
    ensures IntToString(i) != flag
  {
    var w := IntToString(i);
    if i < 0 {
      assert w[1..] == NatToString(-i);
      assert IsDigit(w[1]);
    } else {
      assert IsDigit(w[0]);
    }
  }
}
