/**
 * The in-order hand-off of frame bytes to the pre-spawned encoder in `renderMedia`
 * (packages/renderer/src/render-media.ts, the `onFrameBuffer` callback), over the contract of
 * `ensureFramesInOrder` (not part of this model): a waiter for frame f resumes exactly when the
 * current turn is f. Frames finish rendering in any order; each one waits for its turn, is piped
 * unless the render was cancelled, and hands the turn to f + 1.
 */
module OrderedDelivery {

  import opened Wrappers

  /** The ascending, gap-free run a, a + 1, ..., b - 1. */
  function Run(a: int, b: int): (r: seq<int>)
    requires a <= b
    ensures |r| == b - a && forall k :: 0 <= k < |r| ==> r[k] == a + k
  {
    seq(b - a, k requires 0 <= k < b - a => a + k)
  }

  /**
   * The hand-off state: the turn (`setFrameToStitch`'s latest argument), the `cancelled` flag, the
   * frames piped so far with their bytes, and the frames waiting for their turn.
   */
  datatype Delivery = Delivery(
    first: int, last: int,
    nextTurn: int, cancelled: bool,
    written: seq<int>, piped: seq<seq<byte>>,
    parked: map<int, seq<byte>>)

  predicate WellFormed(d: Delivery) {
    d.first <= d.nextTurn <= d.last + 1 &&
    forall f :: f in d.parked ==> d.nextTurn <= f <= d.last
  }

  /** The state when rendering starts: the turn is the first frame of the range. */
  function Start(first: int, last: int): (d: Delivery)
    requires first <= last + 1
    ensures WellFormed(d) && d.written == [] && d.piped == []
  {
    Delivery(first, last, first, false, [], [], map[])
  }

  /**
   * Resuming waiters: while the frame whose turn it is waits and the render is not cancelled, its
   * bytes are piped and the turn moves on to the next frame.
   */
  function Drain(d: Delivery): (r: Delivery)
    requires WellFormed(d)
    ensures WellFormed(r)
    ensures r.first == d.first && r.last == d.last && r.cancelled == d.cancelled
    decreases d.last + 1 - d.nextTurn
  {
    if !d.cancelled && d.nextTurn in d.parked then
      var f := d.nextTurn;
      Drain(d.(nextTurn := f + 1, written := d.written + [f], piped := d.piped + [d.parked[f]],
               parked := d.parked - {f}))
    else d
  }

  /**
   * Frame f finished rendering with `bytes`: it waits for its turn; if its turn has already come and
   * the render was cancelled it returns without piping anything; otherwise the waiting frames are
   * resumed in turn order.
   */
  function Arrive(d: Delivery, f: int, bytes: seq<byte>): (r: Delivery)
    requires WellFormed(d) && d.nextTurn <= f <= d.last && f !in d.parked
    ensures WellFormed(r)
    ensures r.first == d.first && r.last == d.last && r.cancelled == d.cancelled
  {
    if d.cancelled && f == d.nextTurn then d
    else Drain(d.(parked := d.parked[f := bytes]))
  }

  /** The failure path of `renderMedia` sets `cancelled`; no waiter pipes anything afterwards. */
  function Cancelled(d: Delivery): (r: Delivery)
    ensures r.cancelled && r.written == d.written && r.piped == d.piped && r.nextTurn == d.nextTurn
  {
    d.(cancelled := true)
  }

  /**
   * What the hand-off keeps true while frames arrive: the piped frames are exactly the run from the
   * first frame up to the turn, each with the bytes it arrived with; every arrived frame is
   * piped, waiting, or (after cancellation) was dropped on its turn.
   */
  ghost predicate Pending(d: Delivery, arrived: map<int, seq<byte>>) {
    WellFormed(d) &&
    d.written == Run(d.first, d.nextTurn) &&
    |d.piped| == |d.written| &&
    (forall k :: 0 <= k < |d.written| ==> d.written[k] in arrived && d.piped[k] == arrived[d.written[k]]) &&
    (forall f :: f in d.parked ==> f in arrived && d.parked[f] == arrived[f]) &&
    (forall f :: f in arrived ==>
       d.first <= f <= d.last && (f < d.nextTurn || f in d.parked || (d.cancelled && f == d.nextTurn)))
  }

  /** Between two arrivals, additionally, the frame whose turn it is never waits unnoticed. */
  ghost predicate Inv(d: Delivery, arrived: map<int, seq<byte>>) {
    Pending(d, arrived) && (!d.cancelled ==> d.nextTurn !in d.parked)
  }

  lemma StartInv(first: int, last: int)
    requires first <= last + 1
    ensures Inv(Start(first, last), map[])
  {
  }

  /** Draining keeps every piped frame's bytes and leaves no waiting frame on its turn. */
  lemma {:induction false} DrainInv(d: Delivery, arrived: map<int, seq<byte>>)
    requires Pending(d, arrived)
    ensures Inv(Drain(d), arrived)
    decreases d.last + 1 - d.nextTurn
  {
    if !d.cancelled && d.nextTurn in d.parked {
      var f := d.nextTurn;
      var e := d.(nextTurn := f + 1, written := d.written + [f], piped := d.piped + [d.parked[f]],
                  parked := d.parked - {f});
      assert Run(d.first, f + 1) == Run(d.first, f) + [f];
      assert e.written[|d.written|] == f;
      DrainInv(e, arrived);
    }
  }

  /** Every frame before the turn has been piped, so it has arrived. */
  lemma PipedHasArrived(d: Delivery, arrived: map<int, seq<byte>>, f: int)
    requires Inv(d, arrived) && d.first <= f < d.nextTurn
    ensures f in arrived
  {
    assert d.written[f - d.first] == f;
  }

  lemma {:induction false} ArriveInv(d: Delivery, arrived: map<int, seq<byte>>, f: int, bytes: seq<byte>)
    requires Inv(d, arrived) && d.first <= f <= d.last && f !in arrived
    ensures d.nextTurn <= f && f !in d.parked
    ensures Inv(Arrive(d, f, bytes), arrived[f := bytes])
  {
    if f < d.nextTurn {
      PipedHasArrived(d, arrived, f);
      assert false;
    }
    if !(d.cancelled && f == d.nextTurn) {
      DrainInv(d.(parked := d.parked[f := bytes]), arrived[f := bytes]);
    }
  }

  lemma CancelInv(d: Delivery, arrived: map<int, seq<byte>>)
    requires Inv(d, arrived)
    ensures Inv(Cancelled(d), arrived)
  {
  }

  /** After cancellation an arriving frame pipes nothing and hands no turn onward. */
  lemma ArriveAfterCancel(d: Delivery, f: int, bytes: seq<byte>)
    requires WellFormed(d) && d.nextTurn <= f <= d.last && f !in d.parked && d.cancelled
    ensures var r := Arrive(d, f, bytes);
      r.written == d.written && r.piped == d.piped && r.nextTurn == d.nextTurn
  {
  }

  /** Feeds frames to the hand-off in the order they finish rendering. */
  function ArriveAll(d: Delivery, order: seq<int>, bytes: int -> seq<byte>): Delivery
    decreases |order|
  {
    if |order| == 0 then d
    else
      var f := order[|order| - 1];
      var before := ArriveAll(d, order[..|order| - 1], bytes);
      if WellFormed(before) && before.nextTurn <= f <= before.last && f !in before.parked
      then Arrive(before, f, bytes(f)) else before
  }

  function ArrivedMap(order: seq<int>, bytes: int -> seq<byte>): map<int, seq<byte>> {
    map f | f in order :: bytes(f)
  }

  lemma {:induction false} ArriveAllInv(first: int, last: int, order: seq<int>, bytes: int -> seq<byte>)
    requires first <= last + 1
    requires forall i :: 0 <= i < |order| ==> first <= order[i] <= last
    requires forall i, j :: 0 <= i < j < |order| ==> order[i] != order[j]
    ensures Inv(ArriveAll(Start(first, last), order, bytes), ArrivedMap(order, bytes))
    ensures var r := ArriveAll(Start(first, last), order, bytes);
      r.first == first && r.last == last && !r.cancelled
    decreases |order|
  {
    if |order| == 0 {
      assert ArrivedMap(order, bytes) == map[];
    } else {
      var prefix := order[..|order| - 1];
      var f := order[|order| - 1];
      assert order == prefix + [f];
      ArriveAllInv(first, last, prefix, bytes);
      var before := ArriveAll(Start(first, last), prefix, bytes);
      var arrived := ArrivedMap(prefix, bytes);
      assert f !in arrived by {
        forall i | 0 <= i < |prefix| ensures prefix[i] != f {
          assert prefix[i] == order[i];
        }
      }
      ArriveInv(before, arrived, f, bytes(f));
      assert ArriveAll(Start(first, last), order, bytes) == Arrive(before, f, bytes(f));
      ArrivedMapSnoc(prefix, f, bytes);
    }
  }

  lemma ArrivedMapSnoc(prefix: seq<int>, f: int, bytes: int -> seq<byte>)
    ensures ArrivedMap(prefix + [f], bytes) == ArrivedMap(prefix, bytes)[f := bytes(f)]
  {
    var m, n := ArrivedMap(prefix + [f], bytes), ArrivedMap(prefix, bytes)[f := bytes(f)];
    forall x ensures x in m <==> x in n {
      assert x in prefix + [f] <==> x in prefix || x == f;
    }
  }

  /**
   * Whatever order the frames of `[first, last]` finish in, once all of them have arrived without
   * cancellation, the encoder has received every frame exactly once, in ascending order, each with
   * its own bytes.
   */
  lemma {:induction false} EveryOrderPipesTheRangeInOrder(first: int, last: int, order: seq<int>, bytes: int -> seq<byte>)
    requires first <= last + 1
    requires forall i :: 0 <= i < |order| ==> first <= order[i] <= last
    requires forall i, j :: 0 <= i < j < |order| ==> order[i] != order[j]
    requires |order| == last + 1 - first
    ensures var r := ArriveAll(Start(first, last), order, bytes);
      r.written == Run(first, last + 1) &&
      |r.piped| == last + 1 - first &&
      forall k :: 0 <= k < |r.piped| ==> r.piped[k] == bytes(first + k)
  {
    ArriveAllInv(first, last, order, bytes);
    var r := ArriveAll(Start(first, last), order, bytes);
    var arrived := ArrivedMap(order, bytes);
    if r.nextTurn <= last {
      var missing := r.nextTurn;
      var covered := set i | 0 <= i < |order| :: order[i];
      forall i | 0 <= i < |order| ensures order[i] != missing {
        assert order[i] in arrived;
      }
      assert covered <= Frames(first, last) - {missing};
      SubsetSize(covered, Frames(first, last) - {missing});
      DistinctSetSize(order, covered);
      assert false;
    }
  }

  /** The frames first, ..., last as a set. */
  function Frames(first: int, last: int): (r: set<int>)
    ensures forall f :: f in r <==> first <= f <= last
    ensures first <= last + 1 ==> |r| == last + 1 - first
    decreases last - first
  {
    if last < first then {} else Frames(first, last - 1) + {last}
  }

  lemma {:induction false} DistinctSetSize(order: seq<int>, s: set<int>)
    requires forall i, j :: 0 <= i < j < |order| ==> order[i] != order[j]
    requires s == set i | 0 <= i < |order| :: order[i]
    ensures |s| == |order|
    decreases |order|
  {
    if |order| > 0 {
      var prefix := order[..|order| - 1];
      var t := set i | 0 <= i < |prefix| :: prefix[i];
      DistinctSetSize(prefix, t);
      assert s == t + {order[|order| - 1]};
      assert order[|order| - 1] !in t;
    }
  }

  /**
   * The hand-off as `renderMedia` runs it: the fields the `onFrameBuffer` callbacks share, the
   * waiting frames, and the encoder's stdin as the list of buffers written to it.
   */
  class FrameStitcher {
    const first: int
    const last: int
    var nextTurn: int
    var cancelled: bool
    var written: seq<int>
    var stdin: seq<seq<byte>>
    var waiting: map<int, seq<byte>>

    function State(): Delivery
      reads this
    {
      Delivery(first, last, nextTurn, cancelled, written, stdin, waiting)
    }

    ghost predicate Valid()
      reads this
    {
      WellFormed(State())
    }

    constructor (first: int, last: int)
      requires first <= last + 1
      ensures Valid() && State() == Start(first, last)
    {
      this.first := first;
      this.last := last;
      nextTurn := first;
      cancelled := false;
      written := [];
      stdin := [];
      waiting := map[];
    }

    /** `onFrameBuffer(buffer, frame)`: wait for the turn, pipe unless cancelled, hand the turn on. */
    method OnFrameBuffer(frame: int, buffer: seq<byte>)
      requires Valid() && nextTurn <= frame <= last && frame !in waiting
      modifies this
      ensures Valid() && State() == Arrive(old(State()), frame, buffer)
    {
      if cancelled && frame == nextTurn {
        return;
      }
      waiting := waiting[frame := buffer];
      ghost var target := Drain(State());
      while !cancelled && nextTurn in waiting
        invariant Valid() && Drain(State()) == target
        decreases last + 1 - nextTurn
      {
        var f := nextTurn;
        stdin := stdin + [waiting[f]];
        written := written + [f];
        waiting := waiting - {f};
        nextTurn := f + 1;
      }
    }

    /** `cancelled = true` on the failure path. */
    method Cancel()
      requires Valid()
      modifies this
      ensures Valid() && State() == Cancelled(old(State()))
    {
      cancelled := true;
    }

    /** `waitForFinish()` of the hand-off resolves once the turn has passed the last frame. */
    method IsFinished() returns (done: bool)
      requires Valid()
      ensures done <==> nextTurn == last + 1
    {
      done := nextTurn == last + 1;
    }
  }
}
