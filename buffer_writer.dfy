/**
 * The in-memory writer of the media parser (packages/media-parser/src/writers/buffer.ts): a
 * resizable buffer of at most 100,000,000 bytes that `write` appends to and `updateDataAt`
 * overwrites in place, `save` hands out and `remove` discards.
 *
 * The writes are chained on one promise; here each call takes effect when it is made, in call
 * order, and a chain that has rejected once stays rejected (`failed`).
 */
module BufferWriter {

  import opened Wrappers

  /** `maxByteLength` of the backing `ArrayBuffer`. */
  const MaxByteLength: nat := 100_000_000

  /** The `RangeError` that `buf.resize` raises past the maximum length. */
  const ResizeError := "RangeError: ArrayBuffer.prototype.resize: Invalid length parameter"

  /** The `RangeError` that `Uint8Array.prototype.set` raises for data that does not fit. */
  const OffsetError := "RangeError: offset is out of bounds"

  const RemovedError := "Already called .remove() on the result"

  /**
   * The writer's state: the buffer's bytes, whether `data` is the empty array `remove` left,
   * whether `remove` was called, and the error the write chain rejected with, if it did.
   */
  datatype Content = Content(bytes: seq<byte>, viewEmpty: bool, removed: bool, failed: Option<string>)

  ghost predicate Bounded(c: Content) {
    |c.bytes| <= MaxByteLength
  }

  function Created(): (c: Content)
    ensures Bounded(c) && c.bytes == [] && !c.removed && c.failed.None?
  {
    Content([], false, false, None)
  }

  /** What the promise returned by a write or an update settles to. */
  function Settled(c: Content): Outcome {
    if c.failed.Some? then Fail(c.failed.value) else Pass
  }

  /**
   * `write`: after a rejection nothing happens; past the maximum the resize throws and the chain
   * rejects; otherwise the bytes are appended and `data` views the whole buffer again.
   */
  function WriteStep(c: Content, newData: seq<byte>): (r: Content)
    requires Bounded(c)
    ensures Bounded(r) && r.removed == c.removed
    ensures c.failed.None? && |c.bytes| + |newData| <= MaxByteLength ==>
      r == c.(bytes := c.bytes + newData, viewEmpty := false)
    ensures c.failed.None? && |c.bytes| + |newData| > MaxByteLength ==> r == c.(failed := Some(ResizeError))
    ensures c.failed.Some? ==> r == c
  {
    if c.failed.Some? then c
    else if |c.bytes| + |newData| > MaxByteLength then c.(failed := Some(ResizeError))
    else c.(bytes := c.bytes + newData, viewEmpty := false)
  }

  /** The bytes of `c` with `newData` written over them from `position` on. */
  function Overwrite(bytes: seq<byte>, position: nat, newData: seq<byte>): (r: seq<byte>)
    requires position + |newData| <= |bytes|
    ensures |r| == |bytes|
    ensures r[..position] == bytes[..position] && r[position..position + |newData|] == newData
    ensures r[position + |newData|..] == bytes[position + |newData|..]
  {
    bytes[..position] + newData + bytes[position + |newData|..]
  }

  /** Byte by byte: the new data inside the written range, the old bytes outside it. */
  lemma OverwriteAt(bytes: seq<byte>, position: nat, newData: seq<byte>)
    requires position + |newData| <= |bytes|
    ensures forall k :: 0 <= k < |bytes| ==>
      Overwrite(bytes, position, newData)[k] == (if position <= k < position + |newData| then newData[k - position] else bytes[k])
  {
  }

  /** `updateDataAt`: data that does not fit inside the written bytes throws; the length never changes. */
  function UpdateStep(c: Content, position: int, newData: seq<byte>): (r: Content)
    requires Bounded(c)
    ensures Bounded(r) && |r.bytes| == |c.bytes| && r.removed == c.removed
    ensures c.failed.None? && 0 <= position && position + |newData| <= |c.bytes| ==>
      r == c.(bytes := Overwrite(c.bytes, position, newData), viewEmpty := false)
    ensures c.failed.None? && (position < 0 || position + |newData| > |c.bytes|) ==> r == c.(failed := Some(OffsetError))
    ensures c.failed.Some? ==> r == c
  {
    if c.failed.Some? then c
    else if position < 0 || position + |newData| > |c.bytes| then c.(failed := Some(OffsetError))
    else c.(bytes := Overwrite(c.bytes, position, newData), viewEmpty := false)
  }

  /** `remove`: `data` becomes empty, but the buffer and its length stay. */
  function RemoveStep(c: Content): (r: Content)
    ensures r.removed && r.bytes == c.bytes && r.failed == c.failed
  {
    c.(removed := true, viewEmpty := true)
  }

  /** The `data` view at this moment. */
  function Data(c: Content): seq<byte> {
    if c.viewEmpty then [] else c.bytes
  }

  /** `save`: rejects once `remove` was called, else the current data. */
  function SaveResult(c: Content): (r: Result<seq<byte>>)
    ensures c.removed <==> r.Err?
    ensures r.Err? ==> r.error == RemovedError
  {
    if c.removed then Err(RemovedError) else Ok(Data(c))
  }

  /** `save` after `remove` always rejects, and `remove` does not change the written byte count. */
  lemma SaveAfterRemove(c: Content)
    ensures SaveResult(RemoveStep(c)) == Err(RemovedError)
    ensures |RemoveStep(c).bytes| == |c.bytes|
  {
  }

  /** Two writes in a row have the effect of one write of both, in call order. */
  lemma {:induction false} WritesInOrder(c: Content, a: seq<byte>, b: seq<byte>)
    requires Bounded(c) && c.failed.None? && |c.bytes| + |a| + |b| <= MaxByteLength
    ensures WriteStep(WriteStep(c, a), b) == WriteStep(c, a + b)
  {
    assert c.bytes + a + b == c.bytes + (a + b);
  }

  /** An update after a write overwrites the written bytes, without moving anything. */
  lemma UpdateAfterWrite(c: Content, a: seq<byte>, position: nat, patch: seq<byte>)
    requires Bounded(c) && c.failed.None? && |c.bytes| + |a| <= MaxByteLength
    requires position + |patch| <= |c.bytes|
    ensures var r := UpdateStep(WriteStep(c, a), position, patch);
      r.failed.None? && r.bytes == Overwrite(c.bytes, position, patch) + a
  {
    var r := UpdateStep(WriteStep(c, a), position, patch).bytes;
    var e := Overwrite(c.bytes, position, patch) + a;
    assert |r| == |e|;
    forall i | 0 <= i < |r| ensures r[i] == e[i] {
      if i < position {
        assert r[i] == r[..position][i];
      } else if i < position + |patch| {
        assert r[i] == r[position..position + |patch|][i - position];
        assert e[i] == Overwrite(c.bytes, position, patch)[position..position + |patch|][i - position];
      } else if i < |c.bytes| {
        assert r[i] == r[position + |patch|..][i - position - |patch|];
        assert e[i] == Overwrite(c.bytes, position, patch)[position + |patch|..][i - position - |patch|];
      }
    }
  }

  /** A call queued on the write chain: `write(data)` or `updateDataAt(position, data)`. */
  datatype Call = WriteCall(data: seq<byte>) | UpdateCall(position: int, data: seq<byte>)

  function Perform(c: Content, call: Call): (r: Content)
    requires Bounded(c)
    ensures Bounded(r)
  {
    match call
    case WriteCall(data) => WriteStep(c, data)
    case UpdateCall(position, data) => UpdateStep(c, position, data)
  }

  /** The calls, in the order they were made. */
  function PerformAll(c: Content, calls: seq<Call>): (r: Content)
    requires Bounded(c)
    ensures Bounded(r)
    decreases |calls|
  {
    if |calls| == 0 then c else Perform(PerformAll(c, calls[..|calls| - 1]), calls[|calls| - 1])
  }

  /**
   * Once the chain has rejected, no sequence of later writes and updates changes anything, and the
   * last of them (so, applied to each prefix, every one) settles with that same error.
   */
  lemma {:induction false} PoisonedChain(c: Content, calls: seq<Call>)
    requires Bounded(c) && c.failed.Some?
    ensures PerformAll(c, calls) == c
    ensures Settled(PerformAll(c, calls)) == Fail(c.failed.value)
    decreases |calls|
  {
    if |calls| > 0 {
      PoisonedChain(c, calls[..|calls| - 1]);
    }
  }

  /** The writer object: the backing buffer at its maximum size, of which the first `length` bytes are in use. */
  class Writer {
    const buf: array<byte>
    var length: nat
    var viewEmpty: bool
    var removed: bool
    var failed: Option<string>

    ghost predicate Valid()
      reads this
    {
      buf.Length == MaxByteLength && length <= MaxByteLength
    }

    function State(): (c: Content)
      requires Valid()
      reads this, buf
      ensures Bounded(c)
    {
      Content(buf[..length], viewEmpty, removed, failed)
    }

    /** `createContent`. */
    constructor ()
      ensures Valid() && fresh(buf) && State() == Created()
    {
      buf := new byte[MaxByteLength];
      length := 0;
      viewEmpty := false;
      removed := false;
      failed := None;
    }

    method Write(newData: seq<byte>) returns (r: Outcome)
      requires Valid()
      modifies this, buf
      ensures Valid()
      ensures State() == WriteStep(old(State()), newData) && r == Settled(State())
    {
      if failed.Some? {
        return Fail(failed.value);
      }
      if length + |newData| > MaxByteLength {
        failed := Some(ResizeError);
        return Fail(ResizeError);
      }
      ghost var before := buf[..length];
      for i := 0 to |newData|
        invariant length == old(length) && failed == old(failed) && removed == old(removed)
        invariant forall k :: 0 <= k < length + i ==>
          buf[k] == (if k < length then before[k] else newData[k - length])
      {
        buf[length + i] := newData[i];
      }
      assert buf[..length + |newData|] == before + newData;
      length := length + |newData|;
      viewEmpty := false;
      r := Pass;
    }

    method UpdateDataAt(position: int, newData: seq<byte>) returns (r: Outcome)
      requires Valid()
      modifies this, buf
      ensures Valid()
      ensures State() == UpdateStep(old(State()), position, newData) && r == Settled(State())
    {
      if failed.Some? {
        return Fail(failed.value);
      }
      if position < 0 || position + |newData| > length {
        failed := Some(OffsetError);
        return Fail(OffsetError);
      }
      ghost var before := buf[..length];
      for i := 0 to |newData|
        invariant length == old(length) && failed == old(failed) && removed == old(removed)
        invariant forall k :: 0 <= k < length ==>
          buf[k] == (if position <= k < position + i then newData[k - position] else before[k])
      {
        buf[position + i] := newData[i];
      }
      OverwriteAt(before, position, newData);
      assert buf[..length] == Overwrite(before, position, newData);
      viewEmpty := false;
      r := Pass;
    }

    method Save() returns (r: Result<seq<byte>>)
      requires Valid()
      ensures r == SaveResult(State())
    {
      if removed {
        return Err(RemovedError);
      }
      r := if viewEmpty then Ok([]) else Ok(buf[..length]);
    }

    method Remove()
      requires Valid()
      modifies this
      ensures Valid() && State() == RemoveStep(old(State()))
    {
      removed := true;
      viewEmpty := true;
    }

    /** `getWrittenByteCount`: the buffer's length, which `remove` leaves as it is. */
    method GetWrittenByteCount() returns (n: nat)
      requires Valid()
      ensures n == |State().bytes|
    {
      n := length;
    }

    /** `waitForFinish`: settles as the write chain does. */
    method WaitForFinish() returns (r: Outcome)
      requires Valid()
      ensures r == Settled(State())
    {
      r := if failed.Some? then Fail(failed.value) else Pass;
    }
  }
}
