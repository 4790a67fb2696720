/**
 * The Matroska cluster builder of the media parser (packages/media-parser/src/create/cluster.ts):
 * the cluster header is written once, and each sample is checked against the cluster's timestamp,
 * grows the cluster size, rewrites the size field in place and is appended as a SimpleBlock.
 *
 * The helpers the file imports are not part of this model and are parameters (`Matroska`): the
 * header bytes `createClusterSegment` builds, `makeSimpleBlock`, `getVariableInt`, and the
 * rounding `timestampToClusterTimestamp` does in floating point.
 */
module Cluster {

  import opened Wrappers
  import opened Text
  import opened BufferWriter

  const NegativeTimecodePrefix := "timecodeRelativeToCluster is negative (track "
  const TooBigTimecodePrefix := "timecodeRelativeToCluster is too big: "

  /** `createClusterSegment`'s result: the header bytes and the offset of the Cluster element in them. */
  datatype Segment = Segment(bytes: seq<byte>, offset: nat)

  /** The arguments of `makeSimpleBlock` besides the payload. */
  datatype BlockHeader = BlockHeader(trackNumber: nat, keyframe: bool, invisible: bool, lacing: nat, timecode: int)

  datatype Matroska = Matroska(
    toClusterTimestamp: int -> int,
    clusterSegment: int -> Segment,
    makeSimpleBlock: (BlockHeader, seq<byte>) -> seq<byte>,
    variableInt: (int, nat) -> seq<byte>,
    clusterIdLength: nat,
    minVIntWidth: nat)

  /** `AudioOrVideoSample`, with its bytes as `copyTo` would give them. */
  datatype Sample = Sample(timestamp: int, keyframe: bool, bytes: seq<byte>)

  /** `maxClusterTimestamp` as written: 2 ** 15. */
  const MaxClusterTimestampAsWritten: int := 32768

  /** The largest relative timecode a SimpleBlock can carry (a signed 16-bit integer). */
  const MaxClusterTimestamp: int := 32767

  /** The check in `addSample` as written: negative and too-big relative timecodes are rejected. */
  function CheckTimecodeAsWritten(rel: int, trackNumber: nat): (r: Outcome)
    ensures r.Pass? <==> 0 <= rel <= MaxClusterTimestampAsWritten
  {
    if rel < 0 then Fail(NegativeTimecodePrefix + NatToString(trackNumber) + ")")
    else if rel > MaxClusterTimestampAsWritten then
      Fail(TooBigTimecodePrefix + IntToString(rel) + " > " + IntToString(MaxClusterTimestampAsWritten))
    else Pass
  }

  /** The check with the bound a SimpleBlock can hold, which the cluster builder below uses. */
  function CheckTimecode(rel: int, trackNumber: nat): (r: Outcome)
    ensures r.Pass? <==> 0 <= rel <= MaxClusterTimestamp
    ensures rel < 0 ==> r == Fail(NegativeTimecodePrefix + NatToString(trackNumber) + ")")
  {
    if rel < 0 then Fail(NegativeTimecodePrefix + NatToString(trackNumber) + ")")
    else if rel > MaxClusterTimestamp then
      Fail(TooBigTimecodePrefix + IntToString(rel) + " > " + IntToString(MaxClusterTimestamp))
    else Pass
  }

  /** The Block timestamp as section 10 of RFC 9559 stores it: a signed 16-bit big-endian integer. */
  function EncodeInt16(t: int): (b: seq<byte>)
    ensures |b| == 2
  {
    var u := t % 65536;
    [(u / 256) as byte, (u % 256) as byte]
  }

  function DecodeInt16(b: seq<byte>): int
    requires |b| == 2
  {
    var u := (b[0] as int) * 256 + b[1] as int;
    if u >= 32768 then u - 65536 else u
  }

  lemma Int16RoundTrip(t: int)
    requires -32768 <= t <= 32767
    ensures DecodeInt16(EncodeInt16(t)) == t
  {
    var u := t % 65536;
    assert (u / 256) * 256 + u % 256 == u;
    if t < 0 {
      assert u == t + 65536;
    } else {
      assert u == t;
    }
  }

  /**
   * The check as written lets a relative timecode of exactly 2^15 through, which a SimpleBlock
   * timestamp cannot hold: it reads back as -32768.
   */
  lemma AsWrittenAcceptsUnencodable(trackNumber: nat)
    ensures CheckTimecodeAsWritten(32768, trackNumber).Pass?
    ensures DecodeInt16(EncodeInt16(32768)) == -32768
  {
  }

  /** Every relative timecode the corrected check accepts reads back unchanged. */
  lemma AcceptedTimecodesRoundTrip(rel: int, trackNumber: nat)
    requires CheckTimecode(rel, trackNumber).Pass?
    ensures DecodeInt16(EncodeInt16(rel)) == rel
  {
    Int16RoundTrip(rel);
  }

  /** `shouldMakeNewCluster`: at least 2000 cluster time units later, and a keyframe. */
  function ShouldMakeNewCluster(m: Matroska, timestamp: int, newT: int, keyframe: bool): (r: bool)
    ensures r ==> keyframe
    ensures r <==> keyframe && m.toClusterTimestamp(newT) - m.toClusterTimestamp(timestamp) >= 2000
  {
    var newTimestamp := m.toClusterTimestamp(newT);
    var oldTimestamp := m.toClusterTimestamp(timestamp);
    newTimestamp - oldTimestamp >= 2000 && keyframe
  }

  /** What `makeCluster` fixes: where the size field is and how big the cluster is so far. */
  datatype Opened = Opened(content: Content, vintPosition: int, clusterSize: int)

  /**
   * `makeCluster`: the size field's position is the byte count before the header, plus the offset
   * of the Cluster element, plus the length of its ID; the size counts the header minus the ID and
   * the size field itself; then the header is written.
   */
  function MakeCluster(m: Matroska, c: Content, timestamp: int): (r: Opened)
    requires Bounded(c)
    ensures var seg := m.clusterSegment(m.toClusterTimestamp(timestamp));
      r.vintPosition == |c.bytes| + seg.offset + m.clusterIdLength &&
      r.clusterSize == |seg.bytes| - m.clusterIdLength - m.minVIntWidth &&
      r.content == WriteStep(c, seg.bytes)
  {
    var seg := m.clusterSegment(m.toClusterTimestamp(timestamp));
    Opened(WriteStep(c, seg.bytes), |c.bytes| + seg.offset + m.clusterIdLength,
           |seg.bytes| - m.clusterIdLength - m.minVIntWidth)
  }

  /** The relative timecode of a sample in the cluster opened at `timestamp`. */
  function RelativeTimecode(m: Matroska, timestamp: int, s: Sample): int {
    m.toClusterTimestamp(s.timestamp) - m.toClusterTimestamp(timestamp)
  }

  function Block(m: Matroska, timestamp: int, s: Sample, trackNumber: nat): seq<byte> {
    m.makeSimpleBlock(BlockHeader(trackNumber, s.keyframe, false, 0, RelativeTimecode(m, timestamp, s)), s.bytes)
  }

  /** One `addSample`: the new writer content, the new cluster size and how the call settles. */
  datatype Added = Added(content: Content, clusterSize: int, outcome: Outcome)

  /**
   * `addSample`: a rejected sample leaves the writer and the size alone. An accepted one grows the
   * size by the block's length, rewrites the size field at its fixed position, and only then appends
   * the block; a failing rewrite leaves the block unwritten.
   */
  function AddSampleStep(m: Matroska, timestamp: int, vintPosition: int, c: Content, clusterSize: int,
                         s: Sample, trackNumber: nat): (r: Added)
    requires Bounded(c)
    ensures Bounded(r.content)
    ensures var check := CheckTimecode(RelativeTimecode(m, timestamp, s), trackNumber);
      (check.Fail? ==> r == Added(c, clusterSize, check)) &&
      (check.Pass? ==>
         var block := Block(m, timestamp, s, trackNumber);
         var patched := UpdateStep(c, vintPosition, m.variableInt(clusterSize + |block|, m.minVIntWidth));
         r.clusterSize == clusterSize + |block| &&
         (patched.failed.Some? ==> r.content == patched) &&
         (patched.failed.None? ==> r.content == WriteStep(patched, block)) &&
         r.outcome == Settled(r.content))
  {
    var rel := RelativeTimecode(m, timestamp, s);
    var check := CheckTimecode(rel, trackNumber);
    if check.Fail? then Added(c, clusterSize, check)
    else
      var block := Block(m, timestamp, s, trackNumber);
      var size := clusterSize + |block|;
      var patched := UpdateStep(c, vintPosition, m.variableInt(size, m.minVIntWidth));
      if patched.failed.Some? then Added(patched, size, Settled(patched))
      else
        var written := WriteStep(patched, block);
        Added(written, size, Settled(written))
  }

  /**
   * When nothing fails, an accepted sample's bytes are the old bytes with the new size field at its
   * position, followed by the block; the length grows by exactly the block's length.
   */
  lemma AcceptedSampleLayout(m: Matroska, timestamp: int, vintPosition: int, c: Content, clusterSize: int,
                             s: Sample, trackNumber: nat)
    requires Bounded(c) && c.failed.None?
    requires CheckTimecode(RelativeTimecode(m, timestamp, s), trackNumber).Pass?
    requires var size := clusterSize + |Block(m, timestamp, s, trackNumber)|;
      0 <= vintPosition && vintPosition + |m.variableInt(size, m.minVIntWidth)| <= |c.bytes| &&
      |c.bytes| + |Block(m, timestamp, s, trackNumber)| <= MaxByteLength
    ensures var block := Block(m, timestamp, s, trackNumber);
      var field := m.variableInt(clusterSize + |block|, m.minVIntWidth);
      var r := AddSampleStep(m, timestamp, vintPosition, c, clusterSize, s, trackNumber);
      r.outcome == Pass && r.content.bytes == Overwrite(c.bytes, vintPosition, field) + block &&
      |r.content.bytes| == |c.bytes| + |block| &&
      r.content.bytes[vintPosition..vintPosition + |field|] == field
  {
    var block := Block(m, timestamp, s, trackNumber);
    var field := m.variableInt(clusterSize + |block|, m.minVIntWidth);
    var o := Overwrite(c.bytes, vintPosition, field);
    assert (o + block)[vintPosition..vintPosition + |field|] == o[vintPosition..vintPosition + |field|];
  }

  /** The sizes of the blocks of the accepted samples, in order. */
  function AcceptedBlockBytes(m: Matroska, timestamp: int, samples: seq<(Sample, nat)>): nat
    decreases |samples|
  {
    if |samples| == 0 then 0
    else
      var (s, track) := samples[|samples| - 1];
      AcceptedBlockBytes(m, timestamp, samples[..|samples| - 1]) +
      (if CheckTimecode(RelativeTimecode(m, timestamp, s), track).Pass? then |Block(m, timestamp, s, track)| else 0)
  }

  /** Adds the samples one after another, as the muxer awaits each `addSample`. */
  function AddAll(m: Matroska, timestamp: int, vintPosition: int, c: Content, clusterSize: int,
                  samples: seq<(Sample, nat)>): (r: Added)
    requires Bounded(c)
    ensures Bounded(r.content)
    decreases |samples|
  {
    if |samples| == 0 then Added(c, clusterSize, Pass)
    else
      var before := AddAll(m, timestamp, vintPosition, c, clusterSize, samples[..|samples| - 1]);
      var (s, track) := samples[|samples| - 1];
      AddSampleStep(m, timestamp, vintPosition, before.content, before.clusterSize, s, track)
  }

  /**
   * The cluster size after any run of samples is its initial value plus the block lengths of the
   * accepted samples, whatever the writer did; rejected samples count for nothing.
   */
  lemma {:induction false} ClusterSizeCountsAcceptedBlocks(m: Matroska, timestamp: int, vintPosition: int,
                                                          c: Content, clusterSize: int, samples: seq<(Sample, nat)>)
    requires Bounded(c)
    ensures AddAll(m, timestamp, vintPosition, c, clusterSize, samples).clusterSize ==
      clusterSize + AcceptedBlockBytes(m, timestamp, samples)
    decreases |samples|
  {
    if |samples| > 0 {
      ClusterSizeCountsAcceptedBlocks(m, timestamp, vintPosition, c, clusterSize, samples[..|samples| - 1]);
    }
  }

  /** The cluster under construction, writing through a buffer writer. */
  class ClusterBuilder {
    const m: Matroska
    const timestamp: int
    const w: Writer
    const vintPosition: int
    /** How the awaited write of the header settled: `makeCluster` rejects when it failed. */
    const headerWritten: Outcome
    var clusterSize: int

    /** `makeCluster`. */
    constructor (m: Matroska, w: Writer, timestamp: int)
      requires w.Valid()
      modifies w, w.buf
      ensures w.Valid() && this.m == m && this.w == w && this.timestamp == timestamp
      ensures Opened(w.State(), vintPosition, clusterSize) == MakeCluster(m, old(w.State()), timestamp)
      ensures headerWritten == Settled(w.State())
      ensures old(w.State()).failed.None? && |old(w.State()).bytes| + |m.clusterSegment(m.toClusterTimestamp(timestamp)).bytes| <= MaxByteLength
              ==> headerWritten == Pass
    {
      var seg := m.clusterSegment(m.toClusterTimestamp(timestamp));
      var count := w.GetWrittenByteCount();
      var written := w.Write(seg.bytes);
      this.m := m;
      this.w := w;
      this.timestamp := timestamp;
      vintPosition := count + seg.offset + m.clusterIdLength;
      clusterSize := |seg.bytes| - m.clusterIdLength - m.minVIntWidth;
      headerWritten := written;
    }

    method AddSample(s: Sample, trackNumber: nat) returns (r: Outcome)
      requires w.Valid()
      modifies this, w, w.buf
      ensures w.Valid()
      ensures Added(w.State(), clusterSize, r) ==
        AddSampleStep(m, timestamp, vintPosition, old(w.State()), old(clusterSize), s, trackNumber)
    {
      var rel := m.toClusterTimestamp(s.timestamp) - m.toClusterTimestamp(timestamp);
      var check := CheckTimecode(rel, trackNumber);
      if check.Fail? {
        return check;
      }
      var block := m.makeSimpleBlock(BlockHeader(trackNumber, s.keyframe, false, 0, rel), s.bytes);
      clusterSize := clusterSize + |block|;
      r := w.UpdateDataAt(vintPosition, m.variableInt(clusterSize, m.minVIntWidth));
      if r.Fail? {
        return;
      }
      r := w.Write(block);
    }
  }
}
